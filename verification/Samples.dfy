/** From the flat list of metric samples to per-device readings (internal/daemon/client.go). */
module Samples {
  import opened Options
  import opened Floats
  import opened Devices

  type MetricId = int

  const TEMPERATURE_MILLI_CELSIUS: MetricId := 100
  const POWER_MICRO_WATT: MetricId := 101
  const UTILIZATION_PERCENT_MILLI: MetricId := 200
  const MEMORY_USED_BYTES: MetricId := 300
  const PSTATE: MetricId := 500

  datatype SampleValue = NoValue | IntValue(i: int) | FloatValue(f: Float)
  datatype Sample = Sample(device: string, metricId: MetricId, value: SampleValue)

  // ---------------------------------------------------------------------------------------
  // What one sample says about a device
  // ---------------------------------------------------------------------------------------

  function FloatOf(s: Sample, id: MetricId): Option<real>
  {
    if s.metricId == id && s.value.FloatValue? && s.value.f.Finite? then Some(s.value.f.value) else None
  }

  function IntOf(s: Sample, id: MetricId): Option<nat>
  {
    if s.metricId == id && s.value.IntValue? && s.value.i >= 0 then Some(s.value.i) else None
  }

  function Temperature(isVF: bool): Sample -> Option<real>
  {
    s => var v := FloatOf(s, TEMPERATURE_MILLI_CELSIUS);
         if v.Some? && !isVF then Some(v.value / 1000.0) else None
  }

  function Power(isVF: bool): Sample -> Option<real>
  {
    s => var v := FloatOf(s, POWER_MICRO_WATT);
         if v.Some? && !isVF && v.value >= 0.0 then Some(v.value / 1000000.0) else None
  }

  function Utilization(compute: bool): Sample -> Option<real>
  {
    s => var v := FloatOf(s, UTILIZATION_PERCENT_MILLI);
         if v.Some? && compute && 0.0 <= v.value <= 100000.0 then Some(v.value / 1000.0) else None
  }

  function MemoryUsed(compute: bool): Sample -> Option<nat>
  {
    s => if compute then IntOf(s, MEMORY_USED_BYTES) else None
  }

  function PState(): Sample -> Option<int>
  {
    s => IntOf(s, PSTATE)
  }

  // ---------------------------------------------------------------------------------------
  // Last valid reading
  // ---------------------------------------------------------------------------------------

  function OrElse<T>(o: Option<T>, otherwise: Option<T>): Option<T>
  {
    if o.Some? then o else otherwise
  }

  function LastReading<T>(samples: seq<Sample>, reading: Sample -> Option<T>, initial: Option<T>): Option<T>
  {
    if samples == [] then initial
    else OrElse(reading(samples[|samples| - 1]), LastReading(samples[..|samples| - 1], reading, initial))
  }

  /** The reading is the one of the last valid sample: later invalid ones do not erase it, and
      without any valid sample the value is what it was. */
  lemma {:induction false} LastReadingIsLast<T>(samples: seq<Sample>, reading: Sample -> Option<T>, initial: Option<T>)
    ensures (forall s :: s in samples ==> reading(s).None?) ==> LastReading(samples, reading, initial) == initial
    ensures (exists s :: s in samples && reading(s).Some?) ==>
      exists i :: 0 <= i < |samples| && reading(samples[i]).Some?
        && LastReading(samples, reading, initial) == reading(samples[i])
        && forall j :: i < j < |samples| ==> reading(samples[j]).None?
  {
    if samples != [] {
      var last := |samples| - 1;
      LastReadingIsLast(samples[..last], reading, initial);
      assert samples == samples[..last] + [samples[last]];
      if reading(samples[last]).None? && exists s :: s in samples && reading(s).Some? {
        var i :| 0 <= i < last && reading(samples[..last][i]).Some?
          && LastReading(samples[..last], reading, initial) == reading(samples[..last][i])
          && forall j :: i < j < last ==> reading(samples[..last][j]).None?;
        assert reading(samples[i]).Some? && LastReading(samples, reading, initial) == reading(samples[i]);
        forall j | i < j < |samples| ensures reading(samples[j]).None? {
          if j < last { assert samples[j] == samples[..last][j]; }
        }
      }
    }
  }

  /** The device after a list of samples; every other field is untouched. */
  ghost function Sampled(d: DeviceInfo, samples: seq<Sample>): DeviceInfo
  {
    d.(temperature := LastReading(samples, Temperature(d.isVF), d.temperature),
       power := LastReading(samples, Power(d.isVF), d.power),
       utilization := LastReading(samples, Utilization(d.compute), d.utilization),
       memoryUsedBytes := LastReading(samples, MemoryUsed(d.compute), d.memoryUsedBytes),
       pState := LastReading(samples, PState(), d.pState))
  }

  lemma LastReadingStep<T>(samples: seq<Sample>, i: nat, reading: Sample -> Option<T>, initial: Option<T>)
    requires i < |samples|
    ensures LastReading(samples[..i + 1], reading, initial)
      == OrElse(reading(samples[i]), LastReading(samples[..i], reading, initial))
  {
    assert samples[..i + 1][..i] == samples[..i];
  }

  /** One sample touches at most the field of its metric. */
  lemma SampledOnce(d: DeviceInfo, s: Sample)
    ensures Sampled(d, [s]) == d.(
      temperature := OrElse(Temperature(d.isVF)(s), d.temperature),
      power := OrElse(Power(d.isVF)(s), d.power),
      utilization := OrElse(Utilization(d.compute)(s), d.utilization),
      memoryUsedBytes := OrElse(MemoryUsed(d.compute)(s), d.memoryUsedBytes),
      pState := OrElse(PState()(s), d.pState))
  {
    LastOfOne(s, Temperature(d.isVF), d.temperature);
    LastOfOne(s, Power(d.isVF), d.power);
    LastOfOne(s, Utilization(d.compute), d.utilization);
    LastOfOne(s, MemoryUsed(d.compute), d.memoryUsedBytes);
    LastOfOne(s, PState(), d.pState);
  }

  lemma LastOfOne<T>(s: Sample, reading: Sample -> Option<T>, initial: Option<T>)
    ensures LastReading([s], reading, initial) == OrElse(reading(s), initial)
  {
    LastReadingStep([s], 0, reading, initial);
    assert [s][..1] == [s];
  }

  method ApplySample(d: DeviceCell, s: Sample)
    modifies d
    ensures d.info == Sampled(old(d.info), [s])
  {
    SampledOnce(d.info, s);
    if s.value.FloatValue? {
      if !s.value.f.Finite? {
        return;
      }
      var v := s.value.f.value;
      if s.metricId == TEMPERATURE_MILLI_CELSIUS {
        if !d.info.isVF {
          d.info := d.info.(temperature := Some(v / 1000.0));
        }
      } else if s.metricId == POWER_MICRO_WATT {
        if !d.info.isVF && v >= 0.0 {
          d.info := d.info.(power := Some(v / 1000000.0));
        }
      } else if s.metricId == UTILIZATION_PERCENT_MILLI {
        if d.info.compute && v >= 0.0 && v <= 100000.0 {
          d.info := d.info.(utilization := Some(v / 1000.0));
        }
      }
    }
    if s.value.IntValue? {
      var v := s.value.i;
      if v < 0 {
        return;
      }
      if s.metricId == MEMORY_USED_BYTES {
        if d.info.compute {
          d.info := d.info.(memoryUsedBytes := Some(v));
        }
      } else if s.metricId == PSTATE {
        d.info := d.info.(pState := Some(v));
      }
    }
  }

  /** The replay loop at the end of a device's collection. */
  method Replay(d: DeviceCell, samples: seq<Sample>)
    modifies d
    ensures d.info == Sampled(old(d.info), samples)
  {
    for i := 0 to |samples|
      invariant d.info == Sampled(old(d.info), samples[..i])
    {
      ghost var before := d.info;
      ApplySample(d, samples[i]);
      SampledStep(old(d.info), samples, i);
    }
    assert samples[..|samples|] == samples;
  }

  lemma SampledStep(d: DeviceInfo, samples: seq<Sample>, i: nat)
    requires i < |samples|
    ensures Sampled(d, samples[..i + 1]) == Sampled(Sampled(d, samples[..i]), [samples[i]])
  {
    SampledOnce(Sampled(d, samples[..i]), samples[i]);
    LastReadingStep(samples, i, Temperature(d.isVF), d.temperature);
    LastReadingStep(samples, i, Power(d.isVF), d.power);
    LastReadingStep(samples, i, Utilization(d.compute), d.utilization);
    LastReadingStep(samples, i, MemoryUsed(d.compute), d.memoryUsedBytes);
    LastReadingStep(samples, i, PState(), d.pState);
  }

  // ---------------------------------------------------------------------------------------
  // The index by device name
  // ---------------------------------------------------------------------------------------

  function OfDevice(samples: seq<Sample>, name: string): seq<Sample>
  {
    if samples == [] then []
    else
      var s := samples[|samples| - 1];
      OfDevice(samples[..|samples| - 1], name) + if s.device == name then [s] else []
  }

  /** What the index hands out for a device: its samples in order, or nothing when the daemon
      reported it unreachable. */
  function Readings(readings: map<string, seq<Sample>>, name: string): seq<Sample>
  {
    if name in readings then readings[name] else []
  }

  method IndexSamples(samples: seq<Sample>, missing: set<string>) returns (readings: map<string, seq<Sample>>)
    ensures forall name ::
      Readings(readings, name) == if name == "" || name in missing then [] else OfDevice(samples, name)
  {
    readings := map[];
    for i := 0 to |samples|
      invariant forall name ::
        Readings(readings, name) == if name == "" || name in missing then [] else OfDevice(samples[..i], name)
    {
      assert samples[..i + 1][..i] == samples[..i];
      var s := samples[i];
      ghost var before := readings;
      if s.device != "" && s.device !in missing {
        readings := readings[s.device := (if s.device in readings then readings[s.device] else []) + [s]];
      }
      forall name ensures Readings(readings, name) ==
        if name == "" || name in missing then [] else OfDevice(samples[..i + 1], name)
      {
        assert Readings(before, name) == if name == "" || name in missing then [] else OfDevice(samples[..i], name);
      }
    }
    assert samples[..|samples|] == samples;
  }

  /** Another device's sample, wherever it stands in the response, is invisible. */
  lemma {:induction false} OtherDevicesDoNotMatter(a: seq<Sample>, s: Sample, b: seq<Sample>, name: string)
    requires s.device != name
    ensures OfDevice(a + [s] + b, name) == OfDevice(a + b, name)
  {
    if b == [] {
      assert (a + [s] + b)[..|a|] == a && a + b == a;
    } else {
      assert (a + [s] + b)[..|a| + |b|] == a + [s] + b[..|b| - 1];
      assert (a + b)[..|a| + |b| - 1] == a + b[..|b| - 1];
      OtherDevicesDoNotMatter(a, s, b[..|b| - 1], name);
    }
  }

  /** A fresh device's readings after any samples: utilization is a percentage and, like memory,
      exists on compute devices only; temperature and power exist on physical functions only. */
  lemma LastReadingsAreInScope(samples: seq<Sample>, isVF: bool, compute: bool)
    ensures var u := LastReading(samples, Utilization(compute), None); u.Some? ==> compute && 0.0 <= u.value <= 100.0
    ensures LastReading(samples, MemoryUsed(compute), None).Some? ==> compute
    ensures LastReading(samples, Temperature(isVF), None).Some? ==> !isVF
    ensures var p := LastReading(samples, Power(isVF), None); p.Some? ==> !isVF && p.value >= 0.0
  {
    LastReadingIsLast(samples, Utilization(compute), None);
    LastReadingIsLast(samples, MemoryUsed(compute), None);
    LastReadingIsLast(samples, Temperature(isVF), None);
    LastReadingIsLast(samples, Power(isVF), None);
  }

  /** There is a reading exactly when some sample is valid for it. */
  lemma ReadingNeedsValidSample<T>(samples: seq<Sample>, reading: Sample -> Option<T>)
    ensures LastReading(samples, reading, None).Some? <==> exists x :: x in samples && reading(x).Some?
  {
    LastReadingIsLast(samples, reading, None);
  }

  lemma {:induction false} InOfDevice(samples: seq<Sample>, name: string, x: Sample)
    ensures x in OfDevice(samples, name) <==> x in samples && x.device == name
  {
    if samples != [] {
      InOfDevice(samples[..|samples| - 1], name, x);
      assert samples == samples[..|samples| - 1] + [samples[|samples| - 1]];
    }
  }

  // ---------------------------------------------------------------------------------------
  // Over the flat response
  // ---------------------------------------------------------------------------------------

  /** Position p holds the last sample of the device that is valid in the given sense. */
  ghost predicate IsLastValid(samples: seq<Sample>, name: string, p: nat, valid: Sample -> bool)
  {
    && p < |samples| && samples[p].device == name && valid(samples[p])
    && forall q :: p < q < |samples| && samples[q].device == name ==> !valid(samples[q])
  }

  ghost predicate NoneValid(samples: seq<Sample>, name: string, valid: Sample -> bool)
  {
    forall q :: 0 <= q < |samples| && samples[q].device == name ==> !valid(samples[q])
  }

  /** The reading of a device is that of its last valid sample in the order of the response. */
  lemma {:induction false} LastInResponse<T>(
    samples: seq<Sample>, name: string, reading: Sample -> Option<T>, valid: Sample -> bool, p: nat)
    requires forall x :: valid(x) <==> reading(x).Some?
    ensures IsLastValid(samples, name, p, valid) ==>
      LastReading(OfDevice(samples, name), reading, None) == reading(samples[p])
    ensures NoneValid(samples, name, valid) ==> LastReading(OfDevice(samples, name), reading, None).None?
  {
    if samples != [] {
      var last := |samples| - 1;
      var x, own := samples[last], OfDevice(samples[..last], name);
      LastInResponse(samples[..last], name, reading, valid, p);
      assert valid(x) <==> reading(x).Some?;
      if NoneValid(samples, name, valid) { assert NoneValid(samples[..last], name, valid); }
      if IsLastValid(samples, name, p, valid) && p < last { assert IsLastValid(samples[..last], name, p, valid); }
      if x.device == name {
        assert OfDevice(samples, name) == own + [x] && (own + [x])[..|own|] == own;
      } else {
        assert OfDevice(samples, name) == own;
      }
    }
  }

  /** A finite floating-point sample of a metric, within bounds, on a device that it applies to. */
  function FloatSample(id: int, applies: bool, low: Option<real>, high: Option<real>): Sample -> bool
  {
    (x: Sample) =>
      && applies && x.metricId == id && x.value.FloatValue? && x.value.f.Finite?
      && (low.Some? ==> low.value <= x.value.f.value) && (high.Some? ==> x.value.f.value <= high.value)
  }

  /** A non-negative integer sample of a metric, on a device that it applies to. */
  function CountSample(id: int, applies: bool): Sample -> bool
  {
    (x: Sample) => applies && x.metricId == id && x.value.IntValue? && x.value.i >= 0
  }

  /** The reading is the last valid sample divided by a unit, or nothing when none is valid. */
  ghost predicate IsLastFloat(
    samples: seq<Sample>, name: string, valid: Sample -> bool, unit: real, reading: Option<real>)
    requires unit > 0.0
  {
    && (NoneValid(samples, name, valid) ==> reading.None?)
    && forall p: nat :: IsLastValid(samples, name, p, valid) ==>
         samples[p].value.FloatValue? && samples[p].value.f.Finite? && reading == Some(samples[p].value.f.value / unit)
  }

  ghost predicate IsLastCount(samples: seq<Sample>, name: string, valid: Sample -> bool, reading: Option<int>)
  {
    && (NoneValid(samples, name, valid) ==> reading.None?)
    && forall p: nat :: IsLastValid(samples, name, p, valid) ==>
         samples[p].value.IntValue? && reading == Some(samples[p].value.i)
  }

  lemma FloatIsLast(
    samples: seq<Sample>, name: string, reading: Sample -> Option<real>, valid: Sample -> bool, unit: real)
    requires unit > 0.0
    requires forall x :: valid(x) <==> reading(x).Some?
    requires forall x :: valid(x) ==>
      x.value.FloatValue? && x.value.f.Finite? && reading(x) == Some(x.value.f.value / unit)
    ensures IsLastFloat(samples, name, valid, unit, LastReading(OfDevice(samples, name), reading, None))
  {
    LastInResponse(samples, name, reading, valid, 0);
    forall p: nat | IsLastValid(samples, name, p, valid)
      ensures samples[p].value.FloatValue? && samples[p].value.f.Finite?
      ensures LastReading(OfDevice(samples, name), reading, None) == Some(samples[p].value.f.value / unit)
    {
      LastInResponse(samples, name, reading, valid, p);
    }
  }

  lemma UsedIsLast(samples: seq<Sample>, name: string, compute: bool)
    ensures IsLastCount(
      samples, name, CountSample(300, compute), LastReading(OfDevice(samples, name), MemoryUsed(compute), None))
  {
    var valid := CountSample(300, compute);
    LastInResponse(samples, name, MemoryUsed(compute), valid, 0);
    forall p: nat | IsLastValid(samples, name, p, valid)
      ensures LastReading(OfDevice(samples, name), MemoryUsed(compute), None) == Some(samples[p].value.i)
    {
      LastInResponse(samples, name, MemoryUsed(compute), valid, p);
    }
  }

  lemma PStateIsLast(samples: seq<Sample>, name: string)
    ensures IsLastCount(samples, name, CountSample(500, true), LastReading(OfDevice(samples, name), PState(), None))
  {
    var valid := CountSample(500, true);
    LastInResponse(samples, name, PState(), valid, 0);
    forall p: nat | IsLastValid(samples, name, p, valid)
      ensures LastReading(OfDevice(samples, name), PState(), None) == Some(samples[p].value.i)
    {
      LastInResponse(samples, name, PState(), valid, p);
    }
  }

  /** All five readings of a device, from its samples in the order of the response. */
  lemma ReadingsAreLast(samples: seq<Sample>, name: string, isVF: bool, compute: bool)
    ensures var own := OfDevice(samples, name);
      && IsLastFloat(
           samples, name, FloatSample(100, !isVF, None, None), 1000.0, LastReading(own, Temperature(isVF), None))
      && IsLastFloat(
           samples, name, FloatSample(101, !isVF, Some(0.0), None), 1000000.0, LastReading(own, Power(isVF), None))
      && IsLastFloat(
           samples, name, FloatSample(200, compute, Some(0.0), Some(100000.0)), 1000.0,
           LastReading(own, Utilization(compute), None))
      && IsLastCount(samples, name, CountSample(300, compute), LastReading(own, MemoryUsed(compute), None))
      && IsLastCount(samples, name, CountSample(500, true), LastReading(own, PState(), None))
  {
    forall x | FloatSample(100, !isVF, None, None)(x) ensures Temperature(isVF)(x) == Some(x.value.f.value / 1000.0) {
    }
    FloatIsLast(samples, name, Temperature(isVF), FloatSample(100, !isVF, None, None), 1000.0);
    FloatIsLast(samples, name, Power(isVF), FloatSample(101, !isVF, Some(0.0), None), 1000000.0);
    FloatIsLast(samples, name, Utilization(compute), FloatSample(200, compute, Some(0.0), Some(100000.0)), 1000.0);
    UsedIsLast(samples, name, compute);
    PStateIsLast(samples, name);
  }
}
