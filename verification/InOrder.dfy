/** A loop that keeps some positions of its input and appends one result for each. */
module InOrder {

  /** `out` holds, in order, one result for each of the first k positions that is not skipped. */
  ghost predicate Results<T>(k: nat, skipped: nat -> bool, isResult: (nat, T) -> bool, out: seq<T>)
  {
    if k == 0 then out == []
    else if skipped(k - 1) then Results(k - 1, skipped, isResult, out)
    else out != [] && Results(k - 1, skipped, isResult, out[..|out| - 1]) && isResult(k - 1, out[|out| - 1])
  }

  lemma ResultsGrow<T>(k: nat, skipped: nat -> bool, isResult: (nat, T) -> bool, out: seq<T>, d: T)
    requires Results(k, skipped, isResult, out)
    requires !skipped(k) && isResult(k, d)
    ensures Results(k + 1, skipped, isResult, out + [d])
  {
    assert (out + [d])[..|out|] == out;
  }

  lemma {:induction false} PositionOf<T>(k: nat, skipped: nat -> bool, isResult: (nat, T) -> bool, out: seq<T>, d: T)
    returns (i: nat)
    requires Results(k, skipped, isResult, out) && d in out
    ensures i < k && !skipped(i) && isResult(i, d)
  {
    if skipped(k - 1) {
      i := PositionOf(k - 1, skipped, isResult, out, d);
    } else if d == out[|out| - 1] {
      i := k - 1;
    } else {
      assert out == out[..|out| - 1] + [out[|out| - 1]];
      i := PositionOf(k - 1, skipped, isResult, out[..|out| - 1], d);
    }
  }

  lemma {:induction false} ResultAt<T>(k: nat, skipped: nat -> bool, isResult: (nat, T) -> bool, out: seq<T>, i: nat)
    returns (d: T)
    requires Results(k, skipped, isResult, out) && i < k && !skipped(i)
    ensures d in out && isResult(i, d)
  {
    if skipped(k - 1) {
      d := ResultAt(k - 1, skipped, isResult, out, i);
    } else if i == k - 1 {
      d := out[|out| - 1];
    } else {
      d := ResultAt(k - 1, skipped, isResult, out[..|out| - 1], i);
    }
  }

  /** The positions kept are all that are not skipped, each once and in their order, and result p is
      that of the p-th of them. */
  lemma {:induction false} PositionsKept<T>(
    k: nat, skipped: nat -> bool, isResult: (nat, T) -> bool, out: seq<T>) returns (kept: seq<nat>)
    requires Results(k, skipped, isResult, out)
    ensures |kept| == |out| && forall p :: 0 <= p < |kept| ==> kept[p] < k && isResult(kept[p], out[p])
    ensures forall p, q :: 0 <= p < q < |kept| ==> kept[p] < kept[q]
    ensures forall i: nat :: i in kept <==> i < k && !skipped(i)
  {
    if k == 0 {
      kept := [];
    } else if skipped(k - 1) {
      kept := PositionsKept(k - 1, skipped, isResult, out);
    } else {
      kept := PositionsKept(k - 1, skipped, isResult, out[..|out| - 1]);
      kept := kept + [k - 1];
    }
  }

  /** If every position has at most one result, there is one list of results. */
  lemma {:induction false} ResultsOnce<T(!new)>(
    k: nat, skipped: nat -> bool, isResult: (nat, T) -> bool, out: seq<T>, out': seq<T>)
    requires forall i, d, d' :: isResult(i, d) && isResult(i, d') ==> d == d'
    requires Results(k, skipped, isResult, out) && Results(k, skipped, isResult, out')
    ensures out == out'
  {
    if k > 0 {
      if skipped(k - 1) {
        ResultsOnce(k - 1, skipped, isResult, out, out');
      } else {
        ResultsOnce(k - 1, skipped, isResult, out[..|out| - 1], out'[..|out'| - 1]);
        assert out == out[..|out| - 1] + [out[|out| - 1]] && out' == out'[..|out'| - 1] + [out'[|out'| - 1]];
      }
    }
  }
}
