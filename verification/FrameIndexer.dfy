/** The 50 ms slot numbers that frames get from the start-of-frame times of the road camera. */
module FrameIndexer {

  const PERIOD_NS: nat := 50_000_000

  datatype Numbering = Numbering(haveBase: bool, base: nat, last: nat)

  const FRESH := Numbering(false, 0, 0)

  /** The nearest whole number of periods, halves rounded up, found without adding to delta. */
  function Rounded(delta: nat): nat {
    delta / PERIOD_NS + (if delta % PERIOD_NS >= PERIOD_NS / 2 then 1 else 0)
  }

  function SlotOf(base: nat, sof: nat): nat {
    Rounded(if sof >= base then sof - base else 0)
  }

  function Numbered(s: Numbering, sof: nat): (Numbering, nat) {
    if !s.haveBase then (Numbering(true, sof, 0), 0)
    else
      var idx := if SlotOf(s.base, sof) <= s.last then s.last + 1 else SlotOf(s.base, sof);
      (s.(last := idx), idx)
  }

  function After(sofs: seq<nat>): Numbering {
    if sofs == [] then FRESH else Numbered(After(sofs[..|sofs| - 1]), sofs[|sofs| - 1]).0
  }

  /** The number given to the k-th frame since the last reset. */
  function IndexAt(sofs: seq<nat>, k: nat): nat
    requires k < |sofs|
  {
    Numbered(After(sofs[..k]), sofs[k]).1
  }

  /** Where frame k would be if frame j were in its own slot and every later one in the next slot after it. */
  function Pushed(sofs: seq<nat>, j: nat, k: nat): int
    requires j < |sofs|
  {
    SlotOf(sofs[0], sofs[j]) + (k - j)
  }

  /** The rounded slot is the nearest one, and equals the sum-then-divide form. */
  lemma RoundedIsNearest(delta: nat)
    ensures Rounded(delta) == (delta + PERIOD_NS / 2) / PERIOD_NS
    ensures -(PERIOD_NS / 2) < Rounded(delta) * PERIOD_NS - delta <= PERIOD_NS / 2
  {}

  lemma RoundedGrows(a: nat, b: nat)
    requires a + PERIOD_NS <= b
    ensures Rounded(a) + 1 <= Rounded(b)
  {
    RoundedIsNearest(a);
    RoundedIsNearest(b);
  }

  lemma {:induction false} StateAfter(sofs: seq<nat>, k: nat)
    requires k < |sofs|
    ensures After(sofs[..k + 1]) == Numbering(true, sofs[0], IndexAt(sofs, k))
  {
    hide SlotOf;
    assert sofs[..k + 1][..k] == sofs[..k];
    if k > 0 {
      StateAfter(sofs, k - 1);
    }
  }

  lemma NextIndex(sofs: seq<nat>, k: nat)
    requires k < |sofs|
    ensures k == 0 ==> IndexAt(sofs, k) == 0 == SlotOf(sofs[0], sofs[0])
    ensures k > 0 ==> (
      var slot, least := SlotOf(sofs[0], sofs[k]), IndexAt(sofs, k - 1) + 1;
      IndexAt(sofs, k) == if slot < least then least else slot)
  {
    if k > 0 {
      StateAfter(sofs, k - 1);
    }
  }

  /** The k-th number is the maximum, over the frames up to k, of where each of them pushes frame k. */
  lemma {:induction false} IndexIsRunningMaximum(sofs: seq<nat>, k: nat)
    requires k < |sofs|
    ensures forall j :: 0 <= j <= k ==> Pushed(sofs, j, k) <= IndexAt(sofs, k)
    ensures exists j :: 0 <= j <= k && Pushed(sofs, j, k) == IndexAt(sofs, k)
  {
    hide SlotOf, IndexAt;
    NextIndex(sofs, k);
    assert Pushed(sofs, k, k) == SlotOf(sofs[0], sofs[k]);
    if k > 0 {
      IndexIsRunningMaximum(sofs, k - 1);
      var j :| 0 <= j <= k - 1 && Pushed(sofs, j, k - 1) == IndexAt(sofs, k - 1);
      assert Pushed(sofs, j, k) == IndexAt(sofs, k - 1) + 1;
      forall i | 0 <= i <= k
        ensures Pushed(sofs, i, k) <= IndexAt(sofs, k)
      {
        if i < k {
          assert Pushed(sofs, i, k) == Pushed(sofs, i, k - 1) + 1;
        }
      }
    }
  }

  /** Whatever the times are, the numbers strictly increase. */
  lemma {:induction false} IndicesIncrease(sofs: seq<nat>, i: nat, k: nat)
    requires i < k < |sofs|
    ensures IndexAt(sofs, i) < IndexAt(sofs, k)
  {
    hide SlotOf, IndexAt;
    NextIndex(sofs, k);
    if i < k - 1 {
      IndicesIncrease(sofs, i, k - 1);
    }
  }

  /** Frames at least one period apart all keep their own rounded slot. */
  lemma {:induction false} SpacedFramesKeepTheirSlot(sofs: seq<nat>, k: nat)
    requires k < |sofs|
    requires forall i :: 0 < i < |sofs| ==> sofs[i - 1] + PERIOD_NS <= sofs[i]
    ensures sofs[0] <= sofs[k] && IndexAt(sofs, k) == SlotOf(sofs[0], sofs[k])
  {
    hide Rounded, IndexAt;
    NextIndex(sofs, k);
    if k > 0 {
      SpacedFramesKeepTheirSlot(sofs, k - 1);
      assert sofs[k - 1] + PERIOD_NS <= sofs[k];
      RoundedGrows(sofs[k - 1] - sofs[0], sofs[k] - sofs[0]);
    }
  }

  class Indexer {
    var haveBase: bool
    var sofBase: nat
    var lastIdx: nat

    ghost function State(): Numbering
      reads this
    {
      Numbering(haveBase, sofBase, lastIdx)
    }

    constructor ()
      ensures State() == FRESH
    {
      haveBase, sofBase, lastIdx := false, 0, 0;
    }

    method Reset()
      modifies this
      ensures State() == FRESH
    {
      haveBase, sofBase, lastIdx := false, 0, 0;
    }

    method Index(sof: nat) returns (idx: nat)
      modifies this
      ensures (State(), idx) == Numbered(old(State()), sof)
    {
      if !haveBase {
        sofBase, haveBase, lastIdx := sof, true, 0;
        return 0;
      }
      var delta := if sof >= sofBase then sof - sofBase else 0;
      var next := delta / PERIOD_NS;
      if delta % PERIOD_NS >= PERIOD_NS / 2 {
        next := next + 1;
      }
      if next <= lastIdx {
        next := lastIdx + 1;
      }
      lastIdx := next;
      return lastIdx;
    }
  }
}
