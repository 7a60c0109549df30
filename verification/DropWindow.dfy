/** The ring of the last 32 reported frame indices that the sender and the scheduler both keep. */
module DropWindow {

  const WINDOW := 32

  datatype Ring = Ring(slots: seq<nat>, n: nat, pos: nat) {
    predicate Valid() {
      |slots| == WINDOW && n <= WINDOW && pos < WINDOW
    }

    predicate Contains(x: nat)
      requires Valid()
    {
      x in slots[..n]
    }

    function Note(x: nat): (r: Ring)
      requires Valid()
      ensures r.Valid()
    {
      Ring(slots[pos := x], if n < WINDOW then n + 1 else n, (pos + 1) % WINDOW)
    }

    /** The counters reset by a new connection; the slots keep stale values. */
    function Cleared(): (r: Ring)
      requires Valid()
      ensures r.Valid()
    {
      this.(n := 0, pos := 0)
    }

    /** The ring represents this history of notes since it was last cleared. */
    ghost predicate Represents(history: seq<nat>) {
      && Valid()
      && n == (if |history| < WINDOW then |history| else WINDOW)
      && pos == |history| % WINDOW
      && forall i :: |history| - n <= i < |history| ==> slots[i % WINDOW] == history[i]
    }
  }

  const EMPTY := Ring([0, 0, 0, 0, 0, 0, 0, 0, 0, 0, 0, 0, 0, 0, 0, 0, 0, 0, 0, 0, 0, 0, 0, 0, 0, 0, 0, 0, 0, 0, 0, 0],
                      0, 0)

  lemma ClearedRepresentsNothing(r: Ring)
    requires r.Valid()
    ensures r.Cleared().Represents([])
  {}

  lemma NoteExtendsHistory(r: Ring, history: seq<nat>, x: nat)
    requires r.Represents(history)
    ensures r.Note(x).Represents(history + [x])
  {
    var after, more := r.Note(x), history + [x];
    forall i | |more| - after.n <= i < |more|
      ensures after.slots[i % WINDOW] == more[i]
    {
      if i < |history| {
        assert i % WINDOW != |history| % WINDOW by {
          DistinctSlots(i, |history|);
        }
      }
    }
  }

  lemma DistinctSlots(i: nat, j: nat)
    requires i < j < i + WINDOW
    ensures i % WINDOW != j % WINDOW
  {}

  /** Membership in the ring is membership in the last 32 notes. */
  lemma ContainsRecent(r: Ring, history: seq<nat>, x: nat)
    requires r.Represents(history)
    ensures r.Contains(x) <==> x in history[|history| - r.n..]
  {
    var n := r.n;
    if x in history[|history| - n..] {
      var k :| 0 <= k < n && history[|history| - n..][k] == x;
      var i := |history| - n + k;
      assert history[i] == x;
      assert r.slots[i % WINDOW] == x;
      assert i % WINDOW < n;
      assert r.slots[..n][i % WINDOW] == x;
    }
    if r.Contains(x) {
      var k :| 0 <= k < n && r.slots[..n][k] == x;
      var i := Recall(|history|, n, k);
      assert r.slots[i % WINDOW] == x;
      assert history[|history| - n..][i - (|history| - n)] == x;
    }
  }

  /** The latest note that went to slot k. */
  lemma Recall(len: nat, n: nat, k: nat) returns (i: nat)
    requires k < n == if len < WINDOW then len else WINDOW
    ensures len - n <= i < len && i % WINDOW == k
  {
    hide Ring.Represents;
    if len < WINDOW {
      i := k;
    } else {
      var q := len / WINDOW;
      assert len == WINDOW * q + len % WINDOW;
      var round := if k < len % WINDOW then q else q - 1;
      i := WINDOW * round + k;
      SlotInRound(round, k);
    }
  }

  lemma SlotInRound(q: nat, k: nat)
    requires k < WINDOW
    ensures (WINDOW * q + k) % WINDOW == k
  {}
}
