/** Little-endian fields and byte buffers. */
module Wire {
  import opened Bits

  type U8 = x: nat | x < 0x100
  type U16 = x: nat | x < 0x1_0000
  type U32 = x: nat | x < 0x1_0000_0000
  type U64 = x: nat | x < 0x1_0000_0000_0000_0000
  type I16 = x: int | -0x8000 <= x < 0x8000
  type I32 = x: int | -0x8000_0000 <= x < 0x8000_0000

  function Pow256(n: nat): (p: nat)
    ensures p >= 1
  {
    if n == 0 then 1 else 256 * Pow256(n - 1)
  }

  /** The n low bytes of v, least significant first. */
  function Le(v: nat, n: nat): (s: seq<U8>)
    ensures |s| == n
  {
    if n == 0 then [] else [v % 256] + Le(v / 256, n - 1)
  }

  function FromLe(s: seq<U8>): (v: nat)
    ensures v < Pow256(|s|)
  {
    if s == [] then 0 else s[0] + 256 * FromLe(s[1..])
  }

  lemma {:induction false} LeRoundTrip(v: nat, n: nat)
    requires v < Pow256(n)
    ensures FromLe(Le(v, n)) == v
  {
    if n > 0 {
      LeRoundTrip(v / 256, n - 1);
      assert Le(v, n)[1..] == Le(v / 256, n - 1);
    }
  }

  lemma Powers()
    ensures Pow256(1) == 0x100 && Pow256(2) == 0x1_0000 && Pow256(4) == 0x1_0000_0000
    ensures Pow256(8) == 0x1_0000_0000_0000_0000
  {
    assert Pow256(3) == 0x100_0000;
    assert Pow256(5) == 0x100_0000_0000;
    assert Pow256(6) == 0x1_0000_0000_0000;
  }

  // ---- fields at fixed offsets ----

  function GetU16(s: seq<U8>, at: nat): U16
    requires at + 2 <= |s|
  {
    Powers();
    FromLe(s[at..at + 2])
  }

  function GetU32(s: seq<U8>, at: nat): U32
    requires at + 4 <= |s|
  {
    Powers();
    FromLe(s[at..at + 4])
  }

  function GetU64(s: seq<U8>, at: nat): U64
    requires at + 8 <= |s|
  {
    GetU32(s, at) + 0x1_0000_0000 * GetU32(s, at + 4)
  }

  /** A 64-bit word is written as two 32-bit ones. */
  function U64Bytes(v: U64): (s: seq<U8>)
    ensures |s| == 8
  {
    Le(v % 0x1_0000_0000, 4) + Le(v / 0x1_0000_0000, 4)
  }

  lemma GetU16At(s: seq<U8>, at: nat, v: U16)
    requires at + 2 <= |s| && s[at..at + 2] == Le(v, 2)
    ensures GetU16(s, at) == v
  {
    Powers();
    LeRoundTrip(v, 2);
  }

  lemma GetU32At(s: seq<U8>, at: nat, v: U32)
    requires at + 4 <= |s| && s[at..at + 4] == Le(v, 4)
    ensures GetU32(s, at) == v
  {
    Powers();
    LeRoundTrip(v, 4);
  }

  lemma GetU64At(s: seq<U8>, at: nat, v: U64)
    requires at + 8 <= |s| && s[at..at + 8] == U64Bytes(v)
    ensures GetU64(s, at) == v
  {
    assert s[at..at + 4] == s[at..at + 8][..4];
    assert s[at + 4..at + 8] == s[at..at + 8][4..];
    GetU32At(s, at, v % 0x1_0000_0000);
    GetU32At(s, at + 4, v / 0x1_0000_0000);
  }

  /** Two's complement. */
  function FromI16(v: I16): U16 {
    if v < 0 then v + 0x1_0000 else v
  }

  function ToI16(u: U16): I16 {
    if u >= 0x8000 then u - 0x1_0000 else u
  }

  function FromI32(v: I32): U32 {
    if v < 0 then v + 0x1_0000_0000 else v
  }

  function ToI32(u: U32): I32 {
    if u >= 0x8000_0000 then u - 0x1_0000_0000 else u
  }

  // ---- runs of 32-bit words ----

  function Words(ws: seq<U32>): (s: seq<U8>)
    ensures |s| == 4 * |ws|
  {
    if ws == [] then [] else Words(ws[..|ws| - 1]) + Le(ws[|ws| - 1], 4)
  }

  function GetWords(s: seq<U8>, at: nat, n: nat): (ws: seq<U32>)
    requires at + 4 * n <= |s|
    ensures |ws| == n
  {
    if n == 0 then [] else GetWords(s, at, n - 1) + [GetU32(s, at + 4 * (n - 1))]
  }

  lemma SplitLast(s: seq<U8>, at: nat, m: nat, end: nat, first: seq<U8>, last: seq<U8>)
    requires at <= m <= end <= |s| && |first| == m - at && s[at..end] == first + last
    ensures s[at..m] == first && s[m..end] == last
  {
    assert s[at..m] == s[at..end][..m - at];
    assert s[m..end] == s[at..end][m - at..];
  }

  lemma {:induction false} GetWordsAt(s: seq<U8>, at: nat, n: nat, ws: seq<U32>)
    requires |ws| == n && at + 4 * n <= |s| && s[at..at + 4 * n] == Words(ws)
    ensures GetWords(s, at, n) == ws
  {
    hide Le, GetU32;
    if n > 0 {
      var m := at + 4 * (n - 1);
      SplitLast(s, at, m, m + 4, Words(ws[..n - 1]), Le(ws[n - 1], 4));
      GetWordsAt(s, at, n - 1, ws[..n - 1]);
      GetU32At(s, m, ws[n - 1]);
      assert ws == ws[..n - 1] + [ws[n - 1]];
    }
  }

  function Zeros(n: nat): (s: seq<U8>)
    ensures |s| == n
  {
    seq(n, _ => 0)
  }

  // ---- single bits of flag bytes ----

  predicate HasBit(flags: nat, k: nat) {
    Bit(flags, k) == 1
  }

  lemma {:induction false} HasBitFits(flags: nat, k: nat)
    requires HasBit(flags, k)
    ensures flags >= Pow2(k)
  {
    if k > 0 {
      HasBitFits(flags / 2, k - 1);
    }
  }

  function ClearBit(flags: nat, k: nat): (r: nat)
    ensures r <= flags
  {
    if HasBit(flags, k) then
      HasBitFits(flags, k);
      flags - Pow2(k)
    else flags
  }

  /** Clearing a bit leaves the other bits alone. */
  lemma {:induction false} ClearedBit(f: nat, k: nat, j: nat)
    ensures HasBit(ClearBit(f, k), j) == (HasBit(f, j) && j != k)
  {
    if HasBit(f, k) {
      HasBitFits(f, k);
      if k > 0 {
        HasBitFits(f / 2, k - 1);
        assert ClearBit(f, k) / 2 == ClearBit(f / 2, k - 1);
        if j > 0 {
          ClearedBit(f / 2, k - 1, j - 1);
        }
      } else if j > 0 {
        assert ClearBit(f, 0) / 2 == f / 2;
      }
    }
  }

  // ---- writing into a buffer the caller owns ----

  /** s with the bytes from `at` on replaced. */
  function Patch(s: seq<U8>, at: nat, bytes: seq<U8>): (r: seq<U8>)
    requires at + |bytes| <= |s|
    ensures |r| == |s|
  {
    s[..at] + bytes + s[at + |bytes|..]
  }

  lemma SliceSlice(s: seq<U8>, a: nat, b: nat, i: nat, j: nat)
    requires a <= b <= |s| && i <= j <= b - a
    ensures s[a..b][i..j] == s[a + i..a + j]
  {
    var t := s[a..b];
    assert forall k :: 0 <= k < |t| ==> t[k] == s[a + k];
    assert t[i..j] == s[a + i..a + j];
  }

  lemma PatchNothing(s: seq<U8>, at: nat)
    requires at <= |s|
    ensures Patch(s, at, []) == s
  {}

  lemma PatchOneMore(s: seq<U8>, at: nat, bytes: seq<U8>, i: nat)
    requires i < |bytes| && at + |bytes| <= |s|
    ensures Patch(s, at, bytes[..i])[at + i := bytes[i]] == Patch(s, at, bytes[..i + 1])
  {}

  method PutBytes(out: array<U8>, at: nat, bytes: seq<U8>)
    requires at + |bytes| <= out.Length
    modifies out
    ensures out[..] == Patch(old(out[..]), at, bytes)
  {
    hide Patch;
    PatchNothing(out[..], at);
    for i := 0 to |bytes|
      invariant out[..] == Patch(old(out[..]), at, bytes[..i])
    {
      PatchOneMore(old(out[..]), at, bytes, i);
      ghost var before := out[..];
      out[at + i] := bytes[i];
      assert out[..] == before[at + i := bytes[i]];
    }
    assert bytes[..|bytes|] == bytes;
  }

  method PutU16(out: array<U8>, at: nat, v: U16)
    requires at + 2 <= out.Length
    modifies out
    ensures out[..] == Patch(old(out[..]), at, Le(v, 2))
  {
    out[at] := v % 256;
    out[at + 1] := v / 256 % 256;
    assert Le(v, 2) == [v % 256, v / 256 % 256];
  }

  method PutU32(out: array<U8>, at: nat, v: U32)
    requires at + 4 <= out.Length
    modifies out
    ensures out[..] == Patch(old(out[..]), at, Le(v, 4))
  {
    out[at] := v % 256;
    out[at + 1] := v / 256 % 256;
    out[at + 2] := v / 256 / 256 % 256;
    out[at + 3] := v / 256 / 256 / 256 % 256;
    assert Le(v / 256 / 256, 2) == [v / 256 / 256 % 256, v / 256 / 256 / 256 % 256];
    assert Le(v, 4) == [v % 256, v / 256 % 256] + Le(v / 256 / 256, 2);
  }

  method PutU64(out: array<U8>, at: nat, v: U64)
    requires at + 8 <= out.Length
    modifies out
    ensures out[..] == Patch(old(out[..]), at, U64Bytes(v))
  {
    PutU32(out, at, v % 0x1_0000_0000);
    PutU32(out, at + 4, v / 0x1_0000_0000);
  }

  /** Two adjacent patches are one. */
  lemma PatchPatch(s: seq<U8>, at: nat, a: seq<U8>, b: seq<U8>)
    requires at + |a| + |b| <= |s|
    ensures Patch(Patch(s, at, a), at + |a|, b) == Patch(s, at, a + b)
  {}

  method PutWords(out: array<U8>, at: nat, ws: seq<U32>)
    requires at + 4 * |ws| <= out.Length
    modifies out
    ensures out[..] == Patch(old(out[..]), at, Words(ws))
  {
    hide Patch, Le;
    PatchNothing(out[..], at);
    for i := 0 to |ws|
      invariant out[..] == Patch(old(out[..]), at, Words(ws[..i]))
    {
      PutU32(out, at + 4 * i, ws[i]);
      assert ws[..i + 1][..i] == ws[..i];
      PatchPatch(old(out[..]), at, Words(ws[..i]), Le(ws[i], 4));
    }
    assert ws[..|ws|] == ws;
  }
}
