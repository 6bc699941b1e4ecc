// Bytes, machine words and in-place copies, as the C and C++ sources use them.
module Bytes {

  type byte = x: int | 0 <= x < 256
  type u32 = x: int | 0 <= x < 0x1_0000_0000

  // FRAGMENT_SIZE of the slicer: one fragment is one kibibyte.
  const FRAGMENT: nat := 1024

  // Storing a size_t in a uint32_t field keeps the low 32 bits.
  function U32(x: nat): u32 {
    x % 0x1_0000_0000
  }

  // Adding to, or subtracting from, a size_t wraps around at 2^64.
  function U64(x: int): nat {
    x % 0x1_0000_0000_0000_0000
  }

  // memcpy(s + at, d, |d|)
  function Splice(s: seq<byte>, at: nat, d: seq<byte>): (r: seq<byte>)
    requires at + |d| <= |s|
    ensures |r| == |s|
    ensures r[at..at + |d|] == d
    ensures forall j :: 0 <= j < |s| && !(at <= j < at + |d|) ==> r[j] == s[j]
  {
    s[..at] + d + s[at + |d|..]
  }

  // memcpy(buf + at, data, |data|) in place.
  method Copy(buf: array<byte>, at: nat, data: seq<byte>)
    requires at + |data| <= buf.Length
    modifies buf
    ensures buf[..] == Splice(old(buf[..]), at, data)
  {
    forall j | 0 <= j < |data| {
      buf[at + j] := data[j];
    }
  }

  // The fragment of s that starts at byte `at`.
  function BlockAt(s: seq<byte>, at: nat): (r: seq<byte>)
    requires at + FRAGMENT <= |s|
    ensures |r| == FRAGMENT
  {
    s[at..at + FRAGMENT]
  }

  // Overwriting some bytes replaces the fragments inside them and leaves the disjoint ones alone.
  lemma SpliceBlocks(s: seq<byte>, at: nat, d: seq<byte>, b: nat)
    requires at + |d| <= |s| && b + FRAGMENT <= |s|
    ensures at <= b && b + FRAGMENT <= at + |d| ==> BlockAt(Splice(s, at, d), b) == BlockAt(d, b - at)
    ensures b + FRAGMENT <= at || at + |d| <= b ==> BlockAt(Splice(s, at, d), b) == BlockAt(s, b)
  {
    var r := Splice(s, at, d);
    if at <= b && b + FRAGMENT <= at + |d| {
      assert forall j :: 0 <= j < |d| ==> r[at + j] == r[at..at + |d|][j] == d[j];
      assert forall j :: 0 <= j < FRAGMENT ==> BlockAt(r, b)[j] == r[at + (b - at + j)];
    }
  }

  lemma BlockOfSlice(s: seq<byte>, from: nat, len: nat, at: nat)
    requires from + len <= |s| && at + FRAGMENT <= len
    ensures BlockAt(s[from..from + len], at) == BlockAt(s, from + at)
  {
    var cut := s[from..from + len];
    forall j | 0 <= j < FRAGMENT ensures BlockAt(cut, at)[j] == BlockAt(s, from + at)[j] {
      assert BlockAt(cut, at)[j] == cut[at + j];
    }
  }

  // Two buffers of whole fragments that agree fragment by fragment are equal.
  lemma {:induction false} BlocksDetermine(s: seq<byte>, t: seq<byte>)
    requires |s| == |t| && |s| % FRAGMENT == 0
    requires forall k: nat :: k < |s| / FRAGMENT ==>
                                k * FRAGMENT + FRAGMENT <= |s| && BlockAt(s, k * FRAGMENT) == BlockAt(t, k * FRAGMENT)
    ensures s == t
  {
    forall j | 0 <= j < |s| ensures s[j] == t[j] {
      var k := j / FRAGMENT;
      assert BlockAt(s, k * FRAGMENT)[j % FRAGMENT] == BlockAt(t, k * FRAGMENT)[j % FRAGMENT];
    }
  }
}
