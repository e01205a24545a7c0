/**
 Length-prefixed field framing (`crates/o7-a1-contracts/src/framing.rs`): each field is a
 little-endian `u64` byte count followed by the bytes.
 */
module Framing {
  import opened Base

  const TWO_32: nat := 0x1_0000_0000
  const TWO_64: nat := 0x1_0000_0000_0000_0000

  type u32 = x: nat | x < TWO_32
  type u64 = x: nat | x < TWO_64

  function Pow256(n: nat): nat { if n == 0 then 1 else 256 * Pow256(n - 1) }

  /** The low `n` bytes of `v`, least significant first. */
  function LittleEndian(v: nat, n: nat): (b: Bytes)
    ensures |b| == n
  {
    if n == 0 then [] else [v % 256] + LittleEndian(v / 256, n - 1)
  }

  lemma {:induction false} LittleEndianInjective(v: nat, w: nat, n: nat)
    requires v < Pow256(n) && w < Pow256(n) && LittleEndian(v, n) == LittleEndian(w, n)
    ensures v == w
    decreases n
  {
    if n > 0 {
      var a, b := LittleEndian(v, n), LittleEndian(w, n);
      assert a[0] == b[0] && a[1..] == LittleEndian(v / 256, n - 1) && b[1..] == LittleEndian(w / 256, n - 1);
      LittleEndianInjective(v / 256, w / 256, n - 1);
    }
  }

  /** The number a byte string denotes, least significant byte first. */
  function Denotes(b: Bytes): nat
    decreases |b|
  {
    if b == [] then 0 else b[0] + 256 * Denotes(b[1..])
  }

  /** Reading the bytes back, least significant first, gives the value. */
  lemma {:induction false} LittleEndianReads(v: nat, n: nat)
    requires v < Pow256(n)
    ensures Denotes(LittleEndian(v, n)) == v
    decreases n
  {
    if n > 0 {
      assert LittleEndian(v, n)[1..] == LittleEndian(v / 256, n - 1);
      LittleEndianReads(v / 256, n - 1);
    }
  }

  lemma WidthsFit()
    ensures Pow256(4) == TWO_32 && Pow256(8) == TWO_64
  {
    assert Pow256(1) == 256 && Pow256(2) == 0x1_0000 && Pow256(3) == 0x100_0000;
    assert Pow256(5) == 0x100_0000_0000 && Pow256(6) == 0x1_0000_0000_0000 && Pow256(7) == 0x100_0000_0000_0000;
  }

  function U32(v: u32): (b: Bytes)
    ensures |b| == 4 && Denotes(b) == v
  {
    WidthsFit();
    LittleEndianReads(v, 4);
    LittleEndian(v, 4)
  }

  function U64(v: u64): (b: Bytes)
    ensures |b| == 8 && Denotes(b) == v
  {
    WidthsFit();
    LittleEndianReads(v, 8);
    LittleEndian(v, 8)
  }

  function Framed(field: Bytes): (b: Bytes)
    ensures |b| == 8 + |field| && b[8..] == field
    ensures |field| < TWO_64 ==> Denotes(b[..8]) == |field|
  {
    WidthsFit();
    assert |field| < TWO_64 ==> Denotes(LittleEndian(|field|, 8)) == |field| by {
      if |field| < TWO_64 {
        LittleEndianReads(|field|, 8);
      }
    }
    assert (LittleEndian(|field|, 8) + field)[..8] == LittleEndian(|field|, 8);
    LittleEndian(|field|, 8) + field
  }

  /** Fields that fit in memory, so that their lengths are `u64` values. */
  ghost predicate InMemory(fields: seq<Bytes>) { forall i :: 0 <= i < |fields| ==> |fields[i]| < TWO_64 }

  /** The framed form of a whole list of fields. */
  function FrameAll(fields: seq<Bytes>): Bytes
    decreases |fields|
  {
    if fields == [] then [] else FrameAll(fields[..|fields| - 1]) + Framed(fields[|fields| - 1])
  }

  lemma {:induction false} FrameAllCons(field: Bytes, rest: seq<Bytes>)
    ensures FrameAll([field] + rest) == Framed(field) + FrameAll(rest)
    decreases |rest|
  {
    var all := [field] + rest;
    if rest == [] {
      assert all[..0] == [];
    } else {
      var n := |rest| - 1;
      assert all[..|all| - 1] == [field] + rest[..n];
      FrameAllCons(field, rest[..n]);
    }
  }

  /** A framed field can be read back off the front of any byte string. */
  lemma FramedIsPrefixFree(x: Bytes, y: Bytes, r: Bytes, t: Bytes)
    requires |x| < TWO_64 && |y| < TWO_64 && Framed(x) + r == Framed(y) + t
    ensures x == y && r == t
  {
    var l := Framed(x) + r;
    assert l[..8] == LittleEndian(|x|, 8) && l[..8] == LittleEndian(|y|, 8);
    WidthsFit();
    LittleEndianInjective(|x|, |y|, 8);
    assert x == l[8..8 + |x|] && y == l[8..8 + |y|];
    assert r == l[8 + |x|..] && t == l[8 + |y|..];
  }

  /** Framing is injective on lists of fields of any lengths: no two lists collide. */
  lemma {:induction false} FrameAllInjective(a: seq<Bytes>, b: seq<Bytes>)
    requires InMemory(a) && InMemory(b) && FrameAll(a) == FrameAll(b)
    ensures a == b
    decreases |a|
  {
    if a != [] && b != [] {
      assert a == [a[0]] + a[1..] && b == [b[0]] + b[1..];
      FrameAllCons(a[0], a[1..]);
      FrameAllCons(b[0], b[1..]);
      FramedIsPrefixFree(a[0], b[0], FrameAll(a[1..]), FrameAll(b[1..]));
      FrameAllInjective(a[1..], b[1..]);
    }
  }

  /** The buffer a digest is computed over, extended field by field. */
  class Preimage {
    var buf: Bytes
    ghost const domain: Bytes
    ghost var fields: seq<Bytes>

    ghost predicate Valid()
      reads this
    {
      buf == domain + FrameAll(fields)
    }

    constructor (domain: Bytes)
      ensures Valid() && this.domain == domain && fields == []
    {
      buf := domain;
      this.domain, fields := domain, [];
    }

    method Frame(bytes: Bytes)
      requires Valid()
      modifies this
      ensures Valid() && fields == old(fields) + [bytes]
    {
      buf := buf + LittleEndian(|bytes|, 8);
      buf := buf + bytes;
      ghost var before := fields;
      fields := fields + [bytes];
      assert fields[..|fields| - 1] == before;
    }

    method FrameOptional(bytes: Option<Bytes>)
      requires Valid()
      modifies this
      ensures Valid() && fields == old(fields) + [OrEmpty(bytes)]
    {
      Frame(OrEmpty(bytes));
    }

    method FrameU32(v: u32)
      requires Valid()
      modifies this
      ensures Valid() && fields == old(fields) + [U32(v)]
    {
      Frame(U32(v));
    }

    method FrameU64(v: u64)
      requires Valid()
      modifies this
      ensures Valid() && fields == old(fields) + [U64(v)]
    {
      Frame(U64(v));
    }
  }

  /** An absent field is framed as the empty one. */
  function OrEmpty(t: Option<Bytes>): Bytes { if t.Some? then t.value else [] }
}
