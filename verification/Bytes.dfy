/** Bytes, fixed-width integers in both byte orders, and the reader results shared by
    the capture reader (little endian) and the wire protocol (big endian). */
module Bytes {

  newtype byte = x: int | 0 <= x < 256

  /** What a read at a position of a byte string can give: a value and the next position,
      the end of the data in the middle of an item, or data no writer produces. */
  datatype Parsed<+T> = Got(value: T, next: nat) | Eof | Bad {
    predicate IsFailure() { !Got? }

    function PropagateFailure<U>(): Parsed<U>
      requires !Got?
    {
      if Eof? then Eof else Bad
    }

    function Extract(): (T, nat)
      requires Got?
    {
      (value, next)
    }
  }

  function Pow256(n: nat): (p: nat)
    ensures p > 0
  {
    if n == 0 then 1 else 256 * Pow256(n - 1)
  }

  /** Byte i of x, counting from the least significant. */
  function Digit(x: nat, i: nat): byte
    decreases i
  {
    if i == 0 then (x % 256) as byte else Digit(x / 256, i - 1)
  }

  /** The n low-order bytes of x, least significant first. */
  function LE(n: nat, x: nat): (s: seq<byte>)
    ensures |s| == n
  {
    seq(n, i requires 0 <= i < n => Digit(x, i))
  }

  function FromLE(s: seq<byte>): nat {
    if |s| == 0 then 0 else s[0] as nat + 256 * FromLE(s[1..])
  }

  /** The n low-order bytes of x, most significant first. */
  function BE(n: nat, x: nat): (s: seq<byte>)
    ensures |s| == n
  {
    seq(n, i requires 0 <= i < n => Digit(x, n - 1 - i))
  }

  function FromBE(s: seq<byte>): nat {
    if |s| == 0 then 0 else 256 * FromBE(s[..|s| - 1]) + s[|s| - 1] as nat
  }

  lemma {:induction false} LERoundTrip(n: nat, x: nat)
    requires x < Pow256(n)
    ensures FromLE(LE(n, x)) == x
  {
    if n > 0 {
      LERoundTrip(n - 1, x / 256);
      assert forall i :: 0 <= i < n - 1 ==> Digit(x, i + 1) == Digit(x / 256, i);
      assert LE(n, x)[1..] == LE(n - 1, x / 256);
    }
  }

  lemma BESplit(n: nat, x: nat)
    requires n > 0
    ensures BE(n, x) == BE(n - 1, x / 256) + [(x % 256) as byte]
  {
    forall i | 0 <= i < n - 1 ensures BE(n, x)[i] == BE(n - 1, x / 256)[i] {
      assert Digit(x, n - 1 - i) == Digit(x / 256, n - 2 - i);
    }
    assert Digit(x, 0) == (x % 256) as byte;
    assert BE(n, x)[..n - 1] == BE(n - 1, x / 256);
    assert BE(n, x) == BE(n, x)[..n - 1] + [BE(n, x)[n - 1]];
  }

  lemma {:induction false} BERoundTrip(n: nat, x: nat)
    requires x < Pow256(n)
    ensures FromBE(BE(n, x)) == x
  {
    if n > 0 {
      hide BE;
      BESplit(n, x);
      BERoundTrip(n - 1, x / 256);
      assert (BE(n - 1, x / 256) + [(x % 256) as byte])[..n - 1] == BE(n - 1, x / 256);
    }
  }

  lemma ShortBE(x: nat)
    requires x < 0x100
    ensures BE(2, x) == [0, x as byte]
    ensures BE(4, x) == [0, 0, 0, x as byte]
  {
    hide BE;
    assert x % 256 == x && x / 256 == 0;
    BESplit(1, 0);
    BESplit(2, 0);
    BESplit(3, 0);
    BESplit(2, x);
    BESplit(4, x);
    assert BE(0, 0) == [] by { assert |BE(0, 0)| == 0; }
    assert BE(1, 0) == [0];
    assert BE(2, 0) == [0, 0];
    assert BE(3, 0) == [0, 0, 0];
  }

  lemma {:induction false} FromBEBound(s: seq<byte>)
    ensures FromBE(s) < Pow256(|s|)
  {
    if |s| > 0 {
      FromBEBound(s[..|s| - 1]);
    }
  }

  lemma Widths()
    ensures Pow256(1) == 0x100
    ensures Pow256(2) == 0x1_0000
    ensures Pow256(4) == 0x1_0000_0000
    ensures Pow256(8) == 0x1_0000_0000_0000_0000
  {
    assert Pow256(3) == 0x100_0000;
    assert Pow256(5) == 0x100_0000_0000;
    assert Pow256(6) == 0x1_0000_0000_0000;
    assert Pow256(7) == 0x100_0000_0000_0000;
  }

  /** The bytes e stand in buf at position pos. */
  ghost predicate At(buf: seq<byte>, pos: nat, e: seq<byte>) {
    pos + |e| <= |buf| && buf[pos..pos + |e|] == e
  }

  lemma AtSplit(buf: seq<byte>, pos: nat, a: seq<byte>, b: seq<byte>)
    requires At(buf, pos, a + b)
    ensures At(buf, pos, a)
    ensures At(buf, pos + |a|, b)
  {
    var w := buf[pos..pos + |a + b|];
    assert buf[pos..pos + |a|] == w[..|a|] == a;
    assert buf[pos + |a|..pos + |a| + |b|] == w[|a|..] == b;
  }

  /** Reads n bytes as they stand. */
  function ReadRaw(buf: seq<byte>, pos: nat, n: nat): (r: Parsed<seq<byte>>) {
    if pos + n <= |buf| then Got(buf[pos..pos + n], pos + n) else Eof
  }

  /** Reads an n-byte little-endian integer. */
  function ReadLE(buf: seq<byte>, pos: nat, n: nat): (r: Parsed<nat>) {
    var (s, p) :- ReadRaw(buf, pos, n);
    Got(FromLE(s), p)
  }

  lemma ReadLEAt(buf: seq<byte>, pos: nat, n: nat, x: nat)
    requires x < Pow256(n)
    requires At(buf, pos, LE(n, x))
    ensures ReadLE(buf, pos, n) == Got(x, pos + n)
  {
    LERoundTrip(n, x);
  }

  lemma ReadRawAt(buf: seq<byte>, pos: nat, e: seq<byte>)
    requires At(buf, pos, e)
    ensures ReadRaw(buf, pos, |e|) == Got(e, pos + |e|)
  {
  }
}
