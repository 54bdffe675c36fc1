/**
  An encoding that meets everything `Serial` assumes of one: little-endian
  two's complement for fixed-size scalars, and seven bits to a byte, the eighth
  saying whether more follow, for variable-length integers.
 */
module ReferenceCodec {
  import opened Options
  import opened Parse
  import opened Serial
  import opened Arith

  // 256 to the w.
  function Range(w: nat): (n: int)
    ensures n >= 1
  {
    if w == 0 then 1 else 256 * Range(w - 1)
  }

  function Fixed(n: nat, w: nat): (b: Bytes)
    ensures |b| == w
  {
    if w == 0 then [] else [(n % 256) as Byte] + Fixed(n / 256, w - 1)
  }

  function Unfixed(b: Bytes): nat {
    if b == [] then 0 else b[0] as int + 256 * Unfixed(b[1..])
  }

  lemma {:induction false} FixedRoundTrip(n: nat, w: nat)
    requires n < Range(w)
    ensures Unfixed(Fixed(n, w)) == n
  {
    if w > 0 {
      FixedRoundTrip(n / 256, w - 1);
      assert Fixed(n, w)[1..] == Fixed(n / 256, w - 1);
    }
  }

  lemma Ranges()
    ensures Range(4) == 0x1_0000_0000 && Range(8) == 0x1_0000_0000_0000_0000
  {
    assert Range(1) == 256;
    assert Range(2) == 256 * Range(1);
    assert Range(3) == 256 * Range(2);
    assert Range(5) == 256 * Range(4);
    assert Range(6) == 256 * Range(5);
    assert Range(7) == 256 * Range(6);
  }

  // Two's complement in w bytes, and back; other numbers are cut off.
  function Signed(n: int, w: nat): (b: Bytes)
    ensures |b| == w
  {
    Fixed(n % Range(w), w)
  }

  function Unsigned(b: Bytes, w: nat): int {
    var n := Unfixed(b);
    if 2 * n >= Range(w) then n - Range(w) else n
  }

  lemma SignedRoundTrip(n: int, w: nat)
    requires -Range(w) <= 2 * n < Range(w)
    ensures Unsigned(Signed(n, w), w) == n
  {
    var r := Range(w);
    FixedRoundTrip(n % r, w);
    if n >= 0 {
      ModSmall(n, r);
    } else {
      DivModUnique(n, r, -1, n + r);
    }
  }

  // ---- Variable-length integers ---------------------------------------------

  function Leb(n: nat): (b: Bytes)
    ensures b != []
  {
    if n < 128 then [n as Byte] else [(n % 128 + 128) as Byte] + Leb(n / 128)
  }

  function Unleb(b: Bytes): (r: Option<Decoded>)
    ensures r.Some? ==> 1 <= r.value.length <= |b|
  {
    if b == [] then None
    else if b[0] < 128 then Some(Decoded(b[0] as int, 1))
    else
      var rest := Unleb(b[1..]);
      if rest.None? then None
      else Some(Decoded(b[0] as int - 128 + 128 * rest.value.value, 1 + rest.value.length))
  }

  lemma {:induction false} LebRoundTrip(n: nat, rest: Bytes)
    ensures Unleb(Leb(n) + rest) == Some(Decoded(n, |Leb(n)|))
  {
    if n >= 128 {
      LebRoundTrip(n / 128, rest);
      assert (Leb(n) + rest)[1..] == Leb(n / 128) + rest;
    }
  }

  // 128 to the w.
  function LebRange(w: nat): nat {
    if w == 0 then 1 else 128 * LebRange(w - 1)
  }

  lemma {:induction false} LebLength(n: nat, w: nat)
    requires w >= 1 && n < LebRange(w)
    ensures |Leb(n)| <= w
  {
    if n >= 128 {
      assert w > 1 by {
        assert LebRange(1) == 128 * LebRange(0);
      }
      LebLength(n / 128, w - 1);
    }
  }

  lemma LebRanges()
    ensures LebRange(10) > SIZE_MAX
  {
    assert LebRange(1) == 128;
    assert LebRange(2) == 128 * LebRange(1);
    assert LebRange(3) == 128 * LebRange(2);
    assert LebRange(4) == 128 * LebRange(3);
    assert LebRange(5) == 128 * LebRange(4);
    assert LebRange(6) == 128 * LebRange(5);
    assert LebRange(7) == 128 * LebRange(6);
    assert LebRange(8) == 128 * LebRange(7);
    assert LebRange(9) == 128 * LebRange(8);
  }

  // ---- The codec ------------------------------------------------------------------

  function Vint(n: int): Bytes {
    if 0 <= n <= SIZE_MAX then Leb(n) else [0]
  }

  function Word(n: int): Bytes {
    Signed(n, 8)
  }

  function Unword(b: Bytes): int {
    Unsigned(b, 8)
  }

  function Unoffset(b: Bytes): int {
    Unfixed(b)
  }

  function Cell(t: Triple): Bytes {
    Signed(t.id, 8) + Signed(t.read, 4) + Signed(t.write, 4)
  }

  function Uncell(b: Bytes): Triple {
    if |b| != CELL then Triple(0, 0, 0)
    else Triple(Unsigned(b[..8], 8), Unsigned(b[8..12], 4), Unsigned(b[12..], 4))
  }

  const CODEC := Codec(10, Vint, Unleb, Vint, Unleb, Word, Unword, Word, Unoffset, Cell, Uncell, Word, Unword)

  lemma CellRoundTrip(t: Triple)
    requires CellOk(t)
    ensures Uncell(Cell(t)) == t
  {
    hide Signed, Unsigned;
    Ranges();
    var a, b, c := Signed(t.id, 8), Signed(t.read, 4), Signed(t.write, 4);
    assert Cell(t)[..8] == a && Cell(t)[8..12] == b && Cell(t)[12..] == c;
    SignedRoundTrip(t.id, 8);
    SignedRoundTrip(t.read, 4);
    SignedRoundTrip(t.write, 4);
  }

  lemma VintsRoundTrip()
    ensures VintOk(CODEC)
  {
    forall n: int
      ensures 1 <= |Vint(n)| <= 10
    {
      if 0 <= n <= SIZE_MAX {
        LebRanges();
        LebLength(n, 10);
      }
    }
    forall n: int, rest: Bytes | 0 <= n <= SIZE_MAX
      ensures Unleb(Vint(n) + rest) == Some(Decoded(n, |Vint(n)|))
    {
      LebRoundTrip(n, rest);
    }
  }

  lemma OffsetRoundTrip(n: int)
    requires 0 <= n <= SIZE_MAX
    ensures Unoffset(Word(n)) == n
  {
    Ranges();
    ModSmall(n, Range(8));
    FixedRoundTrip(n, 8);
  }

  lemma ScalarsRoundTrip()
    ensures ScalarsOk(CODEC)
  {
    hide Signed, Unsigned, Unfixed, Cell, Uncell;
    forall n: int
      ensures |CODEC.word(n)| == WORD && |CODEC.offset(n)| == WORD && |CODEC.header(n)| == HEADER
    {
      assert |Word(n)| == 8;
    }
    forall t: Triple
      ensures |CODEC.cell(t)| == CELL
    {
      CellLength(t);
    }
    forall n: int | INT64_MIN <= n <= INT64_MAX
      ensures CODEC.unword(CODEC.word(n)) == n && CODEC.unheader(CODEC.header(n)) == n
    {
      Ranges();
      SignedRoundTrip(n, 8);
    }
    forall n: int | 0 <= n <= SIZE_MAX
      ensures CODEC.unoffset(CODEC.offset(n)) == n
    {
      OffsetRoundTrip(n);
    }
    forall t: Triple | CellOk(t)
      ensures CODEC.uncell(CODEC.cell(t)) == t
    {
      CellRoundTrip(t);
    }
  }

  lemma CellLength(t: Triple)
    ensures |Cell(t)| == CELL
  {
  }

  /** The assumptions on which the round trips rest can be met. */
  lemma CodecIsLawful()
    ensures Lawful(CODEC)
  {
    hide VintOk, ScalarsOk;
    VintsRoundTrip();
    ScalarsRoundTrip();
  }

  /** With this codec no assumption about the encoding is left in the round trip. */
  lemma ReferenceRoundTrip(sts: Structs, v: Val, read: int, write: int)
    requires WellTyped(sts, v) && Fits(CODEC, v)
    ensures Unpack(CODEC, sts, TypeOf(v), Pack(CODEC, v), read, write) == Some(Recount(v, read, write))
  {
    hide *;
    CodecIsLawful();
    RoundTrip(CODEC, sts, v, read, write);
  }
}
