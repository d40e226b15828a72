module Braille {

  /** The raised-dot pattern of one braille cell. Entries 0..2 are dots 1-3 (left column,
      top to bottom) and entries 3..5 are dots 4-6 (right column, top to bottom). */
  type Dots = seq<bool>

  /** One cell as the transliteration component produces it: its dot pattern and the
      character it is read as. */
  datatype Cell = Cell(dots: Dots, ch: string)

  /** The code point of U+2800 BRAILLE PATTERN BLANK, the base of the Braille Patterns block. */
  const PatternBase: int := 0x2800

  function Flag(on: bool, weight: int): int
  {
    if on then weight else 0
  }

  /** The Unicode braille glyph of a cell: U+2800 plus 0x01, 0x02, 0x04, 0x08, 0x10, 0x20 for
      each raised dot 1 to 6. Only the first six entries are looked at. */
  function DotsToUnicode(dots: Dots): (c: char)
    requires |dots| >= 6
    ensures 0x2800 <= c as int <= 0x283F
  {
    (PatternBase + Flag(dots[0], 0x01) + Flag(dots[1], 0x02) + Flag(dots[2], 0x04)
                 + Flag(dots[3], 0x08) + Flag(dots[4], 0x10) + Flag(dots[5], 0x20)) as char
  }

  /** Bit `i` of `k`, read by halving `k` `i` times. */
  function Bit(k: nat, i: nat): bool
  {
    if i == 0 then k % 2 == 1 else Bit(k / 2, i - 1)
  }

  /** Reads the six dots back out of a six-dot glyph of the Braille Patterns block. */
  function UnicodeToDots(c: char): (dots: Dots)
    requires 0x2800 <= c as int <= 0x283F
    ensures |dots| == 6
  {
    var k := c as int - PatternBase;
    [Bit(k, 0), Bit(k, 1), Bit(k, 2), Bit(k, 3), Bit(k, 4), Bit(k, 5)]
  }

  /** Halving a number whose lowest bit is the flag `b` drops exactly that flag. */
  lemma Halve(b: bool, r: nat)
    ensures (Flag(b, 1) + 2 * r) % 2 == Flag(b, 1)
    ensures (Flag(b, 1) + 2 * r) / 2 == r
  {
  }

  /** The number whose bit `i` is entry `i` of `ds`. */
  function Pack(ds: seq<bool>): nat
  {
    if ds == [] then 0 else Flag(ds[0], 1) + 2 * Pack(ds[1..])
  }

  /** Bit `i` of the packed number is entry `i`. */
  lemma {:induction false} PackBit(ds: seq<bool>, i: nat)
    requires i < |ds|
    ensures Bit(Pack(ds), i) == ds[i]
    decreases i
  {
    Halve(ds[0], Pack(ds[1..]));
    if i > 0 {
      PackBit(ds[1..], i - 1);
    }
  }

  /** The glyph's offset in the block packs the six dots, dot 1 lowest. */
  lemma PackSix(dots: Dots)
    requires |dots| == 6
    ensures DotsToUnicode(dots) as int - PatternBase == Pack(dots)
  {
    assert dots[5..][1..] == [];
    assert dots[4..][1..] == dots[5..];
    assert dots[3..][1..] == dots[4..];
    assert dots[2..][1..] == dots[3..];
    assert dots[1..][1..] == dots[2..];
    assert Pack(dots[5..]) == Flag(dots[5], 1);
    assert Pack(dots[4..]) == Flag(dots[4], 1) + 2 * Pack(dots[5..]);
    assert Pack(dots[3..]) == Flag(dots[3], 1) + 2 * Pack(dots[4..]);
    assert Pack(dots[2..]) == Flag(dots[2], 1) + 2 * Pack(dots[3..]);
    assert Pack(dots[1..]) == Flag(dots[1], 1) + 2 * Pack(dots[2..]);
  }

  /** Decoding a glyph gives back exactly the six dots that were encoded. */
  lemma {:induction false} UnicodeRoundTrip(dots: Dots)
    requires |dots| == 6
    ensures UnicodeToDots(DotsToUnicode(dots)) == dots
  {
    PackSix(dots);
    PackBit(dots, 0);
    PackBit(dots, 1);
    PackBit(dots, 2);
    PackBit(dots, 3);
    PackBit(dots, 4);
    PackBit(dots, 5);
  }

  /** Two six-dot cells have the same glyph exactly when they have the same dots. */
  lemma UnicodeInjective(a: Dots, b: Dots)
    requires |a| == 6 && |b| == 6
    ensures DotsToUnicode(a) == DotsToUnicode(b) <==> a == b
  {
    UnicodeRoundTrip(a);
    UnicodeRoundTrip(b);
  }
}
