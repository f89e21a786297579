/**
 * The block and stream checksums. What they detect, and that the table is the one of the
 * polynomial, is in CrcDetects.
 */
module Crc {
  import opened Prelude

  type word = x: int | 0 <= x < 0x1_0000_0000

  function Xor(a: nat, b: nat): nat {
    if a == 0 && b == 0 then 0
    else 2 * Xor(a / 2, b / 2) + (if a % 2 != b % 2 then 1 else 0)
  }

  lemma {:induction false} XorFits(a: nat, b: nat, k: nat)
    requires a < Pow2(k) && b < Pow2(k)
    ensures Xor(a, b) < Pow2(k)
  {
    if k > 0 {
      XorFits(a / 2, b / 2, k - 1);
    }
  }

  lemma {:induction false} Pow2ThirtyTwo()
    ensures Pow2(32) == 0x1_0000_0000
  {
    assert Pow2(5) == 32 && Pow2(10) == 0x400 && Pow2(15) == 0x8000 && Pow2(20) == 0x10_0000;
    assert Pow2(25) == 0x200_0000 && Pow2(30) == 0x4000_0000;
  }

  function XorWord(a: word, b: word): word {
    Pow2ThirtyTwo();
    XorFits(a, b, 32);
    Xor(a, b)
  }

  /** The polynomial division of table entry i, k bits along. */
  function Divide(i: byte, k: nat): word
    decreases i, k
  {
    if k == 0 then i * 0x100_0000
    else
      var c := Divide(i, k - 1);
      if c >= 0x8000_0000 then XorWord(2 * c - 0x1_0000_0000, 0x04c1_1db7) else 2 * c
  }

  function TableEntry(i: byte): word { Divide(i, 8) }

  function Update(crc: word, c: byte): word {
    var i: byte := XorWord(crc / 0x100_0000, c) % 0x100;
    XorWord(crc * 0x100 % 0x1_0000_0000, TableEntry(i))
  }

  const INITIAL: word := 0xffff_ffff

  /** The running checksum after the bytes s. */
  function Fold(crc: word, s: seq<byte>): word {
    if s == [] then crc else Update(Fold(crc, s[..|s| - 1]), s[|s| - 1])
  }

  lemma {:induction false} FoldSnoc(crc: word, s: seq<byte>, c: byte)
    ensures Fold(crc, s + [c]) == Update(Fold(crc, s), c)
  {
    assert (s + [c])[..|s|] == s;
  }

  lemma {:induction false} FoldConcat(crc: word, s: seq<byte>, t: seq<byte>)
    ensures Fold(crc, s + t) == Fold(Fold(crc, s), t)
    decreases |t|
  {
    hide Update;
    if t == [] {
      assert s + t == s;
    } else {
      var t', c := t[..|t| - 1], t[|t| - 1];
      FoldConcat(crc, s, t');
      FoldSnoc(crc, s + t', c);
      assert s + t == s + t' + [c];
    }
  }

  function Finalise(crc: word): word { 0xffff_ffff - crc }

  function Checksum(s: seq<byte>): word { Finalise(Fold(INITIAL, s)) }

  /** The stream's checksum after one more block's. */
  function Combine(combined: word, block: word): word {
    XorWord(combined * 2 % 0x1_0000_0000 + combined / 0x8000_0000, block)
  }
}
