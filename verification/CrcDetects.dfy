/**
 * That the checksum is one: a byte steps its state by a permutation, and so two strings that
 * differ in a single byte never have the same checksum, nor two streams the same combined one
 * that differ in a single block's.
 */
module CrcDetects {
  import opened Prelude
  import opened Bits
  import opened BitWriter
  import opened Crc

  const POLYNOMIAL: word := 0x04c1_1db7

  // ----- exclusive or

  lemma {:induction false} XorZero(a: nat)
    ensures Xor(0, a) == a && Xor(a, 0) == a && Xor(a, a) == 0
  {
    if a > 0 {
      XorZero(a / 2);
    }
  }

  lemma {:induction false} XorCommutes(a: nat, b: nat)
    ensures Xor(a, b) == Xor(b, a)
  {
    if a > 0 || b > 0 {
      XorCommutes(a / 2, b / 2);
    }
  }

  lemma {:induction false} XorParts(a: nat, b: nat)
    ensures Xor(a, b) / 2 == Xor(a / 2, b / 2) && Xor(a, b) % 2 == if a % 2 != b % 2 then 1 else 0
  {
  }

  lemma {:induction false} SameParts(x: nat, y: nat)
    requires x / 2 == y / 2 && x % 2 == y % 2
    ensures x == y
  {
  }

  lemma {:induction false} XorAssociates(a: nat, b: nat, c: nat)
    ensures Xor(Xor(a, b), c) == Xor(a, Xor(b, c))
    decreases a + b + c
  {
    hide Xor;
    if a == 0 {
      XorZero(b);
      XorZero(Xor(b, c));
    } else {
      XorAssociates(a / 2, b / 2, c / 2);
      XorParts(a, b);
      XorParts(b, c);
      XorParts(Xor(a, b), c);
      XorParts(a, Xor(b, c));
      SameParts(Xor(Xor(a, b), c), Xor(a, Xor(b, c)));
    }
  }

  /** Taking the same word out again. */
  lemma {:induction false} XorCancels(a: nat, b: nat)
    ensures Xor(a, Xor(a, b)) == b
  {
    XorAssociates(a, a, b);
    XorZero(a);
    XorZero(b);
  }

  /** High and low parts keep apart. */
  lemma {:induction false} XorSplits(h: nat, l: nat, h': nat, l': nat, k: nat)
    requires l < Pow2(k) && l' < Pow2(k)
    ensures Xor(Shl(h, k) + l, Shl(h', k) + l') == Shl(Xor(h, h'), k) + Xor(l, l')
  {
    hide Xor;
    if k == 0 {
      XorZero(0);
    } else {
      XorSplits(h, l / 2, h', l' / 2, k - 1);
      var a, b := Shl(h, k) + l, Shl(h', k) + l';
      XorParts(a, b);
      XorParts(l, l');
      assert a / 2 == Shl(h, k - 1) + l / 2 && b / 2 == Shl(h', k - 1) + l' / 2;
      assert a % 2 == l % 2 && b % 2 == l' % 2;
      SameParts(Xor(a, b), Shl(Xor(h, h'), k) + Xor(l, l'));
    }
  }

  // ----- one bit

  /** Multiplication by x, modulo the polynomial. */
  function Step(c: word): word {
    if c >= 0x8000_0000 then XorWord(2 * c - 0x1_0000_0000, POLYNOMIAL) else 2 * c
  }

  function Steps(c: word, k: nat): word { if k == 0 then c else Step(Steps(c, k - 1)) }

  lemma {:induction false} DivideSteps(i: byte, k: nat)
    ensures Divide(i, k) == Steps(i * 0x100_0000, k)
  {
    hide XorWord;
    if k > 0 {
      DivideSteps(i, k - 1);
    }
  }

  /** Two words are equal if their steps are: the polynomial is odd. */
  lemma {:induction false} StepInjective(a: word, b: word)
    requires Step(a) == Step(b)
    ensures a == b
  {
    hide Xor;
    var x, y := if a >= 0x8000_0000 then 2 * a - 0x1_0000_0000 else 2 * a,
      if b >= 0x8000_0000 then 2 * b - 0x1_0000_0000 else 2 * b;
    XorParts(x, POLYNOMIAL);
    XorParts(y, POLYNOMIAL);
    XorCommutes(x, POLYNOMIAL);
    XorCommutes(y, POLYNOMIAL);
    XorCancels(POLYNOMIAL, x);
    XorCancels(POLYNOMIAL, y);
  }

  lemma {:induction false} StepsInjective(a: word, b: word, k: nat)
    requires Steps(a, k) == Steps(b, k)
    ensures a == b
  {
    hide Step;
    if k > 0 {
      StepInjective(Steps(a, k - 1), Steps(b, k - 1));
      StepsInjective(a, b, k - 1);
    }
  }

  lemma {:induction false} XorDoubles(a: nat, b: nat)
    ensures Xor(2 * a, 2 * b) == 2 * Xor(a, b)
  {
    hide Xor;
    XorParts(2 * a, 2 * b);
  }

  /** The high bit and the others. */
  function High(c: word): nat { if c >= 0x8000_0000 then 1 else 0 }

  function Low(c: word): nat { if c >= 0x8000_0000 then c - 0x8000_0000 else c }

  lemma {:induction false} XorHalves(a: word, b: word)
    ensures Low(XorWord(a, b)) == Xor(Low(a), Low(b))
    ensures High(XorWord(a, b)) == if High(a) != High(b) then 1 else 0
  {
    hide Xor;
    Pow2ThirtyTwo();
    assert Pow2(31) == 0x8000_0000;
    ShlOne(31);
    ShlZero(31);
    XorFits(Low(a), Low(b), 31);
    XorSplits(High(a), Low(a), High(b), Low(b), 31);
    XorZero(0);
    XorZero(1);
  }

  /** What a step adds for the high bit. */
  function Feedback(h: nat): nat { if h == 1 then POLYNOMIAL else 0 }

  lemma {:induction false} StepIs(c: word)
    ensures Step(c) == Xor(2 * Low(c), Feedback(High(c)))
  {
    hide Xor;
    XorZero(2 * Low(c));
  }

  lemma {:induction false} XorFour(a: nat, p: nat, b: nat, q: nat)
    ensures Xor(Xor(a, p), Xor(b, q)) == Xor(Xor(a, b), Xor(p, q))
  {
    hide Xor;
    XorAssociates(a, p, Xor(b, q));
    XorAssociates(p, b, q);
    XorCommutes(p, b);
    XorAssociates(b, p, q);
    XorAssociates(a, b, Xor(p, q));
  }

  lemma {:induction false} StepLinear(a: word, b: word)
    ensures Step(XorWord(a, b)) == XorWord(Step(a), Step(b))
  {
    hide Xor, Step, High, Low;
    var p, q := Feedback(High(a)), Feedback(High(b));
    XorHalves(a, b);
    StepIs(a);
    StepIs(b);
    StepIs(XorWord(a, b));
    XorFour(2 * Low(a), p, 2 * Low(b), q);
    XorDoubles(Low(a), Low(b));
    XorZero(POLYNOMIAL);
    XorZero(0);
    HighIsBit(a);
    HighIsBit(b);
  }

  lemma {:induction false} HighIsBit(c: word)
    ensures High(c) == 0 || High(c) == 1
  {
  }

  lemma {:induction false} StepsLinear(a: word, b: word, k: nat)
    ensures Steps(XorWord(a, b), k) == XorWord(Steps(a, k), Steps(b, k))
  {
    hide Step, XorWord;
    if k > 0 {
      StepsLinear(a, b, k - 1);
      StepLinear(Steps(a, k - 1), Steps(b, k - 1));
    }
  }

  // ----- one byte

  /** The three low bytes only move up. */
  lemma {:induction false} StepsLow(l: word)
    requires l < 0x100_0000
    ensures Steps(l, 8) == 0x100 * l
  {
    assert Steps(l, 0) == l && Steps(l, 1) == 2 * l && Steps(l, 2) == 4 * l;
    assert Steps(l, 3) == 8 * l && Steps(l, 4) == 16 * l;
    assert Steps(l, 5) == 32 * l && Steps(l, 6) == 64 * l;
    assert Steps(l, 7) == 128 * l;
  }

  lemma {:induction false} XorBytes(h: nat, c: nat)
    requires h < 256 && c < 256
    ensures Xor(h, c) < 256
  {
    hide Xor;
    ShlByConstants(0);
    XorFits(h, c, 8);
  }

  /** A byte joins the top byte. */
  lemma {:induction false} JoinTop(h: nat, l: nat, c: nat)
    requires h < 256 && l < 0x100_0000 && c < 256
    ensures Xor(h, c) < 256 && Xor(0x100_0000 * h + l, 0x100_0000 * c) == 0x100_0000 * Xor(h, c) + l
  {
    hide Xor;
    XorBytes(h, c);
    ShlByConstants(h);
    ShlByConstants(c);
    ShlByConstants(Xor(h, c));
    ShlByConstants(0);
    XorSplits(h, l, c, 0, 24);
    XorZero(l);
  }

  // ----- the table

  /** Every entry is the exclusive or of the entries of its bits, ... */
  lemma {:induction false} TableLinear(i: byte, j: byte)
    ensures Xor(i, j) < 256 && TableEntry(Xor(i, j)) == XorWord(TableEntry(i), TableEntry(j))
  {
    hide Xor, Steps, Divide;
    JoinTop(i, 0, j);
    DivideSteps(i, 8);
    DivideSteps(j, 8);
    DivideSteps(Xor(i, j), 8);
    assert XorWord(0x100_0000 * i, 0x100_0000 * j) == 0x100_0000 * Xor(i, j);
    StepsLinear(0x100_0000 * i, 0x100_0000 * j, 8);
  }

  lemma {:induction false} TableDoubles(i: byte)
    requires i < 128
    ensures TableEntry(2 * i) == Step(TableEntry(i))
  {
    hide Step;
    DivideSteps(i, 8);
    DivideSteps(2 * i, 8);
    StepsFirst(0x100_0000 * i, 8);
    assert Step(0x100_0000 * i) == 0x100_0000 * (2 * i) by { StepSmall(0x100_0000 * i); }
  }

  lemma {:induction false} StepSmall(c: word)
    requires c < 0x8000_0000
    ensures Step(c) == 2 * c
  {
  }

  lemma {:induction false} StepsFirst(c: word, k: nat)
    ensures Steps(Step(c), k) == Step(Steps(c, k))
  {
    hide Step;
    if k > 0 {
      StepsFirst(c, k - 1);
    }
  }

  /** ... and those are the ones printed in the table. */
  lemma {:induction false} TablePowers()
    ensures TableEntry(0) == 0 && TableEntry(1) == 0x04c1_1db7 && TableEntry(2) == 0x0982_3b6e
    ensures TableEntry(4) == 0x1304_76dc && TableEntry(8) == 0x2608_edb8 && TableEntry(16) == 0x4c11_db70
    ensures TableEntry(32) == 0x9823_b6e0 && TableEntry(64) == 0x3486_7077 && TableEntry(128) == 0x690c_e0ee
  {
    hide Divide;
    DivideSteps(0, 8);
    DivideSteps(1, 8);
    StepsLow(0);
    FirstEntry();
    TableDoubles(1);
    TableDoubles(2);
    TableDoubles(4);
    TableDoubles(8);
    TableDoubles(16);
    TableDoubles(32);
    TableDoubles(64);
    CarriedLow();
  }

  lemma {:induction false} CarriedHigh()
    ensures Xor(0x3047, 0x4c1) == 0x3486
  {
    hide Xor;
    XorZero(0x6);
    XorParts(0xc, 0x1);
    XorParts(0x18, 0x2);
    XorParts(0x30, 0x4);
    XorParts(0x60, 0x9);
    XorParts(0xc1, 0x13);
    XorParts(0x182, 0x26);
    XorParts(0x304, 0x4c);
    XorParts(0x608, 0x98);
    XorParts(0xc11, 0x130);
    XorParts(0x1823, 0x260);
    XorParts(0x3047, 0x4c1);
  }

  lemma {:induction false} CarriedLow()
    ensures Xor(0x3047_6dc0, 0x4c1_1db7) == 0x3486_7077
  {
    hide Xor;
    CarriedHigh();
    XorParts(0x608e, 0x982);
    XorParts(0xc11d, 0x1304);
    XorParts(0x1_823b, 0x2608);
    XorParts(0x3_0476, 0x4c11);
    XorParts(0x6_08ed, 0x9823);
    XorParts(0xc_11db, 0x1_3047);
    XorParts(0x18_23b6, 0x2_608e);
    XorParts(0x30_476d, 0x4_c11d);
    XorParts(0x60_8edb, 0x9_823b);
    XorParts(0xc1_1db7, 0x13_0476);
    XorParts(0x182_3b6e, 0x26_08ed);
    XorParts(0x304_76dc, 0x4c_11db);
    XorParts(0x608_edb8, 0x98_23b6);
    XorParts(0xc11_db70, 0x130_476d);
    XorParts(0x1823_b6e0, 0x260_8edb);
    XorParts(0x3047_6dc0, 0x4c1_1db7);
  }

  lemma {:induction false} FirstEntry()
    ensures Steps(0x100_0000, 8) == POLYNOMIAL
  {
    assert Steps(0x100_0000, 0) == 0x100_0000 && Steps(0x100_0000, 1) == 0x200_0000;
    assert Steps(0x100_0000, 2) == 0x400_0000 && Steps(0x100_0000, 3) == 0x800_0000;
    assert Steps(0x100_0000, 4) == 0x1000_0000 && Steps(0x100_0000, 5) == 0x2000_0000;
    assert Steps(0x100_0000, 6) == 0x4000_0000 && Steps(0x100_0000, 7) == 0x8000_0000;
    XorZero(POLYNOMIAL);
  }

  /** The byte joins the state at the top, and the state steps eight times. */
  lemma {:induction false} UpdateSteps(crc: word, c: byte)
    ensures Update(crc, c) == Steps(XorWord(crc, 0x100_0000 * c), 8)
  {
    hide Xor, Step, Steps, Divide;
    var h, l := crc / 0x100_0000, crc % 0x100_0000;
    JoinTop(h, l, c);
    var i := Xor(h, c);
    JoinTop(i, 0, 0);
    JoinTop(0, l, i);
    XorZero(i);
    XorCommutes(l, 0x100_0000 * i);
    assert XorWord(crc, 0x100_0000 * c) == XorWord(0x100_0000 * i, l);
    StepsLinear(0x100_0000 * i, l, 8);
    DivideSteps(i, 8);
    StepsLow(l);
    XorCommutes(TableEntry(i), 0x100 * l);
    TopFalls(h, l);
  }

  lemma {:induction false} TopFalls(h: nat, l: nat)
    requires h < 256 && l < 0x100_0000
    ensures (0x100_0000 * h + l) * 0x100 % 0x1_0000_0000 == 0x100 * l
  {
  }

  /** The byte steps the state by a permutation, and different bytes by different ones. */
  lemma {:induction false} UpdateInjective(x: word, y: word, c: byte, d: byte)
    ensures Update(x, c) == Update(y, c) ==> x == y
    ensures Update(x, c) == Update(x, d) ==> c == d
  {
    hide Xor, Steps, Update;
    var u, v := 0x100_0000 * c, 0x100_0000 * d;
    UpdateSteps(x, c);
    UpdateSteps(y, c);
    UpdateSteps(x, d);
    if Update(x, c) == Update(y, c) {
      StepsInjective(XorWord(x, u), XorWord(y, u), 8);
      XorCommutes(x, u);
      XorCommutes(y, u);
      XorCancels(u, x);
      XorCancels(u, y);
    }
    if Update(x, c) == Update(x, d) {
      StepsInjective(XorWord(x, u), XorWord(x, v), 8);
      XorCancels(x, u);
      XorCancels(x, v);
    }
  }

  lemma {:induction false} FoldInjective(x: word, y: word, s: seq<byte>)
    requires Fold(x, s) == Fold(y, s)
    ensures x == y
    decreases |s|
  {
    hide Update;
    if s != [] {
      var s', c := s[..|s| - 1], s[|s| - 1];
      UpdateInjective(Fold(x, s'), Fold(y, s'), c, c);
      FoldInjective(x, y, s');
    }
  }

  // ----- what is detected

  /** No change of a single byte keeps the checksum. */
  lemma {:induction false} OneByteDetected(s: seq<byte>, i: nat, c: byte)
    requires i < |s| && c != s[i]
    ensures Checksum(s[i := c]) != Checksum(s)
  {
    hide Update, Fold;
    var a, z := s[..i], s[i + 1..];
    var x := Fold(INITIAL, a);
    assert s == a + [s[i]] + z && s[i := c] == a + [c] + z;
    FoldConcat(INITIAL, a + [s[i]], z);
    FoldConcat(INITIAL, a + [c], z);
    FoldSnoc(INITIAL, a, s[i]);
    FoldSnoc(INITIAL, a, c);
    UpdateInjective(x, x, s[i], c);
    if Checksum(s[i := c]) == Checksum(s) {
      FoldInjective(Update(x, s[i]), Update(x, c), z);
    }
  }

  function Rotate(x: word): word { x * 2 % 0x1_0000_0000 + x / 0x8000_0000 }

  lemma {:induction false} RotateIs(x: word)
    ensures Rotate(x) == 2 * Low(x) + High(x)
  {
  }

  lemma {:induction false} RotateInjective(x: word, y: word)
    requires Rotate(x) == Rotate(y)
    ensures x == y
  {
    hide Rotate;
    RotateIs(x);
    RotateIs(y);
  }

  /** The combined checksum tells apart both what came before and the block's own. */
  lemma {:induction false} CombineInjective(x: word, y: word, u: word, v: word)
    ensures Combine(x, u) == Combine(y, u) ==> x == y
    ensures Combine(x, u) == Combine(x, v) ==> u == v
  {
    hide Xor, Rotate;
    var rx, ry := Rotate(x), Rotate(y);
    CombineIs(x, u);
    CombineIs(y, u);
    CombineIs(x, v);
    if Combine(x, u) == Combine(y, u) {
      XorCommutes(rx, u);
      XorCommutes(ry, u);
      XorCancels(u, rx);
      XorCancels(u, ry);
      RotateInjective(x, y);
    }
    if Combine(x, u) == Combine(x, v) {
      XorCancels(rx, u);
      XorCancels(rx, v);
    }
  }

  lemma {:induction false} CombineIs(x: word, u: word)
    ensures Combine(x, u) == Xor(Rotate(x), u)
  {
    hide Xor;
  }
}
