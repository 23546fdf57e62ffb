/** Prefix masks of 32-bit words, alone and four in a row. */
module PrefixMask {
  import opened Powers
  import opened Words

  lemma WordRangeIsPower()
    ensures Pow2(32) == WORD_RANGE
  {
    assert Pow2(8) == 256;
    PowersMultiply(8, 8);
    assert Pow2(16) == 65536;
    PowersMultiply(16, 16);
  }

  lemma ProductsGrow(a: int, b: int, c: nat)
    requires a <= b
    ensures a * c <= b * c
  {
    assert b * c == a * c + (b - a) * c;
    assert (b - a) * c >= 0;
  }

  /** The word whose first mask bits are ones and whose other bits are zeros. */
  function MaskWord(mask: int): Word {
    if mask <= 0 then 0
    else if mask >= 32 then WORD_RANGE - 1
    else
      PowersGrow(0, 32 - mask);
      PowersGrow(32 - mask, 32);
      WordRangeIsPower();
      Pow2(32) - Pow2(32 - mask)
  }

  function ShiftLeft(w: Word): Word {
    (2 * w) % WORD_RANGE
  }

  /** The number of the first i bits of a mask of that many ones. */
  function FirstBits(i: nat, ones: nat): int {
    if i <= ones then Pow2(i) - 1 else Pow2(i) - Pow2(i - ones)
  }

  lemma NextBit(i: nat, ones: nat)
    requires i < 32
    ensures FirstBits(i + 1, ones) == 2 * FirstBits(i, ones) + if i < ones then 1 else 0
    ensures FirstBits(i + 1, ones) < WORD_RANGE
  {
    WordRangeIsPower();
    PowersGrow(i + 1, 32);
  }

  /** PrefixParser::createMask */
  method CreateMask(mask: int) returns (ret: Word)
    ensures ret == MaskWord(mask)
    ensures 0 <= mask <= 32 ==> ret == Pow2(32) - Pow2(32 - mask)
  {
    WordRangeIsPower();
    ret := 0;
    if mask >= 32 {
      // the complement of 0 in 32 bits
      return WORD_RANGE - 1;
    }
    ghost var ones := if mask < 0 then 0 else mask;
    assert FirstBits(0, ones) == 0;
    assert FirstBits(32, ones) == MaskWord(mask);
    hide FirstBits, MaskWord;
    for i := 0 to 32
      invariant ret == FirstBits(i, ones)
    {
      NextBit(i, ones);
      if i < mask {
        ret := ShiftLeft(ret) + 1;   // the shifted word is even
      } else {
        ret := ShiftLeft(ret);
      }
    }
  }

  // ---------- words in a row ----------

  /** The number that the words spell, most significant word first. */
  function Value(words: seq<Word>): nat {
    if words == [] then 0
    else
      ProductsGrow(0, words[0], Pow2(32 * |words[1..]|));
      words[0] * Pow2(32 * |words[1..]|) + Value(words[1..])
  }

  lemma {:induction false} ValueBound(words: seq<Word>)
    ensures Value(words) < Pow2(32 * |words|)
  {
    if words != [] {
      var p := Pow2(32 * (|words| - 1));
      ValueBound(words[1..]);
      PowersMultiply(32, 32 * (|words| - 1));
      WordRangeIsPower();
      assert 32 + 32 * (|words| - 1) == 32 * |words|;
      ProductsGrow(words[0], WORD_RANGE - 1, p);
    }
  }

  function Less32(mask: nat): nat {
    if mask > 32 then mask - 32 else 0
  }

  /** The masks of n words in a row, each made of what the ones before it have left of the length. */
  function MaskWords(mask: nat, n: nat): (r: seq<Word>)
    ensures |r| == n
  {
    if n == 0 then [] else [MaskWord(mask)] + MaskWords(Less32(mask), n - 1)
  }

  lemma {:induction false} NoMask(n: nat)
    ensures Value(MaskWords(0, n)) == 0
  {
    if n > 0 {
      NoMask(n - 1);
    }
  }

  /** What the first of the words adds to the ones after it. */
  lemma FirstMaskWord(mask: nat, low: nat)
    requires mask <= 32 + low
    ensures MaskWord(mask) * Pow2(low) + Pow2(low) - Pow2(low - Less32(mask)) == Pow2(32 + low) - Pow2(32 + low - mask)
  {
    WordRangeIsPower();
    PowersMultiply(32, low);
    if mask <= 32 {
      PowersMultiply(32 - mask, low);
      assert MaskWord(mask) == Pow2(32) - Pow2(32 - mask);
      hide Pow2, MaskWord;
      SumTimes(MaskWord(mask), Pow2(32 - mask), Pow2(low));
    } else {
      assert MaskWord(mask) == Pow2(32) - 1;
      hide Pow2, MaskWord;
      SumTimes(MaskWord(mask), 1, Pow2(low));
    }
  }

  /** The words spell mask ones followed by zeros. */
  lemma {:induction false} MaskWordsValue(mask: nat, n: nat)
    requires mask <= 32 * n
    ensures Value(MaskWords(mask, n)) == Pow2(32 * n) - Pow2(32 * n - mask)
  {
    if n > 0 {
      hide Pow2, MaskWord, Value;
      MaskWordsValue(Less32(mask), n - 1);
      ValueCons(MaskWord(mask), MaskWords(Less32(mask), n - 1));
      FirstMaskWord(mask, 32 * (n - 1));
    }
  }

  lemma ValueCons(word: Word, rest: seq<Word>)
    ensures Value([word] + rest) == word * Pow2(32 * |rest|) + Value(rest)
  {
    assert ([word] + rest)[1..] == rest;
  }

  lemma SumTimes(a: int, b: int, p: int)
    ensures (a + b) * p == a * p + b * p
  {
  }

  // ---------- masking ----------

  /** Bitwise and. */
  function And(x: nat, y: nat): (r: nat)
    ensures r <= x
    decreases x
  {
    if x == 0 then 0 else 2 * And(x / 2, y / 2) + (x % 2) * (y % 2)
  }

  lemma {:induction false} AndZero(x: nat)
    ensures And(x, 0) == 0
    decreases x
  {
    if x > 0 {
      AndZero(x / 2);
    }
  }

  lemma {:induction false} AndOnes(x: nat, w: nat)
    requires x < Pow2(w)
    ensures And(x, Pow2(w) - 1) == x
    decreases x
  {
    if x > 0 {
      AndOnes(x / 2, w - 1);
      var half := Pow2(w - 1);
      assert (2 * half - 1) / 2 == half - 1 && (2 * half - 1) % 2 == 1;
    }
  }

  lemma ModDouble(x: nat, p: nat)
    requires p > 0
    ensures x % (2 * p) == 2 * ((x / 2) % p) + x % 2
  {
    var q, r := (x / 2) / p, (x / 2) % p;
    assert x / 2 == p * q + r;
    assert x == (2 * p) * q + (2 * r + x % 2) by { assert 2 * (p * q) == (2 * p) * q; }
    ModOf(x, 2 * p, q, 2 * r + x % 2);
  }

  lemma ModOf(x: int, d: int, q: int, r: int)
    requires 0 <= r < d && x == d * q + r
    ensures x / d == q && x % d == r
  {
    var a, b := x / d, x % d;
    assert x == d * a + b;
    NextProduct(a, q, d);
    NextProduct(q, a, d);
  }

  lemma NextProduct(a: int, b: int, d: nat)
    ensures a < b ==> d * a + d <= d * b
  {
    if a < b {
      ProductsGrow(a + 1, b, d);
      assert d * (a + 1) == d * a + d;
    }
  }

  /** The number of the last n bits. */
  function LowBits(x: nat, n: nat): nat {
    x % Pow2(n)
  }

  lemma LowBitsStep(x: nat, n: nat)
    ensures LowBits(x, n + 1) == 2 * LowBits(x / 2, n) + x % 2
  {
    ModDouble(x, Pow2(n));
  }

  lemma PowerDoubles(n: nat)
    ensures Pow2(n + 1) == 2 * Pow2(n)
  {
  }

  predicate Clears(x: nat, w: nat, low: nat) {
    Pow2(low) <= Pow2(w) && And(x, Pow2(w) - Pow2(low)) == x - LowBits(x, low)
  }

  lemma ClearsNone(x: nat, w: nat)
    requires x < Pow2(w)
    ensures Clears(x, w, 0)
  {
    AndOnes(x, w);
  }

  lemma ClearsStep(x: nat, w: nat, low: nat)
    requires Clears(x / 2, w, low)
    ensures Clears(x, w + 1, low + 1)
  {
    hide And, LowBits, Pow2;
    PowerDoubles(w);
    PowerDoubles(low);
    AndEven(x, Pow2(w) - Pow2(low));
    LowBitsStep(x, low);
  }

  lemma {:induction false} AndClears(x: nat, w: nat, low: nat)
    requires low <= w && x < Pow2(w)
    ensures Clears(x, w, low)
    decreases low
  {
    hide Clears;
    if low == 0 {
      ClearsNone(x, w);
    } else {
      AndClears(x / 2, w - 1, low - 1);
      ClearsStep(x, w - 1, low - 1);
    }
  }

  /** Masking clears exactly the low bits that the mask leaves out. */
  lemma AndMask(x: nat, w: nat, low: nat)
    requires low <= w && x < Pow2(w)
    ensures Pow2(low) <= Pow2(w) && And(x, Pow2(w) - Pow2(low)) == x - x % Pow2(low)
  {
    AndClears(x, w, low);
  }

  lemma AndEven(x: nat, y: nat)
    ensures And(x, 2 * y) == 2 * And(x / 2, y)
  {
    assert (2 * y) / 2 == y && (2 * y) % 2 == 0;
  }

  lemma MaskWordIs(mask: int)
    ensures 0 <= mask <= 32 ==> MaskWord(mask) == Pow2(32) - Pow2(32 - mask)
  {
    WordRangeIsPower();
  }

  /** An address survives its mask exactly when everything after the prefix is zero. */
  lemma SurvivesExact(addr: Word, mask: nat)
    requires mask <= 32
    ensures And(addr, MaskWord(mask)) == addr <==> addr % Pow2(32 - mask) == 0
  {
    MaskWordIs(mask);
    WordRangeIsPower();
    hide And, Pow2, MaskWord;
    AndMask(addr, 32, 32 - mask);
  }

  lemma LowWords(a: nat, r: nat, q: nat, p: nat)
    requires q > 0 && r < p
    ensures (a * p + r) % (q * p) == 0 <==> a % q == 0 && r == 0
  {
    var m := a % q;
    var high := a / q;
    assert a == high * q + m;
    calc {
      a * p + r;
      { SumTimes(high * q, m, p); }
      (high * q) * p + m * p + r;
      { assert (high * q) * p == (q * p) * high; }
      (q * p) * high + (m * p + r);
    }
    ProductsGrow(m, q - 1, p);
    SumTimes(q - 1, 1, p);
    ProductsGrow(0, m, p);
    ModOf(a * p + r, q * p, high, m * p + r);
    if m > 0 {
      ProductsGrow(1, m, p);
    }
  }

  lemma HighWord(a: nat, r: nat, d: nat, k: nat)
    requires d > 0
    ensures (a * (k * d) + r) % d == r % d
  {
    assert r == d * (r / d) + r % d;
    assert a * (k * d) + r == d * (a * k + r / d) + r % d by {
      assert a * (k * d) == d * (a * k);
    }
    ModOf(a * (k * d) + r, d, a * k + r / d, r % d);
  }

  /** Every word of the address survives the mask of its place. */
  predicate Survive(addr: seq<Word>, masks: seq<Word>)
    requires |addr| == |masks|
  {
    forall i | 0 <= i < |addr| :: And(addr[i], masks[i]) == addr[i]
  }

  lemma SurviveStep(addr: seq<Word>, masks: seq<Word>)
    requires |addr| == |masks| > 0
    ensures Survive(addr, masks) <==> And(addr[0], masks[0]) == addr[0] && Survive(addr[1..], masks[1..])
  {
    if Survive(addr[1..], masks[1..]) && And(addr[0], masks[0]) == addr[0] {
      forall i | 0 <= i < |addr| ensures And(addr[i], masks[i]) == addr[i] {
        if i > 0 {
          assert addr[1..][i - 1] == addr[i] && masks[1..][i - 1] == masks[i];
        }
      }
    }
  }

  /** Word by word masking of a long address tells whether everything after its prefix is zero. */
  lemma {:induction false} WordsSurviveExact(addr: seq<Word>, mask: nat)
    requires mask <= 32 * |addr|
    ensures Survive(addr, MaskWords(mask, |addr|)) <==> Value(addr) % Pow2(32 * |addr| - mask) == 0
  {
    if addr != [] {
      var n := |addr|;
      var masks := MaskWords(mask, n);
      var rest := addr[1..];
      assert masks[0] == MaskWord(mask) && masks[1..] == MaskWords(Less32(mask), n - 1);
      SurviveStep(addr, masks);
      WordsSurviveExact(rest, Less32(mask));
      ValueBound(rest);
      hide Survive, MaskWords, MaskWord, And, Pow2;
      if mask <= 32 {
        InFirstWord(addr[0], Value(rest), mask, 32 * (n - 1));
      } else {
        BehindFirstWord(addr[0], Value(rest), mask, 32 * (n - 1));
      }
    }
  }

  /** The prefix ends in the first word: the rest, r in low bits, belongs to the host part. */
  lemma InFirstWord(a: Word, r: nat, mask: nat, low: nat)
    requires mask <= 32 && r < Pow2(low)
    ensures And(a, MaskWord(mask)) == a && r % Pow2(low) == 0 <==> (a * Pow2(low) + r) % Pow2(32 + low - mask) == 0
  {
    SurvivesExact(a, mask);
    PowersMultiply(32 - mask, low);
    hide MaskWord, And, Pow2;
    LowWords(a, r, Pow2(32 - mask), Pow2(low));
    ModSmall(r, Pow2(low));
  }

  /** The prefix goes on behind the first word. */
  lemma BehindFirstWord(a: Word, r: nat, mask: nat, low: nat)
    requires 32 < mask <= 32 + low
    ensures And(a, MaskWord(mask)) == a
    ensures (a * Pow2(low) + r) % Pow2(32 + low - mask) == r % Pow2(low - (mask - 32))
  {
    WordRangeIsPower();
    AndOnes(a, 32);
    PowersMultiply(mask - 32, 32 + low - mask);
    hide And, Pow2;
    HighWord(a, r, Pow2(32 + low - mask), Pow2(mask - 32));
  }

  lemma ModSmall(x: nat, d: nat)
    requires x < d
    ensures x % d == x
  {
  }
}
