/**
  The hash on the data its unit test fixes (pkg/manifests/manifests_test.go): the sums are computed byte
  by byte, with each product split at 64 bits and each exclusive or taken bit by bit.
 */
module FnvVectors {
  import opened Fnv
  import opened Hashed

  // ---------- Computing one step ----------

  /** Two numbers with these halves and parities differ by 2 * m. */
  lemma Doubled(m: nat, low: nat, b: nat, x: nat, y: nat)
    requires x % 2 == (2 * m + low + b) % 2 && y % 2 == (low + b) % 2 && x / 2 == m + y / 2
    ensures x == 2 * m + y
  {
  }

  lemma DoubledHalf(m: nat, low: nat)
    ensures (2 * m + low) / 2 == m + low / 2
  {
  }

  lemma XorDoubled(m: nat, low: nat, b: nat)
    requires Xor(m + low / 2, b / 2) == m + Xor(low / 2, b / 2)
    ensures Xor(2 * m + low, b) == 2 * m + Xor(low, b)
  {
    XorHalves(2 * m + low, b);
    XorHalves(low, b);
    DoubledHalf(m, low);
    Doubled(m, low, b, Xor(2 * m + low, b), Xor(low, b));
  }

  lemma HalfBounded(x: nat, k: nat)
    requires k > 0 && x < Pow2(k)
    ensures x / 2 < Pow2(k - 1)
  {
  }

  function Shifted(a: nat, k: nat): nat {
    if k == 0 then a else 2 * Shifted(a, k - 1)
  }

  /** Bits above those of both operands pass through. */
  lemma {:induction false} XorHighBits(a: nat, low: nat, b: nat, k: nat)
    requires low < Pow2(k) && b < Pow2(k)
    ensures Xor(Shifted(a, k) + low, b) == Shifted(a, k) + Xor(low, b)
    decreases k
  {
    if k == 0 {
      XorZero(a);
    } else {
      HalfBounded(low, k);
      HalfBounded(b, k);
      XorHighBits(a, low / 2, b / 2, k - 1);
      XorDoubled(Shifted(a, k - 1), low, b);
    }
  }

  lemma {:induction false} XorZero(a: nat)
    ensures Xor(a, 0) == a
  {
    if a != 0 {
      XorZero(a / 2);
    }
  }

  lemma ShiftedByByte(a: nat)
    ensures Shifted(a, 8) == 256 * a
  {
    assert Shifted(a, 1) == 2 * a;
    assert Shifted(a, 2) == 4 * a;
    assert Shifted(a, 3) == 8 * a;
    assert Shifted(a, 4) == 16 * a;
    assert Shifted(a, 5) == 32 * a;
    assert Shifted(a, 6) == 64 * a;
    assert Shifted(a, 7) == 128 * a;
  }

  lemma XorLowByte(top: nat, low: nat, byte: nat)
    requires low < 256 && byte < 256
    ensures Xor(256 * top + low, byte) == 256 * top + Xor(low, byte)
  {
    assert Pow2(8) == 256;
    ShiftedByByte(top);
    XorHighBits(top, low, byte, 8);
  }

  lemma StepIs(h: nat, c: char, k: nat, top: nat, low: nat, x: nat)
    requires h * PRIME == k * MODULUS + (256 * top + low) && 256 * top + low < MODULUS && low < 256
    requires Xor(low, ByteOf(c)) == x
    ensures Step(h, c) == 256 * top + x
  {
    DivUnique(h * PRIME, MODULUS, k, 256 * top + low);
    XorLowByte(top, low, ByteOf(c));
  }

  lemma SumSnoc(h: nat, s: string, t: string)
    requires t != "" && t[..|t| - 1] == s
    ensures Sum(h, t) == Step(Sum(h, s), t[|t| - 1])
  {
    var c := t[|t| - 1];
    assert t == s + [c];
    SumConcat(h, s, [c]);
    assert [c][1..] == "";
  }

  type Bit = b: nat | b < 2

  function OneBit(e: Bit, f: Bit): Bit {
    if e == f then 0 else 1
  }

  lemma XorPush(m: nat, n: nat, e: Bit, f: Bit)
    ensures Xor(2 * m + e, 2 * n + f) == 2 * Xor(m, n) + OneBit(e, f)
  {
    XorHalves(2 * m + e, 2 * n + f);
    BitHalf(m, e);
    BitHalf(n, f);
    FromHalf(m, n, e, f, Xor(2 * m + e, 2 * n + f), Xor(m, n));
  }

  lemma BitHalf(m: nat, e: Bit)
    ensures (2 * m + e) / 2 == m
  {
  }

  lemma FromHalf(m: nat, n: nat, e: Bit, f: Bit, x: nat, y: nat)
    requires x % 2 == (2 * m + e + (2 * n + f)) % 2 && x / 2 == y
    ensures x == 2 * y + OneBit(e, f)
  {
  }

  function Nibble(a0: Bit, a1: Bit, a2: Bit, a3: Bit): nat {
    2 * (2 * (2 * a3 + a2) + a1) + a0
  }

  lemma XorPair(m: nat, n: nat, a0: Bit, a1: Bit, b0: Bit, b1: Bit)
    ensures Xor(2 * (2 * m + a1) + a0, 2 * (2 * n + b1) + b0) == 2 * (2 * Xor(m, n) + OneBit(a1, b1)) + OneBit(a0, b0)
  {
    XorPush(m, n, a1, b1);
    XorPush(2 * m + a1, 2 * n + b1, a0, b0);
  }

  lemma XorNibble(m: nat, n: nat, a0: Bit, a1: Bit, a2: Bit, a3: Bit, b0: Bit, b1: Bit, b2: Bit, b3: Bit)
    ensures Xor(16 * m + Nibble(a0, a1, a2, a3), 16 * n + Nibble(b0, b1, b2, b3)) ==
            16 * Xor(m, n) + Nibble(OneBit(a0, b0), OneBit(a1, b1), OneBit(a2, b2), OneBit(a3, b3))
  {
    XorPair(m, n, a2, a3, b2, b3);
    XorPair(2 * (2 * m + a3) + a2, 2 * (2 * n + b3) + b2, a0, a1, b0, b1);
  }

  /** Eight bits, the lowest first. */
  datatype Byte = Byte(b0: Bit, b1: Bit, b2: Bit, b3: Bit, b4: Bit, b5: Bit, b6: Bit, b7: Bit) {
    function Number(): (n: nat)
      ensures n < 256
    {
      16 * Nibble(b4, b5, b6, b7) + Nibble(b0, b1, b2, b3)
    }
  }

  function ByteXor(a: Byte, b: Byte): Byte {
    Byte(OneBit(a.b0, b.b0), OneBit(a.b1, b.b1), OneBit(a.b2, b.b2), OneBit(a.b3, b.b3),
         OneBit(a.b4, b.b4), OneBit(a.b5, b.b5), OneBit(a.b6, b.b6), OneBit(a.b7, b.b7))
  }

  lemma XorOfBytes(a: Byte, b: Byte)
    ensures Xor(a.Number(), b.Number()) == ByteXor(a, b).Number()
  {
    XorNibble(0, 0, a.b4, a.b5, a.b6, a.b7, b.b4, b.b5, b.b6, b.b7);
    XorZero(0);
    XorNibble(Nibble(a.b4, a.b5, a.b6, a.b7), Nibble(b.b4, b.b5, b.b6, b.b7),
              a.b0, a.b1, a.b2, a.b3, b.b0, b.b1, b.b2, b.b3);
  }

  /** The low and the other operand of an exclusive or, bit by bit. */
  predicate XorsTo(l: nat, b: nat, x: nat, low: Byte, byte: Byte) {
    low.Number() == l && byte.Number() == b && ByteXor(low, byte).Number() == x
  }

  /** One step as it is computed: the product is k times two to the 64, plus 256 times top, plus l. */
  lemma StepComputed(h: nat, c: char, k: nat, top: nat, l: nat, b: nat, x: nat, low: Byte, byte: Byte)
    requires h * PRIME == k * MODULUS + (256 * top + l) && 256 * top + l < MODULUS && l < 256
    requires c as int == b < 256 && XorsTo(l, b, x, low, byte)
    ensures Step(h, c) == 256 * top + x
  {
    XorOfBytes(low, byte);
    ByteIs(c, b);
    StepIs(h, c, k, top, l, x);
  }

  lemma ByteIs(c: char, n: nat)
    requires c as int == n < 256
    ensures ByteOf(c) == n
  {
  }

  lemma SumNext(start: nat, s: string, t: string, h: nat, next: nat)
    requires Sum(start, s) == h && t != "" && t[..|t| - 1] == s && Step(h, t[|t| - 1]) == next
    ensures Sum(start, t) == next
  {
    SumSnoc(start, s, t);
  }

  lemma SixSteps(data: string, h0: nat, h1: nat, h2: nat, h3: nat, h4: nat, h5: nat, h6: nat)
    requires |data| == 6
    requires Step(h0, data[0]) == h1 && Step(h1, data[1]) == h2 && Step(h2, data[2]) == h3
    requires Step(h3, data[3]) == h4 && Step(h4, data[4]) == h5 && Step(h5, data[5]) == h6
    ensures Sum(h0, data) == h6
  {
    SumNext(h0, data[..0], data[..1], h0, h1);
    SumNext(h0, data[..1], data[..2], h1, h2);
    SumNext(h0, data[..2], data[..3], h2, h3);
    SumNext(h0, data[..3], data[..4], h3, h4);
    SumNext(h0, data[..4], data[..5], h4, h5);
    SumNext(h0, data[..5], data[..6], h5, h6);
    assert data[..6] == data;
  }

  // ---------- The vectors ----------

  lemma First0(h: nat, c: char)
    requires h == 14695981039346656037 && c == 'v'
    ensures Step(h, c) == 12638153115695167401
  {
    StepComputed(14695981039346656037, 'v', 875948729822, 49367785608184247, 223, 118, 169,
                 Byte(1, 1, 1, 1, 1, 0, 1, 1), Byte(0, 1, 1, 0, 1, 1, 1, 0));
  }

  lemma First1(h: nat, c: char)
    requires h == 12638153115695167401 && c == 'a'
    ensures Step(h, c) == 590624694192510026
  {
    StepComputed(12638153115695167401, 'a', 753292627376, 2307127711689492, 43, 97, 74,
                 Byte(1, 1, 0, 1, 0, 1, 0, 0), Byte(1, 0, 0, 0, 0, 1, 1, 0));
  }

  lemma First2(h: nat, c: char)
    requires h == 590624694192510026 && c == 'l'
    ensures Step(h, c) == 15606570404115872210
  {
    StepComputed(590624694192510026, 'l', 35203975106, 60963165641077625, 190, 108, 210,
                 Byte(0, 1, 1, 1, 1, 1, 0, 1), Byte(0, 0, 1, 1, 0, 1, 1, 0));
  }

  lemma First3(h: nat, c: char)
    requires h == 15606570404115872210 && c == 'u'
    ensures Step(h, c) == 8777219349274951587
  {
    StepComputed(15606570404115872210, 'u', 930224085467, 34286013083105279, 214, 117, 163,
                 Byte(0, 1, 1, 0, 1, 0, 1, 1), Byte(1, 0, 1, 0, 1, 1, 1, 0));
  }

  lemma First4(h: nat, c: char)
    requires h == 8777219349274951587 && c == 'e'
    ensures Step(h, c) == 3649516688269336988
  {
    StepComputed(8777219349274951587, 'e', 523163041636, 14255924563552097, 249, 101, 156,
                 Byte(1, 0, 0, 1, 1, 1, 1, 1), Byte(1, 0, 1, 0, 0, 1, 1, 0));
  }

  lemma First5(h: nat, c: char)
    requires h == 3649516688269336988 && c == '1'
    ensures Step(h, c) == 3957489822174207013
  {
    StepComputed(3649516688269336988, '1', 217528145892, 15458944617867996, 20, 49, 37,
                 Byte(0, 0, 1, 0, 1, 0, 0, 0), Byte(1, 0, 0, 0, 1, 1, 0, 0));
  }

  lemma SumOfValue1(data: string, h0: nat, h1: nat, h2: nat, h3: nat, h4: nat, h5: nat)
    requires data == "value1" && h0 == OFFSET_BASIS
    requires h1 == 12638153115695167401 && h2 == 590624694192510026 && h3 == 15606570404115872210
    requires h4 == 8777219349274951587 && h5 == 3649516688269336988
    ensures Sum(h0, data) == 3957489822174207013
  {
    First0(h0, data[0]);
    First1(h1, data[1]);
    First2(h2, data[2]);
    First3(h3, data[3]);
    First4(h4, data[4]);
    First5(h5, data[5]);
    SixSteps(data, h0, h1, h2, h3, h4, h5, 3957489822174207013);
  }

  lemma Second0(h: nat, c: char)
    requires h == 3957489822174207013 && c == 'v'
    ensures Step(h, c) == 4437571898763907753
  {
    StepComputed(3957489822174207013, 'v', 235884775146, 17334265229546514, 223, 118, 169,
                 Byte(1, 1, 1, 1, 1, 0, 1, 1), Byte(0, 1, 1, 0, 1, 1, 1, 0));
  }

  lemma Second1(h: nat, c: char)
    requires h == 4437571898763907753 && c == 'a'
    ensures Step(h, c) == 13328796544310949194
  {
    StepComputed(4437571898763907753, 'a', 264499896795, 52065611501214645, 43, 97, 74,
                 Byte(1, 1, 0, 1, 0, 1, 0, 0), Byte(1, 0, 0, 0, 0, 1, 1, 0));
  }

  lemma Second2(h: nat, c: char)
    requires h == 13328796544310949194 && c == 'l'
    ensures Step(h, c) == 7745441004132830418
  {
    StepComputed(13328796544310949194, 'l', 794458183621, 30255628922393868, 190, 108, 210,
                 Byte(0, 1, 1, 1, 1, 1, 0, 1), Byte(0, 0, 1, 1, 0, 1, 1, 0));
  }

  lemma Second3(h: nat, c: char)
    requires h == 7745441004132830418 && c == 'u'
    ensures Step(h, c) == 13476233454601685155
  {
    StepComputed(7745441004132830418, 'u', 461664259862, 52641536932037832, 214, 117, 163,
                 Byte(0, 1, 1, 0, 1, 0, 1, 1), Byte(1, 0, 1, 0, 1, 1, 1, 0));
  }

  lemma Second4(h: nat, c: char)
    requires h == 13476233454601685155 && c == 'e'
    ensures Step(h, c) == 10276699959266962588
  {
    StepComputed(13476233454601685155, 'e', 803246108289, 40143359215886572, 249, 101, 156,
                 Byte(1, 0, 0, 1, 1, 1, 1, 1), Byte(1, 0, 1, 0, 0, 1, 1, 0));
  }

  lemma Second5(h: nat, c: char)
    requires h == 10276699959266962588 && c == '2'
    ensures Step(h, c) == 13236545089375964454
  {
    StepComputed(10276699959266962588, '2', 612539050777, 51705254255374861, 20, 50, 38,
                 Byte(0, 0, 1, 0, 1, 0, 0, 0), Byte(0, 1, 0, 0, 1, 1, 0, 0));
  }

  lemma SumOfValue2(data: string, h0: nat, h1: nat, h2: nat, h3: nat, h4: nat, h5: nat)
    requires data == "value2" && h0 == 3957489822174207013
    requires h1 == 4437571898763907753 && h2 == 13328796544310949194 && h3 == 7745441004132830418
    requires h4 == 13476233454601685155 && h5 == 10276699959266962588
    ensures Sum(h0, data) == 13236545089375964454
  {
    Second0(h0, data[0]);
    Second1(h1, data[1]);
    Second2(h2, data[2]);
    Second3(h3, data[3]);
    Second4(h4, data[4]);
    Second5(h5, data[5]);
    SixSteps(data, h0, h1, h2, h3, h4, h5, 13236545089375964454);
  }

  lemma FormatNext(q: nat, r: nat, s: string, t: string)
    requires q > 0 && r < 32 && Format32(q) == s
    requires |t| == |s| + 1 && t[..|s|] == s && t[|s|] == Digit(r)
    ensures Format32(32 * q + r) == t
  {
  }

  lemma EmptyFormat()
    ensures Format32(14695981039346656037) == "cnskssi2248p5"
  {
    FormatNext(12, 23, "c", "cn");
    FormatNext(407, 28, "cn", "cns");
    FormatNext(13052, 20, "cns", "cnsk");
    FormatNext(417684, 28, "cnsk", "cnsks");
    FormatNext(13365916, 28, "cnsks", "cnskss");
    FormatNext(427709340, 18, "cnskss", "cnskssi");
    FormatNext(13686698898, 2, "cnskssi", "cnskssi2");
    FormatNext(437974364738, 2, "cnskssi2", "cnskssi22");
    FormatNext(14015179671618, 4, "cnskssi22", "cnskssi224");
    FormatNext(448485749491780, 8, "cnskssi224", "cnskssi2248");
    FormatNext(14351543983736968, 25, "cnskssi2248", "cnskssi2248p");
    FormatNext(459249407479583001, 5, "cnskssi2248p", "cnskssi2248p5");
  }

  lemma Value1Format()
    ensures Format32(3957489822174207013) == "3dquk0q6eln15"
  {
    FormatNext(3, 13, "3", "3d");
    FormatNext(109, 26, "3d", "3dq");
    FormatNext(3514, 30, "3dq", "3dqu");
    FormatNext(112478, 20, "3dqu", "3dquk");
    FormatNext(3599316, 0, "3dquk", "3dquk0");
    FormatNext(115178112, 26, "3dquk0", "3dquk0q");
    FormatNext(3685699610, 6, "3dquk0q", "3dquk0q6");
    FormatNext(117942387526, 14, "3dquk0q6", "3dquk0q6e");
    FormatNext(3774156400846, 21, "3dquk0q6e", "3dquk0q6el");
    FormatNext(120773004827093, 23, "3dquk0q6el", "3dquk0q6eln");
    FormatNext(3864736154466999, 1, "3dquk0q6eln", "3dquk0q6eln1");
    FormatNext(123671556942943969, 5, "3dquk0q6eln1", "3dquk0q6eln15");
  }

  lemma Value1Value2Format()
    ensures Format32(13236545089375964454) == "bfcd7k3kr4396"
  {
    FormatNext(11, 15, "b", "bf");
    FormatNext(367, 12, "bf", "bfc");
    FormatNext(11756, 13, "bfc", "bfcd");
    FormatNext(376205, 7, "bfcd", "bfcd7");
    FormatNext(12038567, 20, "bfcd7", "bfcd7k");
    FormatNext(385234164, 3, "bfcd7k", "bfcd7k3");
    FormatNext(12327493251, 20, "bfcd7k3", "bfcd7k3k");
    FormatNext(394479784052, 27, "bfcd7k3k", "bfcd7k3kr");
    FormatNext(12623353089691, 4, "bfcd7k3kr", "bfcd7k3kr4");
    FormatNext(403947298870116, 3, "bfcd7k3kr4", "bfcd7k3kr43");
    FormatNext(12926313563843715, 9, "bfcd7k3kr43", "bfcd7k3kr439");
    FormatNext(413642034042998889, 6, "bfcd7k3kr439", "bfcd7k3kr4396");
  }

  /** What the unit test of HashSecret expects: no data, one pair, one pair and a dangling key, two pairs. */
  lemma KnownHashes()
    ensures HashOf(Values([])) == "cnskssi2248p5"
    ensures HashOf(Values(["key1", "value1"])) == "3dquk0q6eln15"
    ensures HashOf(Values(["key1", "value1", "key2"])) == "3dquk0q6eln15"
    ensures HashOf(Values(["key1", "value1", "key2", "value2"])) == "bfcd7k3kr4396"
  {
    EmptyFormat();
    Value1Format();
    Value1Value2Format();
    HashesOfPairs("key1", "value1", "key2", "value2", OFFSET_BASIS);
  }

  lemma HashesOfPairs(k1: string, v1: string, k2: string, v2: string, start: nat)
    requires v1 == "value1" && v2 == "value2" && start == OFFSET_BASIS
    ensures HashOf(Values([k1, v1])) == Format32(3957489822174207013)
    ensures HashOf(Values([k1, v1, k2])) == Format32(3957489822174207013)
    ensures HashOf(Values([k1, v1, k2, v2])) == Format32(13236545089375964454)
  {
    SumOfValue1(v1, start, 12638153115695167401, 590624694192510026, 15606570404115872210,
                8777219349274951587, 3649516688269336988);
    SumOfValue2(v2, 3957489822174207013, 4437571898763907753, 13328796544310949194, 7745441004132830418,
                13476233454601685155, 10276699959266962588);
    SumConcat(start, v1, v2);
    ValuesOfPairs(k1, v1, k2, v2);
  }

  lemma ValuesOfPairs(k1: string, v1: string, k2: string, v2: string)
    ensures Values([k1, v1]) == v1 && Values([k1, v1, k2]) == v1 && Values([k1, v1, k2, v2]) == v1 + v2
  {
    assert [k1, v1][2..] == [] && [k1, v1, k2][2..] == [k2] && v1 + "" == v1;
    TwoPairs(k1, v1, k2, v2);
  }

}
