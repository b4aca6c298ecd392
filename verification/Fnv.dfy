/**
  The content hash: FNV-1 with 64-bit state (multiply, then xor), printed in base 32, as in
  "FNV Basics" of draft-eastlake-fnv and strconv.FormatUint. Bytes are the characters of a Go string.
 */
module Fnv {

  const MODULUS: nat := 0x1_0000_0000_0000_0000
  const OFFSET_BASIS: nat := 14695981039346656037
  const PRIME: nat := 1099511628211
  const PRIME_INVERSE: nat := 14886173955864302971

  // ---------- Exclusive or on naturals ----------

  function Xor(a: nat, b: nat): nat
    decreases a + b
  {
    if a == 0 && b == 0 then 0 else (a + b) % 2 + 2 * Xor(a / 2, b / 2)
  }

  lemma Halves(e: nat, t: nat)
    requires e < 2
    ensures (e + 2 * t) % 2 == e && (e + 2 * t) / 2 == t
  {
  }

  lemma XorHalves(a: nat, b: nat)
    ensures Xor(a, b) % 2 == (a + b) % 2 && Xor(a, b) / 2 == Xor(a / 2, b / 2)
  {
    if a != 0 || b != 0 {
      Halves((a + b) % 2, Xor(a / 2, b / 2));
    }
  }

  lemma {:induction false} XorCancels(a: nat, b: nat)
    ensures Xor(Xor(a, b), b) == a
    decreases a + b
  {
    if a != 0 || b != 0 {
      XorCancels(a / 2, b / 2);
      XorHalves(a, b);
      XorHalves(Xor(a, b), b);
      ParityTwice(a, b, Xor(a, b), Xor(Xor(a, b), b));
    }
  }

  lemma ParityTwice(a: nat, b: nat, r: nat, s: nat)
    requires r % 2 == (a + b) % 2 && s % 2 == (r + b) % 2 && s / 2 == a / 2
    ensures s == a
  {
  }

  lemma XorSameState(h: nat, a: nat, b: nat)
    requires Xor(h, a) == Xor(h, b)
    ensures a == b
  {
  }

  function Pow2(k: nat): nat {
    if k == 0 then 1 else 2 * Pow2(k - 1)
  }

  lemma {:induction false} XorBounded(a: nat, b: nat, k: nat)
    requires a < Pow2(k) && b < Pow2(k)
    ensures Xor(a, b) < Pow2(k)
    decreases k
  {
    if k > 0 {
      XorBounded(a / 2, b / 2, k - 1);
    }
  }

  lemma {:induction false} Pow2Add(j: nat, k: nat)
    ensures Pow2(j + k) == Pow2(j) * Pow2(k)
  {
    if j > 0 {
      Pow2Add(j - 1, k);
      DoubleProduct(Pow2(j - 1), Pow2(k));
    }
  }

  lemma DoubleProduct(x: nat, y: nat)
    ensures 2 * (x * y) == (2 * x) * y
  {
  }

  lemma ModulusIsPow2()
    ensures Pow2(64) == MODULUS
  {
    assert Pow2(8) == 256;
    Pow2Add(8, 8);
    Pow2Add(16, 16);
    Pow2Add(32, 32);
  }

  // ---------- Multiplication modulo 2^64 ----------

  lemma {:induction false} ModAddMultiple(a: nat, k: nat, m: nat)
    requires m > 0
    ensures (a + k * m) % m == a % m
  {
    if k > 0 {
      ModAddMultiple(a, k - 1, m);
      assert a + k * m == (a + (k - 1) * m) + m;
      ModAddOne(a + (k - 1) * m, m);
    }
  }

  lemma ModAddOne(a: nat, m: nat)
    requires m > 0
    ensures (a + m) % m == a % m
  {
    var q, r := a / m, a % m;
    assert a + m == (q + 1) * m + r;
    DivUnique(a + m, m, q + 1, r);
  }

  lemma MulAtLeast(k: int, m: nat)
    requires k >= 1
    ensures k * m >= m
  {
  }

  lemma DivUnique(x: nat, m: nat, q: nat, r: nat)
    requires m > 0 && x == q * m + r && r < m
    ensures x % m == r
  {
    var p, s := x / m, x % m;
    assert x == p * m + s;
    assert (q - p) * m == s - r && (p - q) * m == r - s;
    if q > p {
      MulAtLeast(q - p, m);
      assert false;
    } else if q < p {
      MulAtLeast(p - q, m);
      assert false;
    }
  }

  lemma ModMul(x: nat, y: nat, m: nat)
    requires m > 0
    ensures ((x % m) * y) % m == (x * y) % m
  {
    var q, r := x / m, x % m;
    assert x * y == r * y + (q * y) * m;
    ModAddMultiple(r * y, q * y, m);
  }

  function Times(h: nat, factor: nat): nat {
    (h * factor) % MODULUS
  }

  lemma PrimeInverse()
    ensures PRIME * PRIME_INVERSE == 1 + 887285111055 * MODULUS
  {
  }

  lemma TimesUndone(h: nat, p: nat, q: nat, k: nat)
    requires h < MODULUS && p * q == 1 + k * MODULUS
    ensures Times(Times(h, p), q) == h
  {
    ModMul(h * p, q, MODULUS);
    assert h * p * q == h * (p * q) == h + (h * k) * MODULUS;
    ModAddMultiple(h, h * k, MODULUS);
  }

  // ---------- The hash ----------

  predicate IsByte(c: char) {
    c as int < 256
  }

  function ByteOf(c: char): (b: nat)
    ensures b < 256
  {
    c as int % 256
  }

  function Step(h: nat, c: char): nat {
    Xor(Times(h, PRIME), ByteOf(c))
  }

  /** The state a step came from. */
  function Unstep(h: nat, c: char): nat {
    Times(Xor(h, ByteOf(c)), PRIME_INVERSE)
  }

  lemma StepBounded(h: nat, c: char)
    ensures Step(h, c) < MODULUS
  {
    ModulusIsPow2();
    XorBounded(Times(h, PRIME), ByteOf(c), 64);
  }

  /** Each step is a bijection on 64-bit states, for every byte. */
  lemma StepIsBijective(h: nat, c: char)
    requires h < MODULUS
    ensures Step(h, c) < MODULUS && Unstep(h, c) < MODULUS
    ensures Unstep(Step(h, c), c) == h
    ensures Step(Unstep(h, c), c) == h
  {
    StepBounded(h, c);
    XorCancels(Times(h, PRIME), ByteOf(c));
    PrimeInverse();
    TimesUndone(h, PRIME, PRIME_INVERSE, 887285111055);
    ModulusIsPow2();
    XorBounded(h, ByteOf(c), 64);
    assert PRIME_INVERSE * PRIME == PRIME * PRIME_INVERSE;
    TimesUndone(Xor(h, ByteOf(c)), PRIME_INVERSE, PRIME, 887285111055);
    XorCancels(h, ByteOf(c));
  }

  function Sum(h: nat, data: string): nat
    decreases |data|
  {
    if data == "" then h else Sum(Step(h, data[0]), data[1..])
  }

  lemma {:induction false} SumConcat(h: nat, a: string, b: string)
    ensures Sum(h, a + b) == Sum(Sum(h, a), b)
    decreases |a|
  {
    if a == "" {
      assert a + b == b;
    } else {
      assert (a + b)[1..] == a[1..] + b;
      SumConcat(Step(h, a[0]), a[1..], b);
    }
  }

  lemma {:induction false} SumBounded(h: nat, data: string)
    requires h < MODULUS
    ensures Sum(h, data) < MODULUS
    decreases |data|
  {
    if data != "" {
      StepBounded(h, data[0]);
      SumBounded(Step(h, data[0]), data[1..]);
    }
  }

  lemma {:induction false} SumInjectiveInState(g: nat, h: nat, data: string)
    requires g < MODULUS && h < MODULUS && Sum(g, data) == Sum(h, data)
    ensures g == h
    decreases |data|
  {
    if data != "" {
      StepIsBijective(g, data[0]);
      StepIsBijective(h, data[0]);
      SumInjectiveInState(Step(g, data[0]), Step(h, data[0]), data[1..]);
    }
  }

  lemma SumSeparates(g: nat, h: nat, data: string)
    requires g < MODULUS && h < MODULUS && g != h
    ensures Sum(g, data) != Sum(h, data)
  {
    if Sum(g, data) == Sum(h, data) {
      SumInjectiveInState(g, h, data);
    }
  }

  lemma StepSeparates(g: nat, x: char, y: char)
    requires IsByte(x) && IsByte(y) && x != y
    ensures Step(g, x) != Step(g, y)
    ensures Step(g, x) < MODULUS && Step(g, y) < MODULUS
  {
    StepBounded(g, x);
    StepBounded(g, y);
    if Step(g, x) == Step(g, y) {
      XorSameState(Times(g, PRIME), ByteOf(x), ByteOf(y));
    }
  }

  lemma SumAround(h: nat, before: string, x: char, after: string)
    ensures Sum(h, before + [x] + after) == Sum(Step(Sum(h, before), x), after)
  {
    SumConcat(h, before + [x], after);
    SumConcat(h, before, [x]);
    assert [x][1..] == "";
  }

  /** Changing exactly one byte always changes the hash. */
  lemma OneByteChangesSum(h: nat, before: string, x: char, y: char, after: string)
    requires h < MODULUS && IsByte(x) && IsByte(y) && x != y
    ensures Sum(h, before + [x] + after) != Sum(h, before + [y] + after)
  {
    SumAround(h, before, x, after);
    SumAround(h, before, y, after);
    StepSeparates(Sum(h, before), x, y);
    SumSeparates(Step(Sum(h, before), x), Step(Sum(h, before), y), after);
  }

  /** The streaming hasher. */
  class Hasher {
    var state: nat

    constructor ()
      ensures state == OFFSET_BASIS
    {
      state := OFFSET_BASIS;
    }

    method Write(data: string)
      modifies this
      ensures state == Sum(old(state), data)
    {
      for i := 0 to |data|
        invariant Sum(state, data[i..]) == Sum(old(state), data)
      {
        assert data[i..][0] == data[i] && data[i..][1..] == data[i + 1..];
        state := Xor(Times(state, PRIME), ByteOf(data[i]));
      }
    }
  }

  // ---------- Base 32 ----------

  function Digit(n: nat): char
    requires n < 32
  {
    if n < 10 then '0' + n as char else 'a' + (n - 10) as char
  }

  lemma DigitsAre(n: nat)
    requires n < 32
    ensures Digit(n) == "0123456789abcdefghijklmnopqrstuv"[n]
  {
  }

  function DigitValue(c: char): int {
    if c <= '9' then c as int - '0' as int else c as int - 'a' as int + 10
  }

  function Format32(n: nat): (s: string)
    ensures s != ""
  {
    if n < 32 then [Digit(n)] else Format32(n / 32) + [Digit(n % 32)]
  }

  function Parse32(s: string): int {
    if s == "" then 0 else Parse32(s[..|s| - 1]) * 32 + DigitValue(s[|s| - 1])
  }

  lemma {:induction false} FormatParses(n: nat)
    ensures Parse32(Format32(n)) == n
  {
    if n >= 32 {
      FormatParses(n / 32);
      assert Format32(n)[..|Format32(n)| - 1] == Format32(n / 32);
    }
  }

  /** Base-32 formatting tells all numbers apart. */
  lemma FormatInjective(m: nat, n: nat)
    ensures Format32(m) == Format32(n) <==> m == n
  {
    FormatParses(m);
    FormatParses(n);
  }

  function Pow32(k: nat): nat {
    if k == 0 then 1 else 32 * Pow32(k - 1)
  }

  lemma {:induction false} FormatLength(n: nat, k: nat)
    requires k >= 1 && n < Pow32(k)
    ensures |Format32(n)| <= k
  {
    if n >= 32 {
      assert k >= 2;
      assert n / 32 < Pow32(k - 1);
      FormatLength(n / 32, k - 1);
    }
  }

  /** The hash that names an object: its content's FNV-1 sum in base 32. */
  function HashOf(content: string): string {
    Format32(Sum(OFFSET_BASIS, content))
  }

  /** Whatever is hashed, the hash has 1 to 13 digits. */
  lemma HashLength(content: string)
    ensures 1 <= |HashOf(content)| <= 13
  {
    assert Pow32(13) == 0x2_0000_0000_0000_0000;
    SumBounded(OFFSET_BASIS, content);
    FormatLength(Sum(OFFSET_BASIS, content), 13);
  }
}
