/** The FNV-1a folds behind clipboard fingerprints and monitor ids
    (crates/wx-agent/src/clipboard.rs, crates/wx-platform/src/coords.rs). */
module Fnv {
  type byte = x: int | 0 <= x < 0x100

  /** One width of FNV. `inverse` undoes multiplying by `prime`; it exists because the prime is odd. */
  datatype Params = Params(offset: nat, prime: nat, inverse: nat, modulus: nat)

  ghost predicate Sound(p: Params) {
    && p.modulus > 0
    && p.modulus % 0x100 == 0
    && p.offset < p.modulus
    && (p.prime * p.inverse) % p.modulus == 1
  }

  const FNV64 := Params(0xcbf2_9ce4_8422_2325, 0x100_0000_01b3, 0xce96_5057_aff6_957b, 0x1_0000_0000_0000_0000)
  const FNV32 := Params(0x811c_9dc5, 0x0100_0193, 0x359c_449b, 0x1_0000_0000)

  lemma BothWidthsSound()
    ensures Sound(FNV64) && Sound(FNV32)
  {
  }

  /** Bitwise exclusive or of the low `bits` bits. */
  function Xor(a: nat, b: nat, bits: nat): (r: nat) {
    if bits == 0 then 0 else 2 * Xor(a / 2, b / 2, bits - 1) + (a + b) % 2
  }

  function Pow2(n: nat): (r: nat)
    ensures r > 0
  {
    if n == 0 then 1 else 2 * Pow2(n - 1)
  }

  lemma {:induction false} XorBounded(a: nat, b: nat, bits: nat)
    ensures Xor(a, b, bits) < Pow2(bits)
  {
    if bits > 0 {
      XorBounded(a / 2, b / 2, bits - 1);
    }
  }

  lemma XorHalves(a: nat, b: nat, bits: nat)
    requires bits > 0
    ensures Xor(a, b, bits) / 2 == Xor(a / 2, b / 2, bits - 1)
    ensures Xor(a, b, bits) % 2 == (a + b) % 2
  {
  }

  lemma {:induction false} XorTwice(a: nat, b: nat, bits: nat)
    requires a < Pow2(bits)
    ensures Xor(Xor(a, b, bits), b, bits) == a
  {
    if bits > 0 {
      var r := Xor(a, b, bits);
      XorHalves(a, b, bits);
      XorHalves(r, b, bits);
      XorTwice(a / 2, b / 2, bits - 1);
      ParityTwice(a, b, r);
      SameHalves(Xor(r, b, bits), a);
    }
  }

  lemma ParityTwice(a: nat, b: nat, r: nat)
    requires r % 2 == (a + b) % 2
    ensures (r + b) % 2 == a % 2
  {
  }

  lemma SameHalves(a: nat, b: nat)
    requires a / 2 == b / 2 && a % 2 == b % 2
    ensures a == b
  {
  }

  lemma {:induction false} XorCommutes(a: nat, b: nat, bits: nat)
    ensures Xor(a, b, bits) == Xor(b, a, bits)
  {
    if bits > 0 {
      XorCommutes(a / 2, b / 2, bits - 1);
    }
  }

  /** Exclusive or with one byte touches only the low eight bits of the hash. */
  function Mix(h: nat, b: byte): nat {
    h / 0x100 * 0x100 + Xor(h % 0x100, b, 8)
  }

  function Step(p: Params, h: nat, b: byte): nat
    requires p.modulus > 0
  {
    (Mix(h, b) * p.prime) % p.modulus
  }

  /** Undoes `Step` for a known byte. */
  function Unstep(p: Params, h: nat, b: byte): nat
    requires p.modulus > 0
  {
    Mix((h * p.inverse) % p.modulus, b)
  }

  function Eat(p: Params, h: nat, chunk: seq<byte>): nat
    requires p.modulus > 0
    decreases chunk
  {
    if chunk == [] then h else Eat(p, Step(p, h, chunk[0]), chunk[1..])
  }

  lemma Pow2Eight()
    ensures Pow2(8) == 0x100
  {
    assert Pow2(4) == 16;
  }

  /** A number is its high part and its low byte. */
  lemma HighAndLow(high: nat, low: nat)
    requires low < 0x100
    ensures (high * 0x100 + low) / 0x100 == high && (high * 0x100 + low) % 0x100 == low
  {
  }

  lemma StaysBelow(h: nat, low: nat, m: nat)
    requires h < m && low < 0x100 && m % 0x100 == 0
    ensures h / 0x100 * 0x100 + low < m
  {
    var whole := m / 0x100;
    assert m == whole * 0x100;
    assert h / 0x100 < whole;
  }

  lemma MixTwice(p: Params, h: nat, b: byte)
    requires Sound(p) && h < p.modulus
    ensures Mix(h, b) < p.modulus && Mix(Mix(h, b), b) == h
  {
    hide Xor, Sound;
    Pow2Eight();
    XorBounded(h % 0x100, b, 8);
    XorTwice(h % 0x100, b, 8);
    var low := Xor(h % 0x100, b, 8);
    HighAndLow(h / 0x100, low);
    WholeBytes(p);
    StaysBelow(h, low, p.modulus);
  }

  lemma WholeBytes(p: Params)
    requires Sound(p)
    ensures p.modulus % 0x100 == 0
  {
  }

  lemma MixTellsBytesApart(h: nat, b: byte, c: byte)
    requires Mix(h, b) == Mix(h, c)
    ensures b == c
  {
    Pow2Eight();
    var low := h % 0x100;
    XorCommutes(low, b, 8);
    XorCommutes(low, c, 8);
    XorTwice(b, low, 8);
    XorTwice(c, low, 8);
  }

  /** `(x * y % m) * z % m == x * (y * z) % m`. */
  lemma ModMulAssoc(x: nat, y: nat, z: nat, m: nat)
    requires m > 0
    ensures ((x * y % m) * z) % m == (x * (y * z)) % m
  {
    ModTimes(x * y, z, m);
    TimesAssoc(x, y, z);
  }

  lemma TimesAssoc(x: nat, y: nat, z: nat)
    ensures x * (y * z) == (x * y) * z
  {
  }

  lemma TimesDistributes(x: nat, y: nat, z: nat)
    ensures (x + y) * z == x * z + y * z
  {
  }

  lemma TimesSwaps(q: nat, m: nat, z: nat)
    ensures (q * m) * z == (q * z) * m
  {
    TimesAssoc(q, m, z);
    TimesAssoc(q, z, m);
    assert m * z == z * m;
  }

  lemma ModTimes(p: nat, z: nat, m: nat)
    requires m > 0
    ensures ((p % m) * z) % m == (p * z) % m
  {
    var q, r := p / m, p % m;
    assert p == q * m + r;
    TimesDistributes(q * m, r, z);
    TimesSwaps(q, m, z);
    ModDropMultiple(r * z, q * z, m);
  }

  lemma {:induction false} ModDropMultiple(r: nat, k: nat, m: nat)
    requires m > 0
    ensures (k * m + r) % m == r % m
  {
    var q := r / m;
    assert k * m + r == (k + q) * m + r % m;
    ModUnique(k * m + r, k + q, r % m, m);
  }

  lemma ModUnique(x: nat, q: nat, r: nat, m: nat)
    requires m > 0 && r < m && x == q * m + r
    ensures x % m == r
  {
    var q' := x / m;
    assert x == q' * m + x % m;
    assert (q - q') * m == q * m - q' * m == x % m - r;
    assert (q' - q) * m == q' * m - q * m;
    if q' < q {
      AtLeastOneTimes(q - q', m);
    } else if q' > q {
      AtLeastOneTimes(q' - q, m);
    }
  }

  lemma AtLeastOneTimes(k: nat, m: nat)
    requires k >= 1
    ensures k * m >= m
  {
    assert k * m == m + (k - 1) * m;
  }

  lemma Distribute(x: nat, k: nat, m: nat)
    ensures x * (k * m + 1) == (x * k) * m + x
  {
    assert x * (k * m + 1) == x * (k * m) + x;
  }

  /** Multiplying by the prime and then by its inverse, modulo the width, changes nothing. */
  lemma InverseCancels(p: Params, x: nat, y: nat, z: nat)
    requires Sound(p) && x < p.modulus && (y * z) % p.modulus == 1
    ensures ((x * y % p.modulus) * z) % p.modulus == x
  {
    ModMulAssoc(x, y, z, p.modulus);
    TimesOne(x, y * z, p.modulus);
  }

  lemma TimesOne(x: nat, w: nat, m: nat)
    requires x < m && w % m == 1
    ensures (x * w) % m == x
  {
    var k := w / m;
    assert w == k * m + 1;
    Distribute(x, k, m);
    ModUnique(x * w, x * k, x, m);
  }

  /** One FNV step, for a fixed byte, is a bijection on hash values: `Unstep` is its inverse both ways. */
  lemma StepIsBijective(p: Params, h: nat, b: byte)
    requires Sound(p) && h < p.modulus
    ensures Step(p, h, b) < p.modulus && Unstep(p, Step(p, h, b), b) == h
    ensures Unstep(p, h, b) < p.modulus && Step(p, Unstep(p, h, b), b) == h
  {
    MixTwice(p, h, b);
    InverseCancels(p, Mix(h, b), p.prime, p.inverse);
    var back := (h * p.inverse) % p.modulus;
    MixTwice(p, back, b);
    assert p.inverse * p.prime == p.prime * p.inverse;
    InverseCancels(p, h, p.inverse, p.prime);
  }

  lemma StepTellsBytesApart(p: Params, h: nat, b: byte, c: byte)
    requires Sound(p) && h < p.modulus && b != c
    ensures Step(p, h, b) != Step(p, h, c)
  {
    MixTwice(p, h, b);
    MixTwice(p, h, c);
    InverseCancels(p, Mix(h, b), p.prime, p.inverse);
    InverseCancels(p, Mix(h, c), p.prime, p.inverse);
    if Mix(h, b) == Mix(h, c) {
      MixTellsBytesApart(h, b, c);
    }
  }

  lemma {:induction false} EatConcat(p: Params, h: nat, a: seq<byte>, b: seq<byte>)
    requires p.modulus > 0
    ensures Eat(p, h, a + b) == Eat(p, Eat(p, h, a), b)
    decreases a
  {
    if a == [] {
      assert a + b == b;
    } else {
      assert (a + b)[1..] == a[1..] + b;
      EatConcat(p, Step(p, h, a[0]), a[1..], b);
    }
  }

  lemma {:induction false} EatBounded(p: Params, h: nat, s: seq<byte>)
    requires Sound(p) && h < p.modulus
    ensures Eat(p, h, s) < p.modulus
    decreases s
  {
    if s != [] {
      EatBounded(p, Step(p, h, s[0]), s[1..]);
    }
  }

  /** Hashes that differ keep differing for as long as the same bytes follow. */
  lemma {:induction false} EatTellsSeedsApart(p: Params, h: nat, g: nat, s: seq<byte>)
    requires Sound(p) && h < p.modulus && g < p.modulus && h != g
    ensures Eat(p, h, s) != Eat(p, g, s)
    decreases s
  {
    if s != [] {
      StepIsBijective(p, h, s[0]);
      StepIsBijective(p, g, s[0]);
      EatTellsSeedsApart(p, Step(p, h, s[0]), Step(p, g, s[0]), s[1..]);
    }
  }

  /** Changing exactly one byte of a chunk always changes its hash. */
  lemma EatTellsOneByteApart(p: Params, h: nat, s: seq<byte>, i: nat, b: byte)
    requires Sound(p) && h < p.modulus && i < |s| && b != s[i]
    ensures Eat(p, h, s[i := b]) != Eat(p, h, s)
  {
    var pre, post := s[..i], s[i + 1..];
    assert s == pre + ([s[i]] + post);
    assert s[i := b] == pre + ([b] + post);
    EatConcat(p, h, pre, [s[i]] + post);
    EatConcat(p, h, pre, [b] + post);
    EatBounded(p, h, pre);
    var mid := Eat(p, h, pre);
    EatConcat(p, mid, [s[i]], post);
    EatConcat(p, mid, [b], post);
    StepIsBijective(p, mid, s[i]);
    StepIsBijective(p, mid, b);
    StepTellsBytesApart(p, mid, s[i], b);
    assert Eat(p, mid, [b]) == Step(p, mid, b) && Eat(p, mid, [s[i]]) == Step(p, mid, s[i]);
    EatTellsSeedsApart(p, Step(p, mid, b), Step(p, mid, s[i]), post);
  }
}
