/** The 128-bit product of two 64-bit numbers, from 32-bit limbs. */
module WideMultiply {
  const WORD := 0x1_0000_0000
  const LONG := 0x1_0000_0000_0000_0000

  type U64 = x: int | 0 <= x < LONG
  type I64 = x: int | -LONG / 2 <= x < LONG / 2

  /** 64-bit arithmetic wraps. */
  function Wrap(x: int): (r: U64)
    ensures 0 <= x < LONG ==> r == x
  {
    x % LONG
  }

  function Signed(x: U64): I64 {
    if x < LONG / 2 then x else x - LONG
  }

  lemma Quotient(x: nat)
    ensures x == WORD * (x / WORD) + x % WORD && 0 <= x % WORD < WORD
    ensures x < LONG ==> x / WORD < WORD
  {
  }

  /** Products of limbs fit in 64 bits. */
  lemma LimbProduct(x: nat, y: nat)
    requires x < WORD && y < WORD
    ensures 0 <= x * y <= (WORD - 1) * (WORD - 1) < LONG
  {
    assert x * y <= (WORD - 1) * y by { MulMono(x, WORD - 1, y); }
    assert (WORD - 1) * y <= (WORD - 1) * (WORD - 1);
  }

  lemma MulMono(x: nat, x': nat, y: nat)
    requires x <= x'
    ensures x * y <= x' * y
  {
  }

  /** The product in limbs. */
  lemma Expand(ah: int, al: int, bh: int, bl: int)
    ensures (WORD * ah + al) * (WORD * bh + bl) == LONG * (ah * bh) + WORD * (al * bh) + WORD * (ah * bl) + al * bl
  {
    calc {
      (WORD * ah + al) * (WORD * bh + bl);
      WORD * ah * (WORD * bh + bl) + al * (WORD * bh + bl);
      WORD * ah * (WORD * bh) + WORD * ah * bl + al * (WORD * bh) + al * bl;
      LONG * (ah * bh) + WORD * (al * bh) + WORD * (ah * bl) + al * bl;
    }
  }

  /** The carries: adding the cross products a half at a time adds them whole. */
  lemma Carries(ll: nat, lh: nat, hl: nat, hh: nat, cross: nat)
    requires cross == ll / WORD + lh % WORD + hl % WORD
    ensures var hi := hh + lh / WORD + hl / WORD + cross / WORD;
            LONG * hi + WORD * (cross % WORD) + ll % WORD == LONG * hh + WORD * lh + WORD * hl + ll
  {
    Quotient(ll);
    Quotient(lh);
    Quotient(hl);
    Quotient(cross);
  }

  lemma HighFits(hi: nat, lo: nat, a: U64, b: U64)
    requires LONG * hi + lo == a * b
    ensures hi < LONG
  {
    assert a * b <= (LONG - 1) * b by { MulMono(a, LONG - 1, b); }
    assert (LONG - 1) * b < LONG * LONG;
  }

  /** `DMULTU`: the exact product. Every step wraps at 64 bits; none has to. */
  method DMultU(a: U64, b: U64) returns (lo: U64, hi: U64)
    ensures LONG * hi + lo == a * b
  {
    var aLo, aHi := a % WORD, a / WORD;
    var bLo, bHi := b % WORD, b / WORD;
    Quotient(a);
    Quotient(b);
    LimbProduct(aLo, bLo);
    LimbProduct(aLo, bHi);
    LimbProduct(aHi, bLo);
    LimbProduct(aHi, bHi);
    var ll := Wrap(aLo * bLo);
    var lh := Wrap(aLo * bHi);
    var hl := Wrap(aHi * bLo);
    var hh := Wrap(aHi * bHi);
    Quotient(ll);
    var cross := Wrap(Wrap(ll / WORD + lh % WORD) + hl % WORD);
    Quotient(cross);
    lo := Wrap(ll % WORD + Wrap(cross * WORD));
    hi := Wrap(Wrap(Wrap(hh + lh / WORD) + hl / WORD) + cross / WORD);
    Exact(a, b, aLo, aHi, bLo, bHi, ll, lh, hl, hh, cross, lo, hi);
  }

  lemma ShiftedWrap(cross: nat)
    requires cross < LONG
    ensures (cross * WORD) % LONG == (cross % WORD) * WORD
  {
    Quotient(cross);
    assert cross * WORD == LONG * (cross / WORD) + (cross % WORD) * WORD;
  }

  lemma Exact(a: U64, b: U64, aLo: nat, aHi: nat, bLo: nat, bHi: nat, ll: U64, lh: U64, hl: U64, hh: U64, cross: U64,
              lo: U64, hi: U64)
    requires a == WORD * aHi + aLo && b == WORD * bHi + bLo
    requires ll == aLo * bLo && lh == aLo * bHi && hl == aHi * bLo && hh == aHi * bHi
    requires cross == ll / WORD + lh % WORD + hl % WORD
    requires lo == Wrap(ll % WORD + Wrap(cross * WORD))
             && hi == Wrap(Wrap(Wrap(hh + lh / WORD) + hl / WORD) + cross / WORD)
    ensures LONG * hi + lo == a * b
  {
    Expand(aHi, aLo, bHi, bLo);
    Carries(ll, lh, hl, hh, cross);
    ShiftedWrap(cross);
    Quotient(ll);
    Quotient(cross);
    HighFits(hh + lh / WORD + hl / WORD + cross / WORD, WORD * (cross % WORD) + ll % WORD, a, b);
  }

  /** `DMULT`: the unsigned product with its high word corrected. */
  method DMult(a: I64, b: I64) returns (lo: U64, hi: I64)
    ensures LONG * hi + lo == a * b
  {
    hide Wrap, Signed;
    var ua, ub := Wrap(a), Wrap(b);
    var uLo, uHi := DMultU(ua, ub);
    var high := uHi;
    if a < 0 {
      high := Wrap((high as int) - ub);
    }
    if b < 0 {
      high := Wrap((high as int) - ua);
    }
    Corrected(a, b, uLo, uHi, high);
    lo, hi := uLo, Signed(high);
  }

  lemma WrapSigned(x: I64)
    ensures Wrap(x) == if x < 0 then x + LONG else x
  {
  }

  function Sign(x: I64): int {
    if x < 0 then 1 else 0
  }

  /** The correction is right modulo 2^64, and the product is small enough. */
  lemma Corrected(a: I64, b: I64, uLo: U64, uHi: U64, high: U64)
    requires LONG * uHi + uLo == Wrap(a) * Wrap(b)
    requires high == (var h := if a < 0 then Wrap((uHi as int) - Wrap(b)) else uHi;
                      if b < 0 then Wrap((h as int) - Wrap(a)) else h)
    ensures LONG * Signed(high) + uLo == a * b
  {
    WrapSigned(a);
    WrapSigned(b);
    var x, y := Sign(a), Sign(b);
    assert Wrap(a) == a + LONG * x && Wrap(b) == b + LONG * y;
    var t := uHi - x * b - y * a - LONG * (x * y);
    assert LONG * t + uLo == a * b by { Unsigned(a, b, x, y); }
    TopHalf(a, b, t, uLo);
    Residue(high, t, uHi, a, b);
  }

  lemma Unsigned(a: int, b: int, x: int, y: int)
    ensures (a + LONG * x) * (b + LONG * y) == a * b + LONG * (x * b) + LONG * (y * a) + LONG * (LONG * (x * y))
  {
    calc {
      (a + LONG * x) * (b + LONG * y);
      a * (b + LONG * y) + LONG * x * (b + LONG * y);
      a * b + a * (LONG * y) + LONG * x * b + LONG * x * (LONG * y);
      a * b + LONG * (x * b) + LONG * (y * a) + LONG * (LONG * (x * y));
    }
  }

  lemma TopHalf(a: I64, b: I64, t: int, lo: U64)
    requires LONG * t + lo == a * b
    ensures -LONG / 2 <= t < LONG / 2
  {
    var h := LONG / 2;
    assert -(h * h) <= a * b <= h * h by { Bounded(a, b, h); }
  }

  lemma Bounded(a: int, b: int, h: int)
    requires 0 <= h && -h <= a <= h && -h <= b <= h
    ensures -(h * h) <= a * b <= h * h
  {
    var x, y := if a < 0 then -a else a, if b < 0 then -b else b;
    assert x * y <= h * y by { MulMono(x, h, y); }
    assert h * y <= h * h by { MulMono(y, h, h); }
    assert a * b == x * y || a * b == -(x * y);
  }

  lemma Residue(high: U64, t: int, uHi: U64, a: I64, b: I64)
    requires high == (var h := if a < 0 then Wrap((uHi as int) - Wrap(b)) else uHi;
                      if b < 0 then Wrap((h as int) - Wrap(a)) else h)
    requires t == uHi - Sign(a) * b - Sign(b) * a - LONG * (Sign(a) * Sign(b)) && -LONG / 2 <= t < LONG / 2
    ensures Signed(high) == t
  {
    WrapSigned(a);
    WrapSigned(b);
  }
}
