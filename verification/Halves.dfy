/** Splitting an address into the immediates of a `lui` and of the instruction that
    adds the sign-extended low half. */
module Halves {
  import opened Machine

  type Half = h: nat | h < 0x1_0000

  /** `(int16_t)x` as a 32-bit value. */
  function Extended(lo: Half): Addr {
    if lo < 0x8000 then lo else lo + 0xFFFF_0000
  }

  function Shifted(hi: nat): Addr {
    (hi * 0x1_0000) % WORD
  }

  /** The address that a `lui` and a low immediate add up to. */
  function Joined(hi: Half, lo: Half): Addr {
    Add(Shifted(hi), Extended(lo))
  }

  /** The macros `HI16` and `LO16`. The high half can be 0x10000. */
  function High(x: Addr): nat {
    x / 0x1_0000 + (x / 0x8000) % 2
  }

  function Low16(x: Addr): Half {
    x % 0x1_0000
  }

  lemma HighIs(x: Addr)
    ensures High(x) == (if Low16(x) < 0x8000 then x / 0x1_0000 else x / 0x1_0000 + 1)
  {
    var q, r := x / 0x1_0000, x % 0x1_0000;
    assert x == 0x1_0000 * q + r;
    assert x / 0x8000 == 2 * q + r / 0x8000;
  }

  /** The two immediates rebuild the address, whatever it is. */
  lemma HalvesRebuild(x: Addr)
    ensures Add(Shifted(High(x)), Extended(Low16(x))) == x
  {
    HighIs(x);
    var q, r := x / 0x1_0000, Low16(x);
    assert x == 0x1_0000 * q + r;
  }

  /** At the link address the immediates are the ones the code was linked with; a high
      half of 0x10000 stands for 0. */
  lemma HalvesReproduce(hi: Half, lo: Half)
    ensures Low16(Joined(hi, lo)) == lo && High(Joined(hi, lo)) % 0x1_0000 == hi
  {
    hide Low16, High;
    if lo < 0x8000 {
      Parts(hi, lo);
    } else if hi > 0 {
      Parts(hi - 1, lo);
    } else {
      Parts(0xFFFF, lo);
    }
  }

  lemma Parts(q: Half, r: Half)
    ensures var x: Addr := 0x1_0000 * q + r; Low16(x) == r && High(x) == if r < 0x8000 then q else q + 1
  {
    var x: Addr := 0x1_0000 * q + r;
    assert x / 0x1_0000 == q && x % 0x1_0000 == r;
    HighIs(x);
  }

  // ----- The JIT's form -----

  const LONG: nat := WORD * WORD

  /** `(int32_t)` of a 32-bit value, in a 64-bit register. */
  function Wide(a: Addr): nat {
    SignExtend(a)
  }

  /** A `lui` under a relocation in the C back end: 32 bits, sign extended. */
  function CLui(base: Addr, offset: Addr): nat {
    Wide(Shifted(High(Add(base, offset))))
  }

  /** The same in the JIT: the sign-extended base plus the zero-extended offset, less
      its sign-extended low half, all in 64 bits. */
  function JitLui(base: Addr, offset: Addr): nat {
    var a := (Wide(base) + offset) % LONG;
    var low := a % 0x1_0000;
    (a + LONG - (if low < 0x8000 then low else low + LONG - 0x1_0000)) % LONG
  }

  /** The sum of base and offset as a signed number. */
  function SignedSum(base: Addr, offset: Addr): int {
    (if base < WORD / 2 then base else base - WORD) + offset
  }

  /** The address less its sign-extended low half, as a signed number. */
  function SignedHigh(base: Addr, offset: Addr): int {
    var s := SignedSum(base, offset);
    s - (if s % 0x1_0000 < 0x8000 then s % 0x1_0000 else s % 0x1_0000 - 0x1_0000)
  }

  lemma JitLuiIs(base: Addr, offset: Addr)
    ensures var h := SignedHigh(base, offset);
            JitLui(base, offset) == if h >= 0 then h else h + LONG
  {
    var s := SignedSum(base, offset);
    var a := (Wide(base) + offset) % LONG;
    assert a == if s >= 0 then s else s + LONG;
    assert a % 0x1_0000 == s % 0x1_0000 by { ShiftMod(s); }
  }

  lemma ShiftMod(s: int)
    ensures (s + LONG) % 0x1_0000 == s % 0x1_0000
  {
    assert s + LONG == s + 0x1_0000 * (LONG / 0x1_0000);
  }

  lemma CLuiIs(base: Addr, offset: Addr)
    ensures var h := SignedHigh(base, offset) % WORD;
            0 <= h && CLui(base, offset) == Wide(h)
  {
    var x, s := Add(base, offset), SignedSum(base, offset);
    assert x == s % WORD;
    HighIs(x);
    var q, r := x / 0x1_0000, Low16(x);
    assert x == 0x1_0000 * q + r;
    assert s % 0x1_0000 == r by { WordMod(s); }
    var k := s / WORD;
    assert s == WORD * k + x;
    assert SignedHigh(base, offset) == WORD * k + 0x1_0000 * High(x);
    WordShift(0x1_0000 * High(x), k);
  }

  lemma WordMod(s: int)
    ensures (s % WORD) % 0x1_0000 == s % 0x1_0000
  {
    var k, x := s / WORD, s % WORD;
    HalfMod(x, x / 0x1_0000, x % 0x1_0000);
    HalfMod(s, 0x1_0000 * k + x / 0x1_0000, x % 0x1_0000);
  }

  lemma HalfMod(x: int, q: int, r: Half)
    requires x == 0x1_0000 * q + r
    ensures x % 0x1_0000 == r
  {
  }

  lemma WordShift(x: int, k: int)
    ensures (WORD * k + x) % WORD == x % WORD
  {
  }

  /** The back ends leave the same low word, and the same register exactly when the
      high part of the address, as a signed sum, fits in 32 bits. */
  lemma LuisAgree(base: Addr, offset: Addr)
    ensures CLui(base, offset) % WORD == JitLui(base, offset) % WORD
    ensures CLui(base, offset) == JitLui(base, offset) <==> -(WORD / 2) <= SignedHigh(base, offset) < WORD / 2
  {
    hide CLui, JitLui, SignedHigh;
    JitLuiIs(base, offset);
    CLuiIs(base, offset);
    SignedHighBounds(base, offset);
    SignMod(SignedHigh(base, offset));
  }

  /** An address just below the middle of the address space whose low half is negative. */
  lemma LuisDiffer()
    ensures CLui(0x7FFF_8000, 0) == 0xFFFF_FFFF_8000_0000 && JitLui(0x7FFF_8000, 0) == 0x8000_0000
  {
  }

  lemma SignedHighBounds(base: Addr, offset: Addr)
    ensures -(WORD as int) <= SignedHigh(base, offset) < 2 * WORD
  {
  }

  lemma SignMod(h: int)
    requires -(WORD as int) <= h < 2 * WORD
    ensures var c, j := Wide(h % WORD), if h >= 0 then h else h + LONG;
            c % WORD == j % WORD && (c == j <==> -(WORD / 2) <= h < WORD / 2)
  {
    var r := h % WORD;
    assert r == if h < 0 then h + WORD else if h < WORD then h else h - WORD;
  }
}
