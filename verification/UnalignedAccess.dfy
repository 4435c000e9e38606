/** Guest memory accesses as both back ends perform them: the C helpers on the masked
    window, and the instruction sequences of the JIT, which do not mask. */
module UnalignedAccess {
  import opened Lanes
  import opened GuestMemory

  /** The JIT addresses memory from a register that holds the buffer less the base. */
  predicate InWindow(a: Address) {
    BASE <= a < BASE + WINDOW
  }

  lemma InWindowOffset(a: Address)
    requires InWindow(a)
    ensures Offset(a) == a - BASE
  {
  }

  function RotateHalves(x: Long): Long {
    x[4..] + x[..4]
  }

  lemma HalvesSwap(x: Word, y: Word)
    ensures RotateHalves(y + x) == x + y
  {
  }

  // ----- What the JIT's masks do -----

  /** The JIT's merge of a loaded word into a register. */
  lemma MaskedLeft(word: Word, dst: Long, n: nat)
    requires n < 4
    ensures var mask := Lanes.SignExtend(Lsl(Ones(4), n));
            Or(And(dst, Not(mask)), And(Lanes.SignExtend(Low(Lsl(Lanes.SignExtend(word), n))), mask))
            == Lanes.SignExtend(word[n..] + Low(dst)[4 - n..])
  {
    var mask := Lanes.SignExtend(Lsl(Ones(4), n));
    var shifted := Lanes.SignExtend(Low(Lsl(Lanes.SignExtend(word), n)));
    var merged := word[n..] + Low(dst)[4 - n..];
    forall i | 0 <= i < 8
      ensures (dst[i] & !mask[i]) | (shifted[i] & mask[i]) == Lanes.SignExtend(merged)[i]
    {
      KeepsByte(dst[i]);
      KeepsByte(shifted[i]);
    }
  }

  lemma MaskedRight(word: Word, dst: Long, n: nat)
    requires n < 4
    ensures var mask := Lanes.SignExtend(Lsr(Ones(4), n));
            Or(And(dst, Not(mask)), And(Lsr(Lanes.SignExtend(word), n), mask))
            == (if n == 0 then Lanes.SignExtend(word) else dst[..4 + n] + word[..4 - n])
  {
    var mask := Lanes.SignExtend(Lsr(Ones(4), n));
    var shifted := Lsr(Lanes.SignExtend(word), n);
    var merged := if n == 0 then Lanes.SignExtend(word) else dst[..4 + n] + word[..4 - n];
    forall i | 0 <= i < 8
      ensures (dst[i] & !mask[i]) | (shifted[i] & mask[i]) == merged[i]
    {
      assert mask[i] == if n > 0 && i < 4 + n then 0 else 0xFF;
      KeepsByte(dst[i]);
      KeepsByte(shifted[i]);
    }
  }

  /** Masking a shifted value before or after merging comes to the same. */
  lemma MaskedMerge(prior: Lane, value: Lane, mask: Lane, i: nat)
    requires |prior| == |value| == |mask| && i < |mask| && (mask[i] == 0 || mask[i] == 0xFF)
    ensures Or(And(prior, Not(mask)), And(value, mask))[i] == if mask[i] == 0 then prior[i] else value[i]
    ensures Or(And(value, mask), And(prior, Not(mask)))[i] == if mask[i] == 0 then prior[i] else value[i]
  {
    KeepsByte(prior[i]);
    KeepsByte(value[i]);
  }

  // ----- The host buffer -----

  class Rdram {
    const data: array<bv8>

    ghost predicate Valid()
      reads this
    {
      data.Length == WINDOW
    }

    ghost function Contents(): Memory
      reads this, data
      requires Valid()
    {
      data[..]
    }

    constructor (data: array<bv8>)
      requires data.Length == WINDOW
      ensures Valid() && this.data == data
    {
      this.data := data;
    }

    /** The host word at `o`, and storing one. */
    method ReadHost(o: nat) returns (w: Word)
      requires Valid() && o + 4 <= WINDOW
      ensures w == HostWord(Contents(), o)
    {
      w := [data[o + 3], data[o + 2], data[o + 1], data[o]];
    }

    method WriteHost(o: nat, w: Word)
      requires Valid() && o + 4 <= WINDOW
      modifies data
      ensures Contents() == WithHostWord(old(Contents()), o, w)
    {
      data[o] := w[3];
      data[o + 1] := w[2];
      data[o + 2] := w[1];
      data[o + 3] := w[0];
    }

    method MemW(a: Address) returns (w: Word)
      requires Valid() && Aligned(a, 4)
      ensures w == LoadWord(Contents(), a)
    {
      OffsetIs(a);
      w := ReadHost(Offset(a));
    }

    method SetMemW(a: Address, w: Word)
      requires Valid() && Aligned(a, 4)
      modifies data
      ensures Contents() == StoreWord(old(Contents()), a, w)
    {
      OffsetIs(a);
      WriteHost(Offset(a), w);
    }

    /** `SD`, and the last lines of `do_sdl` and `do_sdr`. */
    method Sd(a: Address, val: Long)
      requires Valid() && Aligned(a, 4)
      modifies data
      ensures Contents() == StoreLong(old(Contents()), a, val)
    {
      SetMemW(Plus(a, 4), val[4..]);
      SetMemW(a, val[..4]);
    }

    method Ld(a: Address) returns (r: Long)
      requires Valid() && Aligned(a, 4)
      ensures r == LoadLong(Contents(), a)
    {
      var lo: Lane := MemW(Plus(a, 4));
      var hi: Lane := MemW(a);
      r := hi + lo;
    }

    // ----- The C helpers -----

    method DoSwl(a: Address, val: Long)
      requires Valid()
      modifies data
      ensures Contents() == Swl(old(Contents()), a, val)
    {
      hide Or, And, Not, Lsl, Lsr, LoadWord, StoreWord;
      var wordAddress := Down4(a);
      var initial := MemW(wordAddress);
      var misalignment := a % 4;
      var masked := And(initial, Not(Lsr(Ones(4), misalignment)));
      var shifted := Lsr(Low(val), misalignment);
      SetMemW(wordAddress, Or(masked, shifted));
    }

    method DoSwr(a: Address, val: Long)
      requires Valid()
      modifies data
      ensures Contents() == Swr(old(Contents()), a, val)
    {
      hide Or, And, Not, Lsl, Lsr, LoadWord, StoreWord;
      var wordAddress := Down4(a);
      var initial := MemW(wordAddress);
      var misalignment := a % 4;
      var masked := And(initial, Not(Lsl(Ones(4), 3 - misalignment)));
      var shifted := Lsl(Low(val), 3 - misalignment);
      SetMemW(wordAddress, Or(masked, shifted));
    }

    method DoSdl(a: Address, val: Long)
      requires Valid()
      modifies data
      ensures Contents() == Sdl(old(Contents()), a, val)
    {
      hide Or, And, Not, Lsl, Lsr, LoadLong, StoreLong;
      Down8Aligned(a);
      var initial := Ld(Down8(a));
      var misalignment := a % 8;
      var masked := And(initial, Not(Lsr(Ones(8), misalignment)));
      Sd(Down8(a), Or(masked, Lsr(val, misalignment)));
    }

    method DoSdr(a: Address, val: Long)
      requires Valid()
      modifies data
      ensures Contents() == Sdr(old(Contents()), a, val)
    {
      hide Or, And, Not, Lsl, Lsr, LoadLong, StoreLong;
      Down8Aligned(a);
      var initial := Ld(Down8(a));
      var misalignment := a % 8;
      var masked := And(initial, Not(Lsl(Ones(8), 7 - misalignment)));
      Sd(Down8(a), Or(masked, Lsl(val, 7 - misalignment)));
    }

    // ----- The JIT sequences -----

    /** A 64-bit host access reads its halves in the other order; a rotate undoes that. */
    method ReadHostLong(o: nat) returns (r: Long)
      requires Valid() && o + 8 <= WINDOW
      ensures r == HostWord(Contents(), o + 4) + HostWord(Contents(), o)
    {
      var low: Lane := ReadHost(o);
      var high: Lane := ReadHost(o + 4);
      r := high + low;
    }

    method WriteHostLong(o: nat, w: Long)
      requires Valid() && o + 8 <= WINDOW
      modifies data
      ensures Contents() == WithHostWord(WithHostWord(old(Contents()), o, w[4..]), o + 4, w[..4])
    {
      WriteHost(o, w[4..]);
      WriteHost(o + 4, w[..4]);
    }

    /** `lwl` and `lwr` in the JIT. */
    method JitLoadWord(dst: Long, a: Address, left: bool) returns (r: Long)
      requires Valid() && InWindow(a)
      ensures r == JitWord(LoadWord(Contents(), Down4(a)), dst, a % 4, left)
    {
      hide HostWord, JitWord;
      InWindowDown(a);
      var temp1 := Down4(a);
      var loaded := ReadHost(temp1 - BASE);
      r := MergeWord(loaded, dst, a % 4, left);
    }

    /** `ldl` and `ldr` in the JIT. */
    method JitLoadLong(dst: Long, a: Address, left: bool) returns (r: Long)
      requires Valid() && InWindow(a)
      ensures r == JitLong(LoadLong(Contents(), Down8(a)), dst, a % 8, left)
    {
      hide HostWord, JitLong, LoadLong, Down8, InWindow;
      HostLong(Contents(), a);
      var temp1 := Down8(a);
      var loaded := ReadHostLong(temp1 - BASE);
      HalvesSwap(HostWord(Contents(), temp1 - BASE), HostWord(Contents(), temp1 - BASE + 4));
      r := MergeLong(RotateHalves(loaded), dst, a % 8, left);
    }

    /** `swl` and `swr` in the JIT. The upper half of a 32-bit mask is whatever the
        host leaves there. */
    method JitStoreWord(src: Long, a: Address, left: bool, junk: Word)
      requires Valid() && InWindow(a)
      modifies data
      ensures Down4(a) - BASE + 4 <= WINDOW && Down4(a) >= BASE
      ensures Contents() == WithHostWord(old(Contents()), Down4(a) - BASE,
                                         JitSplice(HostWord(old(Contents()), Down4(a) - BASE), src, junk, a % 4, left))
    {
      hide HostWord, WithHostWord, JitSplice;
      InWindowDown(a);
      var temp1 := Down4(a);
      var loaded := ReadHost(temp1 - BASE);
      var spliced := SpliceWord(loaded, src, junk, a % 4, left);
      WriteHost(temp1 - BASE, spliced);
    }

    /** `sdl` and `sdr` in the JIT. */
    method JitStoreLong(src: Long, a: Address, left: bool)
      requires Valid() && InWindow(a)
      modifies data
      ensures Down8(a) - BASE + 8 <= WINDOW && Down8(a) >= BASE
      ensures var o, was := Down8(a) - BASE, old(Contents());
              var value := RotateHalves(JitSpliceLong(HostWord(was, o) + HostWord(was, o + 4), src, a % 8, left));
              Contents() == WithHostWord(WithHostWord(was, o, value[4..]), o + 4, value[..4])
    {
      hide HostWord, WithHostWord, JitSpliceLong;
      InWindowDown(a);
      var temp1 := Down8(a);
      var loaded := ReadHostLong(temp1 - BASE);
      HalvesSwap(HostWord(Contents(), temp1 - BASE), HostWord(Contents(), temp1 - BASE + 4));
      var spliced := SpliceLong(RotateHalves(loaded), src, a % 8, left);
      WriteHostLong(temp1 - BASE, RotateHalves(spliced));
    }
  }

  /** The register sequence of a load, once the word is read. */
  method MergeWord(loaded: Word, dst: Long, misalignment: nat, left: bool) returns (r: Long)
    requires misalignment < 4
    ensures r == JitWord(loaded, dst, misalignment, left)
  {
    hide Or, And, Not, Lsl, Lsr, Lanes.SignExtend, Low;
    var temp1: Long := Lanes.SignExtend(loaded);
    var shift := misalignment;
    if !left {
      shift := 3 - shift;
    }
    var mask: Word := if left then Lsl(Ones(4), shift) else Lsr(Ones(4), shift);
    var temp3: Long := Lanes.SignExtend(mask);
    temp1 := if left then Lsl(temp1, shift) else Lsr(temp1, shift);
    if left {
      temp1 := Lanes.SignExtend(Low(temp1));
    }
    temp1 := And(temp1, temp3);
    temp3 := Not(temp3);
    temp3 := And(dst, temp3);
    r := Or(temp3, temp1);
  }

  method MergeLong(loaded: Long, dst: Long, misalignment: nat, left: bool) returns (r: Long)
    requires misalignment < 8
    ensures r == JitLong(loaded, dst, misalignment, left)
  {
    hide Or, And, Not, Lsl, Lsr;
    var temp1: Long := loaded;
    var shift := misalignment;
    if !left {
      shift := 7 - shift;
    }
    var temp3: Long := if left then Lsl(Ones(8), shift) else Lsr(Ones(8), shift);
    temp1 := if left then Lsl(temp1, shift) else Lsr(temp1, shift);
    temp1 := And(temp1, temp3);
    temp3 := Not(temp3);
    temp3 := And(dst, temp3);
    r := Or(temp3, temp1);
  }

  /** The register sequence of a store, between reading the old word and writing it. */
  method SpliceWord(loaded: Word, src: Long, junk: Word, misalignment: nat, left: bool) returns (r: Word)
    requires misalignment < 4
    ensures r == JitSplice(loaded, src, junk, misalignment, left)
  {
    hide Or, And, Not, Lsl, Lsr, Lanes.SignExtend, Low;
    var temp2 := misalignment;
    var temp3: Long := Lanes.SignExtend(loaded);
    if !left {
      temp2 := 3 - temp2;
    }
    var temp4: Long := if left then Lsr(src, temp2) else Lsl(src, temp2);
    var mask: Long := junk + (if left then Lsr(Ones(4), temp2) else Lsl(Ones(4), temp2));
    temp4 := And(temp4, mask);
    mask := Not(mask);
    temp3 := And(temp3, mask);
    temp4 := Or(temp4, temp3);
    r := Low(temp4);
  }

  method SpliceLong(loaded: Long, src: Long, misalignment: nat, left: bool) returns (r: Long)
    requires misalignment < 8
    ensures r == JitSpliceLong(loaded, src, misalignment, left)
  {
    hide Or, And, Not, Lsl, Lsr;
    var temp2 := misalignment;
    var temp3: Long := loaded;
    if !left {
      temp2 := 7 - temp2;
    }
    var temp4: Long := if left then Lsr(src, temp2) else Lsl(src, temp2);
    var mask: Long := if left then Lsr(Ones(8), temp2) else Lsl(Ones(8), temp2);
    temp4 := And(temp4, mask);
    mask := Not(mask);
    temp3 := And(temp3, mask);
    r := Or(temp4, temp3);
  }

  // ----- The JIT against the helpers -----

  function JitWord(word: Word, dst: Long, misalignment: nat, left: bool): Long
    requires misalignment < 4
  {
    var n := if left then misalignment else 3 - misalignment;
    var mask := Lanes.SignExtend(if left then Lsl(Ones(4), n) else Lsr(Ones(4), n));
    var wide := Lanes.SignExtend(word);
    var value := if left then Lanes.SignExtend(Low(Lsl(wide, n))) else Lsr(wide, n);
    Or(And(dst, Not(mask)), And(value, mask))
  }

  function JitLong(word: Long, dst: Long, misalignment: nat, left: bool): Long
    requires misalignment < 8
  {
    var n := if left then misalignment else 7 - misalignment;
    var mask := if left then Lsl(Ones(8), n) else Lsr(Ones(8), n);
    Or(And(dst, Not(mask)), And(if left then Lsl(word, n) else Lsr(word, n), mask))
  }

  function JitSplice(word: Word, src: Long, junk: Word, misalignment: nat, left: bool): Word
    requires misalignment < 4
  {
    var n := if left then misalignment else 3 - misalignment;
    var mask: Long := junk + (if left then Lsr(Ones(4), n) else Lsl(Ones(4), n));
    var shifted: Long := if left then Lsr(src, n) else Lsl(src, n);
    Low(Or(And(shifted, mask), And(Lanes.SignExtend(word), Not(mask))))
  }

  function JitSpliceLong(word: Long, src: Long, misalignment: nat, left: bool): Long
    requires misalignment < 8
  {
    var n := if left then misalignment else 7 - misalignment;
    var mask := if left then Lsr(Ones(8), n) else Lsl(Ones(8), n);
    Or(And(if left then Lsr(src, n) else Lsl(src, n), mask), And(word, Not(mask)))
  }

  /** `swl` and `swr` write what the C helpers write. */
  lemma JitSwlAgrees(m: Memory, src: Long, a: Address, junk: Word, left: bool)
    requires InWindow(a)
    ensures Down4(a) - BASE + 4 <= WINDOW && Down4(a) >= BASE
    ensures WithHostWord(m, Down4(a) - BASE, JitSplice(HostWord(m, Down4(a) - BASE), src, junk, a % 4, left))
            == if left then Swl(m, a, src) else Swr(m, a, src)
  {
    hide Or, And, Not, Lsl, Lsr, HostWord, WithHostWord, Lanes.SignExtend, Low;
    InWindowDown(a);
    var word := HostWord(m, Down4(a) - BASE);
    if left { StoredLeft(word, src, junk, a % 4); } else { StoredRight(word, src, junk, 3 - a % 4); }
  }

  /** `sdl` and `sdr` likewise, with one 64-bit store for the helper's two. */
  lemma JitSdlAgrees(m: Memory, src: Long, a: Address, left: bool)
    requires InWindow(a)
    ensures Down8(a) - BASE + 8 <= WINDOW && Down8(a) >= BASE
    ensures var o := Down8(a) - BASE;
            var value := RotateHalves(JitSpliceLong(HostWord(m, o) + HostWord(m, o + 4), src, a % 8, left));
            WithHostWord(WithHostWord(m, o, value[4..]), o + 4, value[..4]) == if left then Sdl(m, a, src)
              else Sdr(m, a, src)
  {
    hide HostWord, WithHostWord, RotateHalves, StoreLong, JitSpliceLong, HelperSplice, Sdl, Sdr;
    InWindowDown(a);
    Down8Aligned(a);
    HostLong(m, a);
    var o := Down8(a) - BASE;
    var word := LoadLong(m, Down8(a));
    SpliceLongIs(word, src, a % 8, left);
    HelperSpliceIs(m, src, a);
    SplitStores(m, Down8(a), JitSpliceLong(word, src, a % 8, left));
  }

  lemma HostLong(m: Memory, a: Address)
    requires InWindow(a)
    ensures Aligned(Down8(a), 4) && Down8(a) >= BASE && Down8(a) - BASE + 8 <= WINDOW
    ensures HostWord(m, Down8(a) - BASE) + HostWord(m, Down8(a) - BASE + 4) == LoadLong(m, Down8(a))
  {
    hide HostWord, Offset, Down8, Plus, InWindow;
    InWindowDown(a);
    NextWord(a);
  }

  function HelperSplice(word: Long, src: Long, misalignment: nat, left: bool): Long
    requires misalignment < 8
  {
    if left then Or(And(word, Not(Lsr(Ones(8), misalignment))), Lsr(src, misalignment))
    else Or(And(word, Not(Lsl(Ones(8), 7 - misalignment))), Lsl(src, 7 - misalignment))
  }

  lemma SpliceLongIs(word: Long, src: Long, misalignment: nat, left: bool)
    requires misalignment < 8
    ensures JitSpliceLong(word, src, misalignment, left) == HelperSplice(word, src, misalignment, left)
  {
    hide Or, And, Not, Lsl, Lsr;
    if left { LongLeft(word, src, misalignment); } else { LongRight(word, src, 7 - misalignment); }
  }

  lemma HelperSpliceIs(m: Memory, src: Long, a: Address)
    ensures Aligned(Down8(a), 4)
    ensures Sdl(m, a, src) == StoreLong(m, Down8(a), HelperSplice(LoadLong(m, Down8(a)), src, a % 8, true))
    ensures Sdr(m, a, src) == StoreLong(m, Down8(a), HelperSplice(LoadLong(m, Down8(a)), src, a % 8, false))
  {
    hide Or, And, Not, Lsl, Lsr, LoadLong, StoreLong;
    Down8Aligned(a);
  }

  /** `lwl` agrees with the C helper for every register. */
  lemma JitLwlAgrees(m: Memory, dst: Long, a: Address)
    ensures JitWord(LoadWord(m, Down4(a)), dst, a % 4, true) == Lwl(m, dst, a)
  {
    hide Or, And, Not, Lsl, Lsr, LoadWord, Lanes.SignExtend, Low, Bytes, Lwl;
    WordIsBytes(m, Down4(a));
    MaskedLeft(LoadWord(m, Down4(a)), dst, a % 4);
    LwlBytes(m, dst, a);
  }

  /** `lwr` in the JIT keeps the upper half of the register where the C helper sign
      extends: they agree exactly when the register is sign extended, or replaced. */
  lemma JitLwrAgrees(m: Memory, dst: Long, a: Address)
    ensures JitWord(LoadWord(m, Down4(a)), dst, a % 4, false) == Lwr(m, dst, a) <==> a % 4 == 3 || IsSignExtended(dst)
  {
    hide Or, And, Not, Lsl, Lsr, LoadWord, Lanes.SignExtend, Low, Bytes, Lwr;
    WordIsBytes(m, Down4(a));
    MaskedRight(LoadWord(m, Down4(a)), dst, 3 - a % 4);
    LwrBytes(m, dst, a);
    UpperHalves(LoadWord(m, Down4(a)), dst, 3 - a % 4);
  }

  /** With 0x1_0000_0000 in the register, every `lwr` that keeps a byte of it differs. */
  lemma JitLwrDiffers(m: Memory, a: Address)
    requires a % 4 != 3
    ensures JitWord(LoadWord(m, Down4(a)), [0, 0, 0, 1, 0, 0, 0, 0], a % 4, false)
            != Lwr(m, [0, 0, 0, 1, 0, 0, 0, 0], a)
  {
    hide JitWord, LoadWord, Lwr;
    var dst: Long := [0, 0, 0, 1, 0, 0, 0, 0];
    JitLwrAgrees(m, dst, a);
    assert dst[3] != Lanes.SignExtend(Low(dst))[3];
  }

  /** Masking what was shifted changes nothing. */
  lemma MaskIsIdle(x: Lane, n: nat)
    requires n <= |x|
    ensures And(Lsl(x, n), Lsl(Ones(|x|), n)) == Lsl(x, n) && And(Lsr(x, n), Lsr(Ones(|x|), n)) == Lsr(x, n)
  {
    forall i | 0 <= i < |x|
      ensures Lsl(x, n)[i] & Lsl(Ones(|x|), n)[i] == Lsl(x, n)[i] && Lsr(x, n)[i] & Lsr(Ones(|x|), n)[i] == Lsr(x, n)[i]
    {
      KeepsByte(Lsl(x, n)[i]);
      KeepsByte(Lsr(x, n)[i]);
    }
  }

  lemma OrCommutes(x: Lane, y: Lane)
    requires |x| == |y|
    ensures Or(x, y) == Or(y, x)
  {
    forall i | 0 <= i < |x|
      ensures x[i] | y[i] == y[i] | x[i]
    {
    }
  }

  lemma JitLdlAgrees(m: Memory, dst: Long, a: Address)
    ensures JitLong(LoadLong(m, Down8(a)), dst, a % 8, true) == Ldl(m, dst, a)
    ensures JitLong(LoadLong(m, Down8(a)), dst, a % 8, false) == Ldr(m, dst, a)
  {
    hide Or, And, Not, Lsl, Lsr, LoadLong;
    Down8Aligned(a);
    MaskIsIdle(LoadLong(m, Down8(a)), a % 8);
    MaskIsIdle(LoadLong(m, Down8(a)), 7 - a % 8);
  }

  lemma InWindowDown(a: Address)
    requires InWindow(a)
    ensures InWindow(Down4(a)) && Down4(a) - BASE + 4 <= WINDOW && Offset(Down4(a)) == Down4(a) - BASE
    ensures InWindow(Down8(a)) && Down8(a) - BASE + 8 <= WINDOW && Offset(Down8(a)) == Down8(a) - BASE
  {
    InWindowOffset(Down4(a));
    InWindowOffset(Down8(a));
  }

  lemma UpperHalves(word: Word, dst: Long, n: nat)
    requires n < 4
    ensures (if n == 0 then Lanes.SignExtend(word) else dst[..4 + n] + word[..4 - n])
            == Lanes.SignExtend(Low(dst)[..n] + word[..4 - n])
            <==> n == 0 || IsSignExtended(dst)
  {
    var x, y := dst[..4 + n] + word[..4 - n], Lanes.SignExtend(Low(dst)[..n] + word[..4 - n]);
    if n > 0 {
      assert forall i :: 0 <= i < 4 ==> x[i] == dst[i] && y[i] == Lanes.SignExtend(Low(dst))[i];
      assert x[4..] == y[4..];
      if x == y {
        assert forall i :: 0 <= i < 4 ==> dst[i] == Lanes.SignExtend(Low(dst))[i];
      }
    } else {
      assert word[..4] == word && Low(dst)[..0] + word == word;
    }
  }

  lemma NextWord(a: Address)
    requires InWindow(a)
    ensures Aligned(Down8(a), 4) && Offset(Plus(Down8(a), 4)) == Down8(a) - BASE + 4
  {
    InWindowDown(a);
    Down8Aligned(a);
    assert Plus(Down8(a), 4) == if Down8(a) + 4 < SPACE then Down8(a) + 4 else Down8(a) + 4 - SPACE;
    InWindowOffset(Plus(Down8(a), 4));
  }

  /** The word that a left store writes back. */
  lemma StoredLeft(word: Word, src: Long, junk: Word, n: nat)
    requires n < 4
    ensures var mask: Long := junk + Lsr(Ones(4), n);
            Low(Or(And(Lsr(src, n), mask), And(Lanes.SignExtend(word), Not(mask))))
            == Or(And(word, Not(Lsr(Ones(4), n))), Lsr(Low(src), n))
  {
    var mask: Long := junk + Lsr(Ones(4), n);
    var x := Low(Or(And(Lsr(src, n), mask), And(Lanes.SignExtend(word), Not(mask))));
    MergeRight(word, Low(src), n);
    var y := word[..n] + Low(src)[..4 - n];
    forall i | 0 <= i < 4
      ensures x[i] == y[i]
    {
      MaskedMerge(Lanes.SignExtend(word), Lsr(src, n), mask, 4 + i);
    }
    assert x == y;
  }

  lemma StoredRight(word: Word, src: Long, junk: Word, n: nat)
    requires n < 4
    ensures var mask: Long := junk + Lsl(Ones(4), n);
            Low(Or(And(Lsl(src, n), mask), And(Lanes.SignExtend(word), Not(mask))))
            == Or(And(word, Not(Lsl(Ones(4), n))), Lsl(Low(src), n))
  {
    var mask: Long := junk + Lsl(Ones(4), n);
    var x := Low(Or(And(Lsl(src, n), mask), And(Lanes.SignExtend(word), Not(mask))));
    MergeLeft(word, Low(src), n);
    var y := Low(src)[n..] + word[4 - n..];
    forall i | 0 <= i < 4
      ensures x[i] == y[i]
    {
      MaskedMerge(Lanes.SignExtend(word), Lsl(src, n), mask, 4 + i);
    }
    assert x == y;
  }

  lemma LongLeft(word: Long, src: Long, n: nat)
    requires n < 8
    ensures Or(And(Lsr(src, n), Lsr(Ones(8), n)), And(word, Not(Lsr(Ones(8), n))))
            == Or(And(word, Not(Lsr(Ones(8), n))), Lsr(src, n))
  {
    hide Or, And, Not, Lsr;
    MaskIsIdle(src, n);
    OrCommutes(Lsr(src, n), And(word, Not(Lsr(Ones(8), n))));
  }

  lemma LongRight(word: Long, src: Long, n: nat)
    requires n < 8
    ensures Or(And(Lsl(src, n), Lsl(Ones(8), n)), And(word, Not(Lsl(Ones(8), n))))
            == Or(And(word, Not(Lsl(Ones(8), n))), Lsl(src, n))
  {
    hide Or, And, Not, Lsl;
    MaskIsIdle(src, n);
    OrCommutes(Lsl(src, n), And(word, Not(Lsl(Ones(8), n))));
  }

  /** One 64-bit store of rotated halves is the helper's two word stores. */
  lemma SplitStores(m: Memory, a: Address, w: Long)
    requires InWindow(a) && Aligned(a, 8)
    ensures a - BASE + 8 <= WINDOW && Aligned(a, 4)
    ensures WithHostWord(WithHostWord(m, a - BASE, RotateHalves(w)[4..]), a - BASE + 4, RotateHalves(w)[..4])
            == StoreLong(m, a, w)
  {
    hide HostWord, Offset;
    InWindowDown(a);
    NextWord(a);
    assert Down8(a) == a;
    assert RotateHalves(w)[4..] == w[..4] && RotateHalves(w)[..4] == w[4..];
    HostStoresCommute(m, a - BASE, w[..4], w[4..]);
  }

  lemma HostStoresCommute(m: Memory, o: nat, x: Word, y: Word)
    requires o + 8 <= WINDOW
    ensures WithHostWord(WithHostWord(m, o, x), o + 4, y) == WithHostWord(WithHostWord(m, o + 4, y), o, x)
  {
  }
}
