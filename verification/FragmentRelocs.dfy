/** Relocations of compressed fragments: pairing by place in the table, and what the
    paired immediates come to when the fragment is loaded at any address. */
module FragmentRelocs {
  import opened Machine
  import opened Halves

  datatype Kind = Hi16 | Lo16 | Word32 | Jump26

  /** A table entry with the word it applies to. */
  datatype Raw = Raw(kind: Kind, at: Addr, word: Addr)

  datatype FragmentReloc = FragmentReloc(address: Addr, kind: Kind, offset: Addr)

  function ImmOf(r: Raw): Half {
    r.word % 0x1_0000
  }

  /** The first LO16 from entry `i` on, if any. */
  function NextLow(raws: seq<Raw>, i: nat): (j: nat)
    requires i <= |raws|
    ensures i <= j <= |raws| && (j < |raws| ==> raws[j].kind.Lo16?)
    ensures forall k :: i <= k < j ==> !raws[k].kind.Lo16?
    decreases |raws| - i
  {
    if i < |raws| && !raws[i].kind.Lo16? then NextLow(raws, i + 1) else i
  }

  /** One past the last HI16 before entry `i`; 0 if there is none. */
  function LastHighBefore(raws: seq<Raw>, i: nat): (j: nat)
    requires i <= |raws|
    ensures j <= i && (j > 0 ==> raws[j - 1].kind.Hi16?)
    ensures forall k :: j <= k < i ==> !raws[k].kind.Hi16?
  {
    if i > 0 && !raws[i - 1].kind.Hi16? then LastHighBefore(raws, i - 1) else i
  }

  /** The offset within its section of the place that entry `i` refers to. A half
      without a partner gets none. */
  function OffsetOf(raws: seq<Raw>, i: nat, vram: Addr): Addr
    requires i < |raws|
  {
    var r := raws[i];
    match r.kind
    case Word32 => Minus(r.word, vram)
    case Jump26 => Minus(Add(vram - vram % 0x1000_0000, (r.word % 0x400_0000) * 4), vram)
    case Hi16 =>
      var j := NextLow(raws, i + 1);
      if j < |raws| then Minus(Joined(ImmOf(r), ImmOf(raws[j])), vram) else 0
    case Lo16 =>
      var j := LastHighBefore(raws, i);
      if j > 0 then Minus(Joined(ImmOf(raws[j - 1]), ImmOf(r)), vram) else 0
  }

  /** The second pass: pairs each half by scanning the table. */
  method EmitRelocs(raws: seq<Raw>, vram: Addr) returns (relocs: seq<FragmentReloc>)
    ensures |relocs| == |raws|
    ensures forall i :: 0 <= i < |raws| ==>
                relocs[i] == FragmentReloc(Add(vram, raws[i].at), raws[i].kind, OffsetOf(raws, i, vram))
  {
    hide Joined, Minus;
    relocs := [];
    for i := 0 to |raws|
      invariant |relocs| == i
      invariant forall k :: 0 <= k < i ==>
                    relocs[k] == FragmentReloc(Add(vram, raws[k].at), raws[k].kind, OffsetOf(raws, k, vram))
    {
      var r := raws[i];
      var offset: Addr := 0;
      match r.kind {
        case Word32 => offset := Minus(r.word, vram);
        case Jump26 => offset := Minus(Add(vram - vram % 0x1000_0000, (r.word % 0x400_0000) * 4), vram);
        case Hi16 =>
          var j := i + 1;
          while j < |raws| && !raws[j].kind.Lo16?
            invariant i < j <= |raws| && NextLow(raws, j) == NextLow(raws, i + 1)
          {
            j := j + 1;
          }
          if j < |raws| { offset := Minus(Joined(ImmOf(r), ImmOf(raws[j])), vram); }
        case Lo16 =>
          var j := i;
          while j > 0 && !raws[j - 1].kind.Hi16?
            invariant j <= i && LastHighBefore(raws, j) == LastHighBefore(raws, i)
          {
            j := j - 1;
          }
          if j > 0 { offset := Minus(Joined(ImmOf(raws[j - 1]), ImmOf(r)), vram); }
      }
      relocs := relocs + [FragmentReloc(Add(vram, r.at), r.kind, offset)];
    }
  }

  // ----- Loading -----

  /** What the two instructions of a pair add up to at run time, with the section at `base`. */
  function Loaded(base: Addr, highOffset: Addr, lowOffset: Addr): Addr {
    Add(Shifted(High(Add(base, highOffset))), Extended(Low16(Add(base, lowOffset))))
  }

  /** A HI16 and the LO16 after it, the HI16s in between having the same high half:
      whatever else is in the table, both get the offset of the place they name, and at
      every load address they rebuild that place; at the link address they are the
      immediates they were. */
  lemma PairsRelocate(raws: seq<Raw>, i: nat, vram: Addr, base: Addr)
    requires i < |raws| && raws[i].kind.Hi16? && NextLow(raws, i + 1) < |raws|
    requires forall k :: i <= k < NextLow(raws, i + 1) && raws[k].kind.Hi16? ==> ImmOf(raws[k]) == ImmOf(raws[i])
    ensures var j := NextLow(raws, i + 1);
            var place := Joined(ImmOf(raws[i]), ImmOf(raws[j]));
            var offset := OffsetOf(raws, i, vram);
            && OffsetOf(raws, j, vram) == offset == Minus(place, vram)
            && Loaded(base, offset, offset) == Add(base, offset)
            && Low16(Add(vram, offset)) == ImmOf(raws[j]) && High(Add(vram, offset)) % 0x1_0000 == ImmOf(raws[i])
  {
    hide Joined, Minus, High, Low16, Shifted;
    var j := NextLow(raws, i + 1);
    HighInBetween(raws, i, j);
    var place, offset := Joined(ImmOf(raws[i]), ImmOf(raws[j])), OffsetOf(raws, i, vram);
    AddMinus(place, vram);
    HalvesRebuild(Add(base, offset));
    HalvesReproduce(ImmOf(raws[i]), ImmOf(raws[j]));
  }

  lemma {:induction false} HighInBetween(raws: seq<Raw>, i: nat, j: nat)
    requires i < j <= |raws| && raws[i].kind.Hi16?
    ensures i < LastHighBefore(raws, j) <= j
    decreases j
  {
    if !raws[j - 1].kind.Hi16? {
      HighInBetween(raws, i, j - 1);
    }
  }

  /** A further LO16 of the same HI16 has an offset of its own, while the HI16 keeps
      that of the first: at `base` the two rebuild the second place exactly when both
      places have the same high half there. */
  lemma SharedHighRelocates(base: Addr, first: Addr, second: Addr)
    ensures Loaded(base, first, second) == Add(base, second)
            <==> High(Add(base, first)) % 0x1_0000 == High(Add(base, second)) % 0x1_0000
  {
    hide High, Low16;
    var x, y, lo := High(Add(base, first)), High(Add(base, second)), Extended(Low16(Add(base, second)));
    HalvesRebuild(Add(base, second));
    ShiftedMod(x);
    ShiftedMod(y);
    AddCancels(Shifted(x), Shifted(y), lo);
  }

  /** Two places 0x8000 apart, with the fragment at 0x80000000: the second is missed by
      0x10000. */
  lemma SharedHighMisses()
    ensures Loaded(0x8000_0000, 0, 0x8000) == 0x7FFF_8000 && Add(0x8000_0000, 0x8000) == 0x8000_8000
  {
    assert High(0x8000_0000) == 0x8000 && Low16(0x8000_8000) == 0x8000;
  }

  lemma ShiftedMod(x: nat)
    ensures Shifted(x) == (x % 0x1_0000) * 0x1_0000
  {
    var q := x / 0x1_0000;
    assert x == 0x1_0000 * q + x % 0x1_0000;
    assert x * 0x1_0000 == WORD * q + (x % 0x1_0000) * 0x1_0000;
  }

  lemma AddCancels(a: Addr, b: Addr, c: Addr)
    ensures Add(a, c) == Add(b, c) <==> a == b
  {
  }
}
