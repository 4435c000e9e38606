/** Reading a section's relocations: one pass that pairs HI16s with LO16s and patches
    earlier entries, against a specification that looks each pair up. */
module ElfRelocs {
  import opened Machine
  import opened Halves

  datatype Kind = Hi16 | Lo16 | Word32 | Jump26 | OtherKind

  /** A table entry. `offset` is the address of the word it applies to. */
  datatype Entry = Entry(offset: Addr, symbol: nat, kind: Kind)

  /** What a symbol resolves to. A `reference` is defined outside the input, at
      `refVram` plus `offset`; otherwise `vram` is the address of its section. */
  datatype Target = Target(reference: bool, relocatable: bool, section: nat, index: nat, vram: Addr, offset: Addr,
                           refVram: Addr)

  /** The words of the section, by address. */
  type Rom = map<Addr, Addr>

  /** The section being read: its address, its words, and how symbols resolve. */
  datatype Input = Input(ram: Addr, rom: Rom, entries: seq<Entry>, symbols: map<nat, Target>)

  datatype Parsed = Parsed(address: Addr, kind: Kind, target: Target, offset: Addr)

  function WordOf(rom: Rom, a: Addr): Addr {
    if a in rom then rom[a] else 0
  }

  function Imm(rom: Rom, a: Addr): Half {
    WordOf(rom, a) % 0x1_0000
  }

  /** The offset of a value in the target's section. */
  function InSection(value: Addr, t: Target): Addr {
    Minus(Add(value, t.offset), t.vram)
  }

  // ----- Which tables are accepted -----

  /** Whether entry `i` is accepted: its symbol resolves, a word does not refer to a
      section without a fixed place, and after a HI16 comes another one or the LO16
      that closes the run, for the same symbol. */
  predicate EntryOk(s: Input, i: nat)
    requires i < |s.entries|
  {
    var e := s.entries[i];
    && e.symbol in s.symbols
    && (e.kind.Word32? && s.symbols[e.symbol].reference ==> !s.symbols[e.symbol].relocatable)
    && (i > 0 && s.entries[i - 1].kind.Hi16? ==> (e.kind.Hi16? || e.kind.Lo16?) && e.symbol == s.entries[i - 1].symbol)
  }

  ghost predicate Accepts(s: Input, n: nat)
    requires n <= |s.entries|
  {
    forall i :: 0 <= i < n ==> EntryOk(s, i)
  }

  /** What the symbol of entry `i` of an accepted prefix resolves to. */
  ghost function TargetOf(s: Input, n: nat, i: nat): Target
    requires i < n <= |s.entries| && Accepts(s, n)
  {
    assert EntryOk(s, i);
    s.symbols[s.entries[i].symbol]
  }

  // ----- The words that relocations have changed -----

  function Rewritten(rom: Rom, e: Entry, t: Target): Rom {
    if e.kind.Word32? && t.reference then rom[e.offset := Add(Add(WordOf(rom, e.offset), t.refVram), t.offset)] else rom
  }

  /** The words when entry `i` is reached. */
  ghost function RomAt(s: Input, i: nat): Rom
    requires i <= |s.entries| && Accepts(s, i)
  {
    if i == 0 then s.rom else Rewritten(RomAt(s, i - 1), s.entries[i - 1], TargetOf(s, i, i - 1))
  }

  // ----- Pairing -----

  /** The first entry of the run of HI16s that ends just before `i`; `i` if there is none. */
  function RunStart(s: Input, i: nat): (r: nat)
    requires i <= |s.entries|
    ensures r <= i
    ensures forall k :: r <= k < i ==> s.entries[k].kind.Hi16?
    ensures r > 0 ==> !s.entries[r - 1].kind.Hi16?
  {
    if i > 0 && s.entries[i - 1].kind.Hi16? then RunStart(s, i - 1) else i
  }

  /** The first entry from `i` on that is not a HI16. */
  function Closing(s: Input, i: nat): (r: nat)
    requires i <= |s.entries|
    ensures i <= r <= |s.entries|
    ensures forall k :: i <= k < r ==> s.entries[k].kind.Hi16?
    ensures r < |s.entries| ==> !s.entries[r].kind.Hi16?
    decreases |s.entries| - i
  {
    if i < |s.entries| && s.entries[i].kind.Hi16? then Closing(s, i + 1) else i
  }

  /** The immediate of the first HI16 of the last run begun before `i`. */
  ghost function LastHigh(s: Input, i: nat): Half
    requires i <= |s.entries| && Accepts(s, i)
  {
    if i == 0 then 0
    else if s.entries[i - 1].kind.Hi16?
      && RunStart(s, i - 1) == i - 1 then Imm(RomAt(s, i - 1), s.entries[i - 1].offset)
    else LastHigh(s, i - 1)
  }

  /** `h` is a HI16 of the symbol at a lower address. */
  predicate Precedes(s: Input, h: nat, e: Entry)
    requires h < |s.entries|
  {
    s.entries[h].kind.Hi16? && s.entries[h].symbol == e.symbol && s.entries[h].offset < e.offset
  }

  /** `h` is the nearest such, the first in the table if several are at one address. */
  predicate IsNearest(s: Input, n: nat, e: Entry, h: nat)
    requires n <= |s.entries|
  {
    && h < n && Precedes(s, h, e)
    && (forall k :: 0 <= k < n && Precedes(s, k, e) ==> s.entries[k].offset <= s.entries[h].offset)
    && (forall k :: 0 <= k < h && Precedes(s, k, e) ==> s.entries[k].offset < s.entries[h].offset)
  }

  /** The entry a LO16 that closes no run is paired with, if any. */
  ghost function Nearest(s: Input, e: Entry): Option<nat> {
    if exists h :: IsNearest(s, |s.entries|, e, h) then
      var h :| IsNearest(s, |s.entries|, e, h); Some(h)
    else None
  }

  /** The high half that the LO16 at `i` goes with: that of the first HI16 of the run it
      closes, else of the nearest preceding one of its symbol, else the last one seen. */
  ghost function HighOf(s: Input, i: nat): Half
    requires i < |s.entries| && Accepts(s, i)
  {
    if i > 0 && s.entries[i - 1].kind.Hi16? then
      RunStartBefore(s, i);
      Imm(RomAt(s, RunStart(s, i)), s.entries[RunStart(s, i)].offset)
    else match Nearest(s, s.entries[i])
         case Some(h) => Imm(RomAt(s, i), s.entries[h].offset)
         case None => LastHigh(s, i)
  }

  lemma RunStartBefore(s: Input, i: nat)
    requires 0 < i <= |s.entries| && s.entries[i - 1].kind.Hi16?
    ensures RunStart(s, i) < i
  {
  }

  /** The offset of entry `i` once `n` entries are read. A HI16 whose run is not yet
      closed holds its own high half. */
  ghost function OffsetAt(s: Input, i: nat, n: nat): Addr
    requires i < n <= |s.entries| && Accepts(s, n)
  {
    var e := s.entries[i];
    var t := TargetOf(s, n, i);
    match e.kind
    case Hi16 =>
      var high := Imm(RomAt(s, i), e.offset);
      var c := Closing(s, i);
      if c < n then InSection(Add(Shifted(high), Extended(Imm(RomAt(s, c), s.entries[c].offset))), TargetOf(s, n, c))
      else Shifted(high)
    case Lo16 => InSection(Joined(HighOf(s, i), Imm(RomAt(s, i), e.offset)), t)
    case Word32 => t.offset
    case Jump26 =>
      var field := (WordOf(RomAt(s, i), e.offset) % 0x400_0000) * 4;
      InSection(if t.reference then field else Add(field, s.ram - s.ram % 0x1000_0000), t)
    case OtherKind => 0
  }

  ghost predicate ParsedIs(s: Input, relocs: seq<Parsed>, n: nat)
    requires n <= |s.entries| && n <= |relocs| && Accepts(s, n)
  {
    forall i :: 0 <= i < n ==>
      relocs[i] == Parsed(s.entries[i].offset, s.entries[i].kind, TargetOf(s, n, i), OffsetAt(s, i, n))
  }

  // ----- How one more entry changes the offsets -----

  /** Only the HI16s of the run that the entry closes change. */
  lemma OffsetKept(s: Input, i: nat, n: nat)
    requires i < n < |s.entries| && Accepts(s, n + 1)
    requires !(s.entries[i].kind.Hi16? && i >= RunStart(s, n) && !s.entries[n].kind.Hi16?)
    ensures OffsetAt(s, i, n + 1) == OffsetAt(s, i, n)
  {
    if s.entries[i].kind.Hi16? {
      ClosingBound(s, i, n);
    }
  }

  lemma {:induction false} ClosingBound(s: Input, i: nat, n: nat)
    requires i <= n < |s.entries|
    ensures i < RunStart(s, n) && s.entries[i].kind.Hi16? ==> Closing(s, i) < n
    ensures i >= RunStart(s, n) ==> Closing(s, i) == Closing(s, n)
    decreases n - i
  {
    if i < RunStart(s, n) {
      assert !s.entries[RunStart(s, n) - 1].kind.Hi16?;
    } else if i < n {
      ClosingBound(s, i + 1, n);
    }
  }

  /** The HI16s of the run that `n` closes get their offsets. */
  lemma RunCloses(s: Input, i: nat, n: nat)
    requires n < |s.entries| && RunStart(s, n) <= i < n && Accepts(s, n + 1) && !s.entries[n].kind.Hi16?
    ensures OffsetAt(s, i, n) == Shifted(Imm(RomAt(s, i), s.entries[i].offset))
    ensures OffsetAt(s, i, n + 1)
            == InSection(Add(OffsetAt(s, i, n), Extended(Imm(RomAt(s, n), s.entries[n].offset))), TargetOf(s, n + 1, n))
  {
    ClosingBound(s, i, n);
    assert s.entries[i].kind.Hi16?;
  }

  /** A HI16 just read holds its high half. */
  lemma HighIsHeld(s: Input, n: nat)
    requires n < |s.entries| && Accepts(s, n + 1) && s.entries[n].kind.Hi16?
    ensures OffsetAt(s, n, n + 1) == Shifted(Imm(RomAt(s, n), s.entries[n].offset))
  {
    assert Closing(s, n) >= n + 1;
  }

  /** The last high half seen is that of the first HI16 of a run in progress. */
  lemma {:induction false} LastHighInRun(s: Input, i: nat)
    requires 0 < i <= |s.entries| && Accepts(s, i) && s.entries[i - 1].kind.Hi16?
    ensures RunStart(s, i) < i
    ensures LastHigh(s, i) == Imm(RomAt(s, RunStart(s, i)), s.entries[RunStart(s, i)].offset)
    decreases i
  {
    if RunStart(s, i - 1) < i - 1 {
      LastHighInRun(s, i - 1);
    }
  }

  /** All entries of a run have the symbol of its first. */
  lemma {:induction false} RunHasOneSymbol(s: Input, i: nat)
    requires i < |s.entries| && Accepts(s, i)
    ensures forall k :: RunStart(s, i) <= k < i ==> s.entries[k].symbol == s.entries[RunStart(s, i)].symbol
    decreases i
  {
    if i > 0 && s.entries[i - 1].kind.Hi16? {
      RunHasOneSymbol(s, i - 1);
      assert EntryOk(s, i - 1);
    }
  }

  // ----- The pass -----

  lemma NearestIsUnique(s: Input, e: Entry, h: nat)
    requires IsNearest(s, |s.entries|, e, h)
    ensures Nearest(s, e) == Some(h)
  {
  }

  /** Finds the HI16 of the same symbol at the nearest lower address. */
  method FindNearestPrecedingHi16(s: Input, rom: Rom, e: Entry) returns (found: bool, high: Half)
    ensures found == Nearest(s, e).Some?
    ensures found ==> high == Imm(rom, s.entries[Nearest(s, e).value].offset)
  {
    hide Imm;
    found, high := false, 0;
    var best: nat := 0;
    for i := 0 to |s.entries|
      invariant if found then IsNearest(s, i, e, best) && high == Imm(rom, s.entries[best].offset)
                else forall k :: 0 <= k < i ==> !Precedes(s, k, e)
    {
      var h := s.entries[i];
      if !h.kind.Hi16? || h.symbol != e.symbol || h.offset >= e.offset { continue; }
      assert Precedes(s, i, e);
      if !found || h.offset > s.entries[best].offset {
        high := Imm(rom, h.offset);
        best := i;
        found := true;
      }
    }
    if found {
      NearestIsUnique(s, e, best);
    }
  }

  /** The state that the pass carries across entries. */
  datatype Pass = Pass(relocs: seq<Parsed>, rom: Rom, hiCount: nat, hiImmediate: Half, hiSymbol: nat)

  ghost predicate PassIs(s: Input, n: nat, p: Pass) {
    && n <= |s.entries| && Accepts(s, n)
    && |p.relocs| == |s.entries| && ParsedIs(s, p.relocs, n) && p.rom == RomAt(s, n)
    && p.hiCount == n - RunStart(s, n) && p.hiImmediate == LastHigh(s, n)
    && (p.hiCount > 0 ==> p.hiSymbol == s.entries[RunStart(s, n)].symbol)
  }

  /** Gives the HI16s before `i` the low half that closes their run. */
  method PatchRun(relocs: seq<Parsed>, i: nat, count: nat, low: Half, t: Target) returns (r: seq<Parsed>)
    requires count <= i <= |relocs|
    ensures |r| == |relocs|
    ensures forall k :: 0 <= k < |r| ==>
              r[k] == if i - count <= k < i
                then relocs[k].(offset := InSection(Add(relocs[k].offset, Extended(low)), t)) else relocs[k]
  {
    hide InSection, Extended;
    r := relocs;
    for k := i - count to i
      invariant |r| == |relocs|
      invariant forall j :: 0 <= j < |r| ==>
                  r[j] == if i - count <= j < k
                    then relocs[j].(offset := InSection(Add(relocs[j].offset, Extended(low)), t)) else relocs[j]
    {
      r := r[k := r[k].(offset := InSection(Add(r[k].offset, Extended(low)), t))];
    }
  }

  /** A LO16: its own offset, and those of the run it closes. */
  method ReadLo16(s: Input, i: nat, p: Pass, t: Target) returns (ok: bool, p': Pass)
    requires i < |s.entries| && PassIs(s, i, p) && s.entries[i].kind.Lo16?
    requires s.entries[i].symbol in s.symbols && t == s.symbols[s.entries[i].symbol]
    ensures ok <==> EntryOk(s, i)
    ensures ok ==> PassIs(s, i + 1, p')
  {
    hide RomAt, LastHigh, HighOf, InSection, Joined;
    var e := s.entries[i];
    var low := Imm(p.rom, e.offset);
    var high := p.hiImmediate;
    if p.hiCount == 0 {
      var found, near := FindNearestPrecedingHi16(s, p.rom, e);
      if found { high := near; }
    }
    p' := p.(relocs := p.relocs[i := Parsed(e.offset, e.kind, t, InSection(Joined(high, low), t))]);
    if p.hiCount != 0 {
      RunHasOneSymbol(s, i);
      if p.hiSymbol != e.symbol {
        return false, p';
      }
      var patched := PatchRun(p'.relocs, i, p.hiCount, low, t);
      p' := p'.(relocs := patched);
    }
    ok := true;
    assert EntryOk(s, i);
    HighOfIs(s, i);
    p' := p'.(hiCount := 0);
    ClosesRun(s, i, p, p', high, low, t);
  }

  lemma Lo16Offset(s: Input, i: nat)
    requires i < |s.entries| && Accepts(s, i + 1) && s.entries[i].kind.Lo16?
    ensures OffsetAt(s, i, i + 1)
            == InSection(Joined(HighOf(s, i), Imm(RomAt(s, i), s.entries[i].offset)), TargetOf(s, i + 1, i))
  {
    hide RomAt, HighOf, InSection, Joined;
  }

  /** What reading entry `i` does to the state that is carried on. */
  lemma CarriedOn(s: Input, i: nat)
    requires i < |s.entries| && Accepts(s, i + 1)
    ensures RunStart(s, i + 1) == if s.entries[i].kind.Hi16? then RunStart(s, i) else i + 1
    ensures LastHigh(s, i + 1)
            == if s.entries[i].kind.Hi16?
              && RunStart(s, i) == i then Imm(RomAt(s, i), s.entries[i].offset) else LastHigh(s, i)
    ensures RomAt(s, i + 1) == Rewritten(RomAt(s, i), s.entries[i], TargetOf(s, i + 1, i))
  {
  }

  lemma HighOfIs(s: Input, i: nat)
    requires i < |s.entries| && Accepts(s, i)
    ensures RunStart(s, i) < i ==> HighOf(s, i) == LastHigh(s, i)
    ensures RunStart(s, i) == i ==>
      HighOf(s, i) == match Nearest(s, s.entries[i])
                      case Some(h) => Imm(RomAt(s, i), s.entries[h].offset)
                      case None => LastHigh(s, i)
  {
    if i > 0 && s.entries[i - 1].kind.Hi16? {
      LastHighInRun(s, i);
    }
  }

  lemma ClosesRun(s: Input, i: nat, p: Pass, p': Pass, high: Half, low: Half, t: Target)
    requires i < |s.entries| && PassIs(s, i, p) && s.entries[i].kind.Lo16? && EntryOk(s, i) && Accepts(s, i + 1)
    requires t == s.symbols[s.entries[i].symbol] && low == Imm(p.rom, s.entries[i].offset)
    requires high == HighOf(s, i)
    requires |p'.relocs| == |p.relocs| && p' == p.(relocs := p'.relocs, hiCount := 0)
    requires p'.relocs[i] == Parsed(s.entries[i].offset, Lo16, t, InSection(Joined(high, low), t))
    requires forall k :: 0 <= k < i ==>
               p'.relocs[k] == if RunStart(s, i) <= k
                 then p.relocs[k].(offset := InSection(Add(p.relocs[k].offset, Extended(low)), t))
                               else p.relocs[k]
    ensures PassIs(s, i + 1, p')
  {
    hide RomAt, LastHigh, HighOf, InSection, Joined, OffsetAt;
    forall k | 0 <= k < i + 1
      ensures p'.relocs[k] == Parsed(s.entries[k].offset, s.entries[k].kind, TargetOf(s, i + 1, k),
                                     OffsetAt(s, k, i + 1))
    {
      if k < RunStart(s, i) {
        OffsetKept(s, k, i);
      } else if k < i {
        RunCloses(s, k, i);
      } else {
        Lo16Offset(s, i);
      }
    }
    CarriedOn(s, i);
  }

  /** A HI16: holds its high half until its run is closed. */
  method ReadHi16(s: Input, i: nat, p: Pass, t: Target) returns (ok: bool, p': Pass)
    requires i < |s.entries| && PassIs(s, i, p) && s.entries[i].kind.Hi16?
    requires s.entries[i].symbol in s.symbols && t == s.symbols[s.entries[i].symbol]
    ensures ok <==> EntryOk(s, i)
    ensures ok ==> PassIs(s, i + 1, p')
  {
    hide RomAt, LastHigh, OffsetAt;
    var e := s.entries[i];
    var high := Imm(p.rom, e.offset);
    p' := p;
    RunHasOneSymbol(s, i);
    if p.hiCount == 0 {
      p' := p.(hiImmediate := high, hiSymbol := e.symbol);
    } else if p.hiSymbol != e.symbol {
      return false, p';
    }
    ok := true;
    assert EntryOk(s, i);
    p' := p'.(relocs := p.relocs[i := Parsed(e.offset, e.kind, t, Shifted(high))], hiCount := p.hiCount + 1);
    HighIsHeld(s, i);
    CarriedOn(s, i);
    KeepsOthers(s, i, p, p');
  }

  lemma KeepsOthers(s: Input, i: nat, p: Pass, p': Pass)
    requires i < |s.entries| && PassIs(s, i, p) && Accepts(s, i + 1)
    requires s.entries[i].kind.Hi16? || RunStart(s, i) == i
    requires |p'.relocs| == |p.relocs| && forall k :: 0 <= k < i ==> p'.relocs[k] == p.relocs[k]
    requires p'.relocs[i] == Parsed(s.entries[i].offset, s.entries[i].kind, TargetOf(s, i + 1, i),
                                    OffsetAt(s, i, i + 1))
    ensures ParsedIs(s, p'.relocs, i + 1)
  {
    hide RomAt, LastHigh, OffsetAt;
    forall k | 0 <= k < i + 1
      ensures p'.relocs[k] == Parsed(s.entries[k].offset, s.entries[k].kind, TargetOf(s, i + 1, k),
                                     OffsetAt(s, k, i + 1))
    {
      if k < i {
        OffsetKept(s, k, i);
      }
    }
  }

  /** Any other entry; it may not follow a HI16. */
  method ReadOther(s: Input, i: nat, p: Pass, t: Target) returns (ok: bool, p': Pass)
    requires i < |s.entries| && PassIs(s, i, p) && !s.entries[i].kind.Hi16? && !s.entries[i].kind.Lo16?
    requires s.entries[i].symbol in s.symbols && t == s.symbols[s.entries[i].symbol]
    requires s.entries[i].kind.Word32? && t.reference ==> !t.relocatable
    ensures ok <==> EntryOk(s, i)
    ensures ok ==> PassIs(s, i + 1, p')
  {
    hide RomAt, LastHigh;
    p' := p;
    var e := s.entries[i];
    if p.hiCount != 0 {
      return false, p';
    }
    ok := true;
    assert EntryOk(s, i);
    var offset: Addr := 0;
    var word := WordOf(p.rom, e.offset);
    if e.kind.Word32? {
      offset := t.offset;
      if t.reference {
        p' := p'.(rom := p.rom[e.offset := Add(Add(word, t.refVram), offset)]);
      }
    }
    if e.kind.Jump26? {
      var field := (word % 0x400_0000) * 4;
      if t.reference {
        offset := InSection(field, t);
      } else {
        offset := InSection(Add(field, s.ram - s.ram % 0x1000_0000), t);
      }
    }
    p' := p'.(relocs := p.relocs[i := Parsed(e.offset, e.kind, t, offset)], hiCount := 0);
    CarriedOn(s, i);
    KeepsOthers(s, i, p, p');
  }

  /** The whole table: accepted exactly when every entry is, and then every entry has
      the offset that looking its pair up gives. */
  method ParseSectionRelocs(s: Input) returns (ok: bool, relocs: seq<Parsed>, rom: Rom)
    ensures ok <==> Accepts(s, |s.entries|)
    ensures ok ==> |relocs| == |s.entries| && ParsedIs(s, relocs, |s.entries|) && rom == RomAt(s, |s.entries|)
  {
    hide EntryOk, OffsetAt;
    var none := Target(false, false, 0, 0, 0, 0, 0);
    var blank := seq(|s.entries|, _ => Parsed(0, OtherKind, none, 0));
    var p := Pass(blank, s.rom, 0, 0, 0);
    for i := 0 to |s.entries|
      invariant PassIs(s, i, p)
    {
      var e := s.entries[i];
      if e.symbol !in s.symbols {
        UnknownSymbol(s, i);
        return false, p.relocs, p.rom;
      }
      var t := s.symbols[e.symbol];
      if e.kind.Word32? && t.reference && t.relocatable {
        UnfixedWord(s, i);
        return false, p.relocs, p.rom;
      }
      match e.kind {
        case Lo16 => ok, p := ReadLo16(s, i, p, t);
        case Hi16 => ok, p := ReadHi16(s, i, p, t);
        case _ => ok, p := ReadOther(s, i, p, t);
      }
      if !ok {
        return false, p.relocs, p.rom;
      }
    }
    ok, relocs, rom := true, p.relocs, p.rom;
  }

  lemma UnknownSymbol(s: Input, i: nat)
    requires i < |s.entries| && s.entries[i].symbol !in s.symbols
    ensures !EntryOk(s, i)
  {
  }

  lemma UnfixedWord(s: Input, i: nat)
    requires i < |s.entries| && s.entries[i].kind.Word32? && s.entries[i].symbol in s.symbols
    requires s.symbols[s.entries[i].symbol].reference && s.symbols[s.entries[i].symbol].relocatable
    ensures !EntryOk(s, i)
  {
  }

  // ----- What the offsets mean -----

  /** The HI16 and the LO16 of a closed run name the same place exactly when the HI16
      has the high half of the first of its run, which is the one the LO16 uses. */
  lemma PairNamesOnePlace(s: Input, i: nat, n: nat)
    requires n <= |s.entries| && i < n && Accepts(s, n) && s.entries[i].kind.Hi16? && Closing(s, i) < n
    ensures var c := Closing(s, i);
            && s.entries[c].kind.Lo16? && RunStart(s, c) <= i
            && (OffsetAt(s, i, n) == OffsetAt(s, c, n)
                <==> Imm(RomAt(s, i), s.entries[i].offset)
                     == Imm(RomAt(s, RunStart(s, c)), s.entries[RunStart(s, c)].offset))
  {
    hide RomAt, LastHigh, InSection;
    var c := Closing(s, i);
    assert EntryOk(s, c) && s.entries[c - 1].kind.Hi16?;
    RunReaches(s, i, c);
    var x, y := Imm(RomAt(s, i), s.entries[i].offset), HighOf(s, c);
    SameJoined(x, y, Imm(RomAt(s, c), s.entries[c].offset), TargetOf(s, n, c));
  }

  /** Two `lui`s with different immediates, and the one LO16 that closes their run. */
  function TwoHighs(): Input {
    Input(0, map[0 := 0x3C01_0001, 4 := 0x3C02_0002, 8 := 0x2421_0000],
          [Entry(0, 0, Hi16), Entry(4, 0, Hi16), Entry(8, 0, Lo16)], map[0 := Target(false, true, 0, 0, 0, 0, 0)])
  }

  /** The second HI16 and the LO16 name different places. */
  lemma SecondHighMissesItsLow()
    ensures var s := TwoHighs();
            Accepts(s, 3) && Closing(s, 1) == 2 && OffsetAt(s, 1, 3) == 0x2_0000 && OffsetAt(s, 2, 3) == 0x1_0000
  {
    var s := TwoHighs();
    assert Accepts(s, 3) by { assert EntryOk(s, 0) && EntryOk(s, 1) && EntryOk(s, 2); }
    assert RomAt(s, 0) == RomAt(s, 1) == RomAt(s, 2) == s.rom;
    assert Closing(s, 1) == 2 && RunStart(s, 2) == 0;
    assert HighOf(s, 2) == 1;
  }

  lemma {:induction false} RunReaches(s: Input, i: nat, c: nat)
    requires i < c <= |s.entries| && forall k :: i <= k < c ==> s.entries[k].kind.Hi16?
    ensures RunStart(s, c) <= i
    decreases c
  {
    if i < c - 1 {
      RunReaches(s, i, c - 1);
    }
  }

  lemma SameJoined(x: Half, y: Half, lo: Half, t: Target)
    ensures InSection(Joined(x, lo), t) == InSection(Joined(y, lo), t) <==> x == y
  {
    if InSection(Joined(x, lo), t) == InSection(Joined(y, lo), t) {
      AddMinus(Add(Joined(x, lo), t.offset), t.vram);
      AddMinus(Add(Joined(y, lo), t.offset), t.vram);
      AddMinus(Joined(x, lo), t.offset);
      AddMinus(Joined(y, lo), t.offset);
      HalvesReproduce(x, lo);
      HalvesReproduce(y, lo);
    }
  }

  // ----- Immediates of places that are already fixed -----

  /** A word or an immediate, as halves. */
  datatype Halved = Halved(upper: bv16, lower: bv16)

  /** The immediate is merged into the word without clearing what is there. */
  function Baked(word: Halved, imm: Halved): Halved {
    Halved(word.upper | imm.upper, word.lower | imm.lower)
  }

  lemma Absorbs(x: bv16, y: bv16)
    ensures x | y == y <==> x & !y == 0
  {
  }

  /** Baking replaces the immediate field, and only that, exactly when the old immediate
      has no bit that the new one lacks, and the new one does not spill into the
      register field. */
  lemma BakedExactly(word: Halved, imm: Halved)
    ensures Baked(word, imm) == Halved(word.upper, imm.lower)
            <==> word.lower & !imm.lower == 0 && imm.upper & !word.upper == 0
  {
    Absorbs(word.lower, imm.lower);
    Absorbs(imm.upper, word.upper);
    OrSwaps(word.upper, imm.upper);
  }

  /** `lui $at, 1` with the immediate 2 baked in holds 3; a high half that spills turns
      `$v0` into `$v1`. */
  lemma BakingGarbles()
    ensures Baked(Halved(0x3C01, 1), Halved(0, 2)) == Halved(0x3C01, 3)
    ensures Baked(Halved(0x3C02, 0), Halved(1, 0)) == Halved(0x3C03, 0)
  {
    assert (0x3C01 as bv16) | 0 == 0x3C01 && (1 as bv16) | 2 == 3 && (0x3C02 as bv16) | 1 == 0x3C03;
  }

  lemma OrSwaps(x: bv16, y: bv16)
    ensures x | y == y | x
  {
  }

  /** The high half spills for places in the last 32 KiB of the address space. */
  lemma HighSpills(x: Addr)
    ensures High(x) == 0x1_0000 <==> x >= 0xFFFF_8000
  {
    HighIs(x);
    assert x == 0x1_0000 * (x / 0x1_0000) + x % 0x1_0000;
  }
}
