/** From a linked file to the symbol file of a mod and back: the context that is built can
    be written and read, and every function is read back where it was. */
module ModFile {
  import opened Machine
  import opened Binary
  import opened ModSymbols
  import opened ModSymbolsFacts
  import opened ModContext
  import opened ModContextFacts

  // ----- The tables -----

  predicate TablesKept(c: Context) {
    && Distinct(c.dependencies) && Distinct(c.dependencyEvents)
    && (forall i :: 0 <= i < |c.imports| ==> c.imports[i].dependency < |c.dependencies|)
    && (forall i :: 0 <= i < |c.dependencyEvents| ==> c.dependencyEvents[i].dependency < |c.dependencies|)
    && (forall i :: 0 <= i < |c.callbacks| ==>
            c.callbacks[i].event < |c.dependencyEvents| && c.callbacks[i].func < |c.functions|)
    && (forall i :: 0 <= i < |c.exports| ==> c.exports[i] < |c.functions|)
    && (forall i, j :: 0 <= i < j < |c.exports| ==> c.exports[i] != c.exports[j])
  }

  lemma WithDistinct<T>(s: seq<T>, x: T)
    requires Distinct(s)
    ensures Distinct(With(s, x)) && s <= With(s, x)
    ensures forall i :: 0 <= i < |With(s, x)| ==> With(s, x)[i] == x || (i < |s| && With(s, x)[i] == s[i])
  {
  }

  lemma MarkTables(p: Program, c: Context, role: Role, name: Text, f: Function)
    requires TablesKept(c) && Mark(p, c, role, name, |c.functions|).Some?
    ensures var m := Mark(p, c, role, name, |c.functions|).value;
            TablesKept(m.(functions := m.functions + [f]))
  {
    hide With, KnownDependency, Low, Distinct;
    if role.Listens? {
      var t := role.target.value;
      WithDistinct(c.dependencies, t.dependency);
      WithDistinct(c.dependencyEvents, Named(t.event, IndexOf(With(c.dependencies, t.dependency), t.dependency)));
    }
  }

  lemma {:induction false} CopyFunctionsTables(p: Program, b: Build, role: Role, funcs: seq<nat>, n: nat)
    requires Opened(b) && FunctionsKnown(p, funcs) && n <= |funcs| && CopyFunctions(p, b, role, funcs, n).Some?
             && TablesKept(b.out)
    ensures TablesKept(CopyFunctions(p, b, role, funcs, n).value.out)
  {
    hide Mark, TablesKept;
    if n > 0 {
      CopyFunctionsTables(p, b, role, funcs, n - 1);
      var before, f := CopyFunctions(p, b, role, funcs, n - 1).value, p.functions[funcs[n - 1]];
      MarkTables(p, before.out, role, f.name,
                 Function(if role.Exported? then f.name else [], f.vram, f.rom, f.words, Current(before)));
    }
  }

  /** Tables that differ in nothing that matters here. */
  lemma TablesSame(c: Context, d: Context)
    requires TablesKept(c)
    requires d == c.(sections := d.sections, events := d.events)
    ensures TablesKept(d)
  {
  }

  lemma ToSymbolTables(p: Program, b: Build, s: Source, r: ModReloc)
    requires Opened(b) && r.section < |p.sources| && ToSymbol(p, b, s, r).Some? && TablesKept(b.out)
    ensures TablesKept(ToSymbol(p, b, s, r).value.out)
  {
    hide With, KnownDependency, Low, Distinct, FunctionAt, Add, Minus;
    var target := p.sources[r.section];
    if target.role.StandsFor? {
      WithDistinct(b.out.dependencies, target.role.dependency);
      var f := FunctionAt(p, Add(r.offset, target.ram), r.section).value;
      var symbol := Named(f.name, IndexOf(With(b.out.dependencies, target.role.dependency), target.role.dependency));
      WithBounded(b.out.imports, symbol, |b.out.dependencies|, |With(b.out.dependencies, target.role.dependency)|);
    }
  }

  lemma WithBounded(table: seq<Named>, x: Named, m: nat, n: nat)
    requires (forall i :: 0 <= i < |table| ==> table[i].dependency < m) && m <= n && x.dependency < n
    ensures forall i :: 0 <= i < |With(table, x)| ==> With(table, x)[i].dependency < n
  {
  }

  lemma CopyRelocTables(p: Program, b: Build, s: Source, r: ModReloc)
    requires Opened(b) && RelocKnown(p, r) && |p.sources| <= SECTION_EVENT && CopyReloc(p, b, s, r).Some?
             && TablesKept(b.out)
    ensures TablesKept(CopyReloc(p, b, s, r).value.out)
  {
    hide TablesKept, ToSymbol, RefAddress, HighPart, WithImmediate, RomAddress, Delta;
    if r.kind != R_NONE && !Special(r.section) && !r.reference && !Internal(p, r) {
      ToSymbolTables(p, b, s, r);
    } else {
      TablesSame(b.out, CopyReloc(p, b, s, r).value.out);
    }
  }

  /** A relocation that can be written and read back once it is copied. */
  predicate RefOk(romOf: nat -> Addr, byVrom: ByVrom, section: nat) {
    section < SECTION_EVENT && romOf(section) < SECTION_SELF && romOf(section) in byVrom
      && byVrom[romOf(section)] == section
  }

  predicate RelocFine(romOf: nat -> Addr, byVrom: ByVrom, r: ModReloc) {
    r.kind < 0x100 && (r.reference && !Special(r.section) ==> RefOk(romOf, byVrom, r.section))
  }

  predicate RelocsFine(romOf: nat -> Addr, byVrom: ByVrom, relocs: seq<ModReloc>) {
    forall j :: 0 <= j < |relocs| ==> RelocFine(romOf, byVrom, relocs[j])
  }

  /** In the linked file: references go to sections that the file format can name; to an
      absolute address only if they are resolved on the way. */
  predicate SourceRelocOk(romOf: nat -> Addr, byVrom: ByVrom, r: ModReloc) {
    && r.kind < 0x100
    && (r.reference && !Special(r.section) ==>
          RefOk(romOf, byVrom, r.section) || (r.section == SECTION_ABSOLUTE && r.kind != R_26))
  }

  predicate SourceRelocsOk(romOf: nat -> Addr, byVrom: ByVrom, s: Source) {
    forall j :: 0 <= j < |s.relocs| ==> SourceRelocOk(romOf, byVrom, s.relocs[j])
  }

  lemma OneFine(p: Program, romOf: nat -> Addr, byVrom: ByVrom, r: ModReloc, more: seq<ModReloc>)
    requires OneFor(p, r, more) && SourceRelocOk(romOf, byVrom, r)
    ensures RelocsFine(romOf, byVrom, more)
  {
    hide Internal, LinkIn, RelocKnown, RefOk;
    forall j | 0 <= j < |more| ensures RelocFine(romOf, byVrom, more[j]) {
      assert more[j] in more;
    }
  }

  predicate AllFine(romOf: nat -> Addr, byVrom: ByVrom, b: Build) {
    forall k :: 0 <= k < |b.out.sections| ==> RelocsFine(romOf, byVrom, b.out.sections[k].relocs)
  }

  lemma GrownFine(b: Build, c: Build, more: seq<ModReloc>, romOf: nat -> Addr, byVrom: ByVrom)
    requires Opened(b) && Grown(b, c, more) && AllFine(romOf, byVrom, b) && RelocsFine(romOf, byVrom, more)
    ensures AllFine(romOf, byVrom, c)
  {
    hide RelocFine;
  }

  lemma {:induction false} CopyRelocsFine(p: Program, b: Build, s: Source, n: nat, romOf: nat -> Addr, byVrom: ByVrom)
    requires Opened(b) && RelocsKnown(p, s.relocs) && n <= |s.relocs| && |p.sources| <= SECTION_EVENT
             && CopyRelocs(p, b, s, n).Some?
    requires SourceRelocsOk(romOf, byVrom, s) && TablesKept(b.out) && AllFine(romOf, byVrom, b)
    ensures TablesKept(CopyRelocs(p, b, s, n).value.out) && AllFine(romOf, byVrom, CopyRelocs(p, b, s, n).value)
  {
    hide CopyReloc, TablesKept, AllFine, SourceRelocOk, OneFor, Grown;
    if n > 0 {
      CopyRelocsFine(p, b, s, n - 1, romOf, byVrom);
      var before, r := CopyRelocs(p, b, s, n - 1).value, s.relocs[n - 1];
      CopyRelocTables(p, before, s, r);
      var more := CopyRelocGrows(p, before, s, r);
      OneFine(p, romOf, byVrom, r, more);
      GrownFine(before, CopyReloc(p, before, s, r).value, more, romOf, byVrom);
    }
  }

  predicate Sound(romOf: nat -> Addr, byVrom: ByVrom, b: Build) {
    TablesKept(b.out) && AllFine(romOf, byVrom, b) && forall k :: 0 <= k < |b.out.sections| ==>
                                                          Movable(b.out.sections[k])
  }

  predicate Movable(s: Section) {
    !s.fixed && !s.global
  }

  lemma PlaceSound(b: Build, i: nat, s: Source, romOf: nat -> Addr, byVrom: ByVrom)
    requires Sound(romOf, byVrom, b)
    ensures Sound(romOf, byVrom, PlaceUnloaded(b, i, s))
    ensures (b.layout == [] || Opened(b)) && (b.layout == [] ==> b.delta != Delta(s)) ==>
              Sound(romOf, byVrom, Place(b, i, s))
  {
    hide TablesKept, RelocFine, Add, Minus, AlignUp16, Delta;
    TablesSame(b.out, PlaceUnloaded(b, i, s).out);
    if (b.layout == [] || Opened(b)) && (b.layout == [] ==> b.delta != Delta(s)) {
      TablesSame(b.out, Place(b, i, s).out);
    }
  }

  lemma {:induction false} CopyRelocsMovable(p: Program, b: Build, s: Source, n: nat)
    requires Opened(b) && RelocsKnown(p, s.relocs) && n <= |s.relocs| && CopyRelocs(p, b, s, n).Some?
    requires forall k :: 0 <= k < |b.out.sections| ==> Movable(b.out.sections[k])
    ensures var c := CopyRelocs(p, b, s, n).value;
            forall k :: 0 <= k < |c.out.sections| ==> Movable(c.out.sections[k])
  {
    hide CopyReloc;
    if n > 0 {
      CopyRelocsMovable(p, b, s, n - 1);
      CopyRelocMovable(p, CopyRelocs(p, b, s, n - 1).value, s, s.relocs[n - 1]);
    }
  }

  lemma CopyRelocMovable(p: Program, b: Build, s: Source, r: ModReloc)
    requires Opened(b) && RelocKnown(p, r) && CopyReloc(p, b, s, r).Some?
    requires forall k :: 0 <= k < |b.out.sections| ==> Movable(b.out.sections[k])
    ensures var c := CopyReloc(p, b, s, r).value;
            forall k :: 0 <= k < |c.out.sections| ==> Movable(c.out.sections[k])
  {
    hide FunctionAt, IndexOf, Add, Minus, HighPart, WithImmediate, KnownDependency, With, Internal;
  }

  lemma CopySound(p: Program, b: Build, s: Source, romOf: nat -> Addr, byVrom: ByVrom)
    requires Opened(b) && FunctionsKnown(p, s.functions) && RelocsKnown(p, s.relocs) && |p.sources| <= SECTION_EVENT
             && Copy(p, b, s).Some?
    requires SourceRelocsOk(romOf, byVrom, s) && Sound(romOf, byVrom, b)
    ensures Sound(romOf, byVrom, Copy(p, b, s).value)
  {
    hide CopyFunctions, CopyRelocs, TablesKept, RelocsFine, Movable, SourceRelocsOk;
    if s.role.Announces? {
      AnnounceKeeps(p, b, s.functions, |s.functions|);
      TablesSame(b.out, Copy(p, b, s).value.out);
    } else if !s.role.StandsFor? {
      var copied := CopyFunctions(p, b, s.role, s.functions, |s.functions|).value;
      CopyFunctionsSections(p, b, s.role, s.functions, |s.functions|);
      CopyFunctionsTables(p, b, s.role, s.functions, |s.functions|);
      CopyRelocsFine(p, copied, s, |s.relocs|, romOf, byVrom);
      CopyRelocsMovable(p, copied, s, |s.relocs|);
    }
  }

  /** The linked file as the file format needs it: each function lies at the same offset in
      the file and in memory and is aligned; dependencies and their events stand once. */
  predicate Usable(p: Program, romOf: nat -> Addr, byVrom: ByVrom) {
    && Distinct(p.dependencies) && Distinct(p.dependencyEvents)
    && (forall i :: 0 <= i < |p.imports| ==> p.imports[i].dependency < |p.dependencies|)
    && (forall i :: 0 <= i < |p.dependencyEvents| ==> p.dependencyEvents[i].dependency < |p.dependencies|)
    && (forall i :: 0 <= i < |p.sources| ==> SourceRelocsOk(romOf, byVrom, p.sources[i]))
    && (forall i, j ::
          0 <= i < |p.sources| && 0 <= j < |p.sources[i].functions| && p.sources[i].functions[j] < |p.functions| ==>
            AtSameOffset(p.sources[i], p.functions[p.sources[i].functions[j]]))
  }

  predicate AtSameOffset(s: Source, f: Function) {
    Minus(f.vram, s.ram) == Minus(f.rom, s.rom) && f.rom % 4 == 0 && f.words < WORD / 4
  }

  lemma {:induction false} SourcesSound(p: Program, n: nat, romOf: nat -> Addr, byVrom: ByVrom)
    requires Readable(p) && Usable(p, romOf, byVrom) && n <= |p.sources| && AddSources(p, n).Some?
    ensures Sound(romOf, byVrom, AddSources(p, n).value)
  {
    hide Readable, Delta, Place, PlaceUnloaded, Copy, Sound, SourceRelocsOk;
    if n > 0 {
      SourcesSound(p, n - 1, romOf, byVrom);
      var b, s := LastSource(p, n);
      PlaceSound(b, n - 1, s, romOf, byVrom);
      if Loaded(s) {
        CopySound(p, Place(b, n - 1, s), s, romOf, byVrom);
      }
    } else {
      BlankSound(p, romOf, byVrom);
    }
  }

  lemma BlankSound(p: Program, romOf: nat -> Addr, byVrom: ByVrom)
    requires Usable(p, romOf, byVrom)
    ensures Sound(romOf, byVrom, Blank(p))
  {
  }

  lemma {:induction false} RetargetAllFine(p: Program, b: Build, relocs: seq<ModReloc>, romOf: nat -> Addr,
                                           byVrom: ByVrom)
    requires RelocsKnown(p, relocs) && RetargetAll(p, b, relocs).Some? && RelocsFine(romOf, byVrom, relocs)
    ensures var rs := RetargetAll(p, b, relocs).value;
            && |rs| == |relocs| && RelocsFine(romOf, byVrom, rs)
            && forall j :: 0 <= j < |rs| ==> rs[j].reference || rs[j].section < |b.out.sections|
  {
    hide Add, Minus, RefOk;
    if relocs != [] {
      RetargetAllFine(p, b, relocs[..|relocs| - 1], romOf, byVrom);
    }
  }

  // ----- Functions -----

  /** Equal offsets are equal distances. */
  lemma OffsetsAndDistances(vram: Addr, rom: Addr, ram: Addr, start: Addr)
    ensures Minus(vram, ram) == Minus(rom, start) <==> Minus(vram, rom) == Minus(ram, start)
  {
    hide Minus;
    MinusIs(vram, ram);
    MinusIs(rom, start);
    MinusIs(vram, rom);
    MinusIs(ram, start);
  }

  lemma MinusIs(a: Addr, b: Addr)
    ensures Minus(a, b) == if a >= b then a - b else a + WORD - b
  {
  }

  lemma {:induction false} OriginIs(p: Program, n: nat, i: nat)
    requires n <= |p.sources| && i < |Origins(p, n)|
    ensures var o := Origins(p, n)[i];
            o.source < n && Copied(p.sources[o.source]) && exists j :: 0 <= j < |p.sources[o.source].functions|
                                                             && p.sources[o.source].functions[j] == o.func
  {
    var s, before := p.sources[n - 1], |Origins(p, n - 1)|;
    if i < before {
      OriginIs(p, n - 1, i);
    } else {
      assert Origins(p, n)[i] == Origin(n - 1, s.functions[i - before]);
    }
  }

  /** A copy lies at the same offset in its merged section. */
  lemma CopyAtOffset(p: Program, c: Build, romOf: nat -> Addr, byVrom: ByVrom, i: nat)
    requires Usable(p, romOf, byVrom) && Placed(p, c, |p.sources|)
    requires AllCopies(p, c.mapped, Origins(p, |p.sources|), c.out.functions) && i < |c.out.functions|
    ensures c.out.functions[i].section < |c.out.sections|
    ensures FunctionOk(c.out.sections[c.out.functions[i].section], c.out.functions[i].section, c.out.functions[i])
  {
    hide Minus;
    OriginIs(p, |p.sources|, i);
    var o, f := Origins(p, |p.sources|)[i], c.out.functions[i];
    assert CopyOf(p, c.mapped, o, f);
    var s, t := p.sources[o.source], c.out.sections[c.mapped[o.source]];
    var j :| 0 <= j < |s.functions| && s.functions[j] == o.func;
    assert AtSameOffset(s, p.functions[s.functions[j]]);
    OffsetsAndDistances(f.vram, f.rom, s.ram, s.rom);
    OffsetsAndDistances(f.vram, f.rom, t.ram, t.rom);
  }

  /** Every number fits in its field. */
  predicate SizesOk(c: Context) {
    && CountsOk(c) && (ExportsKnown(c) ==> |StringTable(AllNames(c))| < WORD)
    && (forall k :: 0 <= k < |c.sections| ==> |c.sections[k].relocs| < WORD)
  }

  lemma SectionFine(p: Program, c: Build, l: Layout, byVrom: ByVrom, k: nat)
    requires Usable(p, l.romOf, byVrom) && Placed(p, c, |p.sources|) && l.functions == c.layout
             && |c.layout| == |c.out.sections|
    requires AllCopies(p, c.mapped, Origins(p, |p.sources|), c.out.functions) && Consecutive(l, c.out.functions)
    requires k < |c.out.sections| && Movable(c.out.sections[k]) && RelocsFine(l.romOf, byVrom, c.out.sections[k].relocs)
    requires forall j :: 0 <= j < |c.out.sections[k].relocs| ==>
                 c.out.sections[k].relocs[j].reference || c.out.sections[k].relocs[j].section < |c.out.sections|
    requires SizesOk(c.out)
    ensures SectionOk(c.out, l, byVrom, k)
  {
    hide Usable, Placed, AllCopies, StringTable, AllNames, FunctionOk;
    forall j | 0 <= j < |l.functions[k]|
      ensures l.functions[k][j] < |c.out.functions|
              && FunctionOk(c.out.sections[k], k, c.out.functions[l.functions[k][j]])
    {
      CopyAtOffset(p, c, l.romOf, byVrom, l.functions[k][j]);
    }
    FewListed(l, c.out.functions, k);
  }

  lemma FewListed(l: Layout, functions: seq<Function>, k: nat)
    requires Consecutive(l, functions) && k < |l.functions|
    ensures |l.functions[k]| <= |functions|
  {
    if l.functions[k] != [] {
      assert l.functions[k][|l.functions[k]| - 1] == FirstFunc(l, k) + (|l.functions[k]| - 1);
    }
  }

  /** The file that is written for a mod is read back: as the context that was built, up to
      what the format drops, and with each copied function at the address and at the place
      in the file where the linked file had it. */
  lemma AddressesSurvive(p: Program, romOf: nat -> Addr, byVrom: ByVrom, pad: nat -> Addr)
    requires Readable(p) && Usable(p, romOf, byVrom) && BuildMod(p).Some?
    requires SizesOk(BuildMod(p).value.out)
    requires exists i :: 0 <= i < |p.sources| && Loaded(p.sources[i])
    ensures var c := BuildMod(p).value;
            var l, os := Layout(c.layout, romOf), Origins(p, |p.sources|);
            && Printable(c.out, l)
            && Parse(Print(c.out, l, pad), byVrom) == Good(Normal(c.out))
            && |Normal(c.out).functions| == |os|
            && forall i :: 0 <= i < |os| ==>
                 var f := Normal(c.out).functions[i];
                 && os[i].func < |p.functions|
                 && f.vram == p.functions[os[i].func].vram && f.rom == p.functions[os[i].func].rom
                   && f.words == p.functions[os[i].func].words
  {
    hide Parse, Print, Readable, Placed, Origins, AddSources, BuildMod, CountsOk, SamePlaces, RetargetAll, Normal;
    var l := Layout(BuildMod(p).value.layout, romOf);
    var c := BuildsWellFormed(p, l, byVrom);
    RoundTrip(c.out, l, byVrom, pad);
    FunctionsInOrder(p, romOf);
    NormalPlaces(c.out);
    forall i | 0 <= i < |Origins(p, |p.sources|)|
      ensures CopyOf(p, c.mapped, Origins(p, |p.sources|)[i], c.out.functions[i])
    {
    }
  }

  /** With a binary in which the words of each copied function stand where the linked file
      had them, the mod that is loaded has these words. */
  lemma WordsSurvive(p: Program, romOf: nat -> Addr, byVrom: ByVrom, pad: nat -> Addr, binary: seq<Byte>,
                     words: seq<seq<Addr>>)
    requires Readable(p) && Usable(p, romOf, byVrom) && BuildMod(p).Some?
    requires SizesOk(BuildMod(p).value.out)
    requires exists i :: 0 <= i < |p.sources| && Loaded(p.sources[i])
    requires |words| == |Origins(p, |p.sources|)| && forall i :: 0 <= i < |words| ==>
               var f := Origins(p, |p.sources|)[i].func;
               && f < |p.functions| && |words[i]| == p.functions[f].words
               && HoldsWords(binary, p.functions[f].rom, words[i])
    ensures var c := BuildMod(p).value;
            && Printable(c.out, Layout(c.layout, romOf))
            && Load(Print(c.out, Layout(c.layout, romOf), pad), binary, byVrom) == Ready(Normal(c.out), words)
  {
    hide Parse, Print, Readable, Placed, Origins, AddSources, BuildMod, CountsOk, SamePlaces, RetargetAll, Normal,
         HoldsWords;
    var l := Layout(BuildMod(p).value.layout, romOf);
    var c := BuildsWellFormed(p, l, byVrom);
    FunctionsInOrder(p, romOf);
    forall i | 0 <= i < |words|
      ensures |words[i]| == c.out.functions[i].words && HoldsWords(binary, c.out.functions[i].rom, words[i])
    {
      assert CopyOf(p, c.mapped, Origins(p, |p.sources|)[i], c.out.functions[i]);
    }
    LoadsBack(c.out, l, byVrom, pad, binary, words);
  }

  lemma NormalPlaces(c: Context)
    ensures |Normal(c).functions| == |c.functions|
    ensures forall i :: 0 <= i < |c.functions| ==>
              Normal(c).functions[i].vram == c.functions[i].vram && Normal(c).functions[i].rom == c.functions[i].rom
              && Normal(c).functions[i].words == c.functions[i].words
  {
  }

  lemma BuildsWellFormed(p: Program, l: Layout, byVrom: ByVrom) returns (c: Build)
    requires Readable(p) && Usable(p, l.romOf, byVrom) && BuildMod(p).Some? && l.functions == BuildMod(p).value.layout
    requires SizesOk(BuildMod(p).value.out)
    requires exists i :: 0 <= i < |p.sources| && Loaded(p.sources[i])
    ensures BuildMod(p) == Some(c) && WellFormed(c.out, l, byVrom)
  {
    hide Readable, Placed, AllCopies, Origins, AddSources, BuildMod, CountsOk, RetargetAll, SectionOk, Usable,
         RelocsKnown, StringTable, AllNames;
    var b;
    b, c := LastPass(p);
    SourcesSound(p, |p.sources|, l.romOf, byVrom);
    DistancesKept(p);
    FunctionsInOrder(p, l.romOf);
    SomeSection(p, b);
    TablesSame(b.out, c.out);
    forall k | 0 <= k < |c.out.sections| ensures SectionOk(c.out, l, byVrom, k) {
      RetargetAllFine(p, b, b.out.sections[k].relocs, l.romOf, byVrom);
      SectionFine(p, c, l, byVrom, k);
    }
  }

  lemma SomeSection(p: Program, b: Build)
    requires Readable(p) && AddSources(p, |p.sources|) == Some(b)
    requires exists i :: 0 <= i < |p.sources| && Loaded(p.sources[i])
    ensures |b.layout| == |b.out.sections|
  {
    hide Copy, Place, PlaceUnloaded, AddSource;
  }
}
