/** Building the context of a mod: the sections of a linked file are merged while they
    keep one distance between file and memory, their functions are numbered again, and
    their relocations are turned to the merged sections. */
module ModContext {
  import opened Machine
  import opened Binary
  import opened ModSymbols
  import Halves
  import ElfRelocs

  const NOWHERE: Addr := 0xFFFF_FFFF

  const R_NONE := 0
  const R_32 := 2
  const R_26 := 4
  const R_HI16 := 5
  const R_LO16 := 6

  /** The dependencies that are always known: the mod itself and the program. */
  const SELF: Text := [0x2E]
  const BASE_PROGRAM: Text := [0x2A]

  datatype CallbackTarget = CallbackTarget(dependency: Text, event: Text)

  /** What the name of a section makes of its functions. */
  datatype Role =
    | Ordinary
    | Replaces(forced: bool)
    | Exported
    | Announces
    | StandsFor(dependency: Text)
    | Listens(target: Option<CallbackTarget>)
    | Hooks(hooked: Text, atReturn: bool)

  datatype Source = Source(rom: Addr, ram: Addr, size: Addr, role: Role, functions: seq<nat>, relocs: seq<ModReloc>)

  /** A function of the original program. */
  datatype Original = Original(vrom: Addr, vram: Addr)

  /** The linked file, and what is known of the original program: its functions by name,
      and where each of its sections is and whether it can move. */
  datatype Program = Program(
    sources: seq<Source>, functions: seq<Function>, byVram: map<Addr, seq<nat>>, rom: ElfRelocs.Rom,
    dependencies: seq<Text>, imports: seq<Named>, dependencyEvents: seq<Named>,
    originals: map<Text, Original>, vramOf: nat -> Addr, movable: nat -> bool)

  datatype Build = Build(out: Context, layout: seq<seq<nat>>, rom: ElfRelocs.Rom, delta: Addr, mapped: map<nat, nat>)

  predicate Loaded(s: Source) {
    s.rom != NOWHERE
  }

  /** Whether the functions and relocations of a section are copied. */
  predicate Copied(s: Source) {
    Loaded(s) && !s.role.Announces? && !s.role.StandsFor?
  }

  function Delta(s: Source): Addr {
    Minus(s.ram, s.rom)
  }

  function SectionDelta(s: Section): Addr {
    Minus(s.ram, s.rom)
  }

  const BLANK := Section(0, 0, 0, 0, false, false, [])

  function Blank(p: Program): Build {
    Build(Context([BLANK], [], p.dependencies, p.imports, p.dependencyEvents, [], [], [], [], []), [], p.rom, NOWHERE,
          map[])
  }

  // ----- Sections -----

  function AlignUp16(v: Addr): Addr {
    Add(v, 15) / 16 * 16
  }

  predicate Opened(b: Build) {
    b.layout != [] && |b.out.sections| == |b.layout|
  }

  function Current(b: Build): nat
    requires Opened(b)
  {
    |b.layout| - 1
  }

  function WithSection(b: Build, s: Section): Build
    requires Opened(b)
  {
    b.(out := b.out.(sections := b.out.sections[Current(b) := s]))
  }

  /** A section without contents directly after the current one grows its bss; any other
      is dropped. */
  function PlaceUnloaded(b: Build, i: nat, s: Source): Build {
    if !Opened(b) || s.size == 0 then b
    else
      var o := b.out.sections[Current(b)];
      var bssStart := Add(o.ram, o.size);
      var bssEnd := Add(bssStart, o.bss);
      if bssEnd <= s.ram <= AlignUp16(bssEnd) then
        WithSection(b, o.(bss := Minus(Add(s.ram, s.size), bssStart))).(mapped := b.mapped[i := Current(b)])
      else b
  }

  /** A section at the distance of the current one is merged into it. */
  function Place(b: Build, i: nat, s: Source): (r: Build)
    requires b.layout == [] || Opened(b)
    requires b.layout == [] ==> b.delta != Delta(s)
    ensures Opened(r)
  {
    if b.delta == Delta(s) then
      var o := b.out.sections[Current(b)];
      WithSection(b, o.(size := Minus(Add(s.rom, s.size), o.rom))).(mapped := b.mapped[i := Current(b)])
    else
      Build(b.out.(sections := b.out.sections[..|b.layout|] + [BLANK.(rom := s.rom, ram := s.ram, size := s.size)]),
            b.layout + [[]], b.rom, Delta(s), b.mapped[i := |b.layout|])
  }

  // ----- Functions -----

  function With<T(==)>(s: seq<T>, x: T): (r: seq<T>)
    ensures x in r
  {
    if x in s then s else s + [x]
  }

  function IndexOf<T(==)>(s: seq<T>, x: T): (r: nat)
    requires x in s
    ensures r < |s| && s[r] == x
  {
    if s[|s| - 1] == x then |s| - 1 else IndexOf(s[..|s| - 1], x)
  }

  predicate KnownDependency(c: Context, name: Text) {
    name in c.dependencies || name == SELF || name == BASE_PROGRAM
  }

  /** What the role of its section makes of the function that becomes number `n`. */
  function Mark(p: Program, c: Context, role: Role, name: Text, n: nat): Option<Context> {
    match role
    case Replaces(forced) =>
      if name !in p.originals then None
      else
        var o := p.originals[name];
        Some(c.(replacements := c.replacements + [Patch(Low(n), o.vrom, o.vram, if forced then 1 else 0)]))
    case Hooks(hooked, atReturn) =>
      if hooked !in p.originals then None
      else
        var o := p.originals[hooked];
        Some(c.(hooks := c.hooks + [Patch(Low(n), o.vrom, o.vram, if atReturn then 1 else 0)]))
    case Exported =>
      Some(c.(exports := c.exports + [n]))
    case Listens(target) =>
      if target.None? || !KnownDependency(c, target.value.dependency) then None
      else
        var dependencies := With(c.dependencies, target.value.dependency);
        var event := Named(target.value.event, IndexOf(dependencies, target.value.dependency));
        var events := With(c.dependencyEvents, event);
        Some(c.(dependencies := dependencies, dependencyEvents := events,
                callbacks := c.callbacks + [Callback(IndexOf(events, event), n)]))
    case _ => Some(c)
  }

  function CopyFunction(p: Program, b: Build, role: Role, f: Function): Option<Build>
    requires Opened(b)
  {
    var n, k := |b.out.functions|, Current(b);
    var marked :- Mark(p, b.out, role, f.name, n);
    var copy := Function(if role.Exported? then f.name else [], f.vram, f.rom, f.words, k);
    Some(b.(out := marked.(functions := marked.functions + [copy]), layout := b.layout[k := b.layout[k] + [n]]))
  }

  predicate FunctionsKnown(p: Program, funcs: seq<nat>) {
    forall j :: 0 <= j < |funcs| ==> funcs[j] < |p.functions|
  }

  /** The first `n` of the functions `funcs`. */
  function CopyFunctions(p: Program, b: Build, role: Role, funcs: seq<nat>, n: nat): (r: Option<Build>)
    requires Opened(b) && FunctionsKnown(p, funcs) && n <= |funcs|
    ensures r.Some? ==> Opened(r.value)
  {
    if n == 0 then Some(b)
    else
      var before :- CopyFunctions(p, b, role, funcs, n - 1);
      CopyFunction(p, before, role, p.functions[funcs[n - 1]])
  }

  /** An event's section announces its functions by name. */
  function Announce(p: Program, b: Build, funcs: seq<nat>, n: nat): Build
    requires FunctionsKnown(p, funcs) && n <= |funcs|
  {
    if n == 0 then b
    else
      var before := Announce(p, b, funcs, n - 1);
      before.(out := before.out.(events := With(before.out.events, p.functions[funcs[n - 1]].name)))
  }

  // ----- Relocations -----

  predicate RelocKnown(p: Program, r: ModReloc) {
    r.reference || r.section < |p.sources|
  }

  predicate RelocsKnown(p: Program, relocs: seq<ModReloc>) {
    forall j :: 0 <= j < |relocs| ==> RelocKnown(p, relocs[j])
  }

  function AppendReloc(b: Build, r: ModReloc): Build
    requires Opened(b)
  {
    var o := b.out.sections[Current(b)];
    WithSection(b, o.(relocs := o.relocs + [r]))
  }

  function RefVram(p: Program, section: nat): Addr {
    if section == SECTION_ABSOLUTE then 0 else p.vramOf(section)
  }

  function RefAddress(p: Program, r: ModReloc): Addr {
    Add(RefVram(p, r.section), r.offset)
  }

  /** Where in the file the word of a relocation lies. */
  function RomAddress(s: Source, r: ModReloc): Addr {
    Add(Minus(r.address, s.ram), s.rom)
  }

  /** The word with its immediate replaced. */
  function WithImmediate(word: Addr, immediate: Halves.Half): Addr {
    word / 0x1_0000 * 0x1_0000 + immediate
  }

  function HighPart(value: Addr): Halves.Half {
    Minus(value, Halves.Extended(Halves.Low16(value))) / 0x1_0000
  }

  /** A relocation against a place that cannot move is resolved now, unless it is a jump. */
  function Settle(p: Program, b: Build, s: Source, r: ModReloc): Option<Build>
    requires Opened(b)
  {
    var at, value := RomAddress(s, r), RefAddress(p, r);
    var word := ElfRelocs.WordOf(b.rom, at);
    if r.kind == R_32 then Some(b.(rom := b.rom[at := word]))
    else if r.kind == R_26 then Some(AppendReloc(b, r).(rom := b.rom[at := word]))
    else if r.kind == R_HI16 then Some(b.(rom := b.rom[at := WithImmediate(word, HighPart(value))]))
    else if r.kind == R_LO16 then Some(b.(rom := b.rom[at := WithImmediate(word, Halves.Low16(value))]))
    else None
  }

  /** The first function at an address that is listed in the section. */
  function FunctionIn(p: Program, candidates: seq<nat>, section: nat): Option<Function> {
    if candidates == [] then None
    else if candidates[0] < |p.functions|
      && p.functions[candidates[0]].section == section then Some(p.functions[candidates[0]])
    else FunctionIn(p, candidates[1..], section)
  }

  function FunctionAt(p: Program, vram: Addr, section: nat): Option<Function> {
    if vram in p.byVram then FunctionIn(p, p.byVram[vram], section) else None
  }

  /** A jump to an event or an import becomes one to its symbol. */
  function ToSymbol(p: Program, b: Build, s: Source, r: ModReloc): Option<Build>
    requires Opened(b) && r.section < |p.sources|
  {
    var target := p.sources[r.section];
    var offset := Minus(Add(r.offset, target.ram), s.ram);
    var f :- if r.kind == R_26 then FunctionAt(p, Add(r.offset, target.ram), r.section) else None;
    if target.role.StandsFor? then
      if !KnownDependency(b.out, target.role.dependency) then None
      else
        var dependencies := With(b.out.dependencies, target.role.dependency);
        var symbol := Named(f.name, IndexOf(dependencies, target.role.dependency));
        var imports := With(b.out.imports, symbol);
        Some(AppendReloc(b.(out := b.out.(dependencies := dependencies, imports := imports)),
                         ModReloc(r.address, r.kind, true, SECTION_IMPORT, offset, Low(IndexOf(imports, symbol)))))
    else
      var events := With(b.out.events, f.name);
      Some(AppendReloc(b.(out := b.out.(events := events)),
                       ModReloc(r.address, r.kind, true, SECTION_EVENT, offset, Low(IndexOf(events, f.name)))))
  }

  predicate Special(section: nat) {
    section == SECTION_IMPORT || section == SECTION_EVENT
  }

  predicate Fixed(p: Program, section: nat) {
    section == SECTION_ABSOLUTE || !p.movable(section)
  }

  /** Whether a relocation stays one between sections of the mod. */
  predicate Internal(p: Program, r: ModReloc) {
    && r.kind != R_NONE && !r.reference && !Special(r.section) && r.section < |p.sources|
    && !p.sources[r.section].role.Announces? && !p.sources[r.section].role.StandsFor?
  }

  /** Within the mod, code can refer only to what keeps its distance to it. */
  function CopyReloc(p: Program, b: Build, s: Source, r: ModReloc): Option<Build>
    requires Opened(b) && RelocKnown(p, r)
  {
    if r.kind == R_NONE then Some(b)
    else if Special(r.section) then Some(AppendReloc(b, r))
    else if r.reference then
      if Fixed(p, r.section) then Settle(p, b, s, r) else Some(AppendReloc(b, r))
    else if !Internal(p, r) then ToSymbol(p, b, s, r)
    else if Loaded(p.sources[r.section]) && Delta(p.sources[r.section]) != Delta(s) then None
    else Some(AppendReloc(b, r.(symbol := 0)))
  }

  function CopyRelocs(p: Program, b: Build, s: Source, n: nat): (r: Option<Build>)
    requires Opened(b) && RelocsKnown(p, s.relocs) && n <= |s.relocs|
    ensures r.Some? ==> Opened(r.value)
  {
    if n == 0 then Some(b)
    else
      var before :- CopyRelocs(p, b, s, n - 1);
      CopyReloc(p, before, s, s.relocs[n - 1])
  }

  // ----- All sections, and the last pass -----

  /** Sections list functions that exist, relocations within the mod name sections that
      exist; and the first section that is loaded is not at the distance that stands for
      none: its merging would look for a section before the first. */
  predicate Readable(p: Program) {
    && |p.sources| <= SECTION_EVENT
    && (forall i :: 0 <= i < |p.sources| ==>
            FunctionsKnown(p, p.sources[i].functions) && RelocsKnown(p, p.sources[i].relocs))
    && (forall i ::
          0 <= i < |p.sources| && Loaded(p.sources[i]) && (forall j :: 0 <= j < i ==> !Loaded(p.sources[j])) ==>
            Delta(p.sources[i]) != NOWHERE)
  }

  function Copy(p: Program, b: Build, s: Source): (r: Option<Build>)
    requires Opened(b) && FunctionsKnown(p, s.functions) && RelocsKnown(p, s.relocs)
    ensures r.Some? ==> Opened(r.value)
  {
    if s.role.Announces? then Some(Announced(p, b, s))
    else if s.role.StandsFor? then Some(b)
    else
      var copied :- CopyFunctions(p, b, s.role, s.functions, |s.functions|);
      CopyRelocs(p, copied, s, |s.relocs|)
  }

  function Announced(p: Program, b: Build, s: Source): (r: Build)
    requires FunctionsKnown(p, s.functions)
    ensures Opened(b) ==> Opened(r)
  {
    AnnounceKeeps(p, b, s.functions, |s.functions|);
    Announce(p, b, s.functions, |s.functions|)
  }

  lemma {:induction false} AnnounceKeeps(p: Program, b: Build, funcs: seq<nat>, n: nat)
    requires FunctionsKnown(p, funcs) && n <= |funcs|
    ensures var r := Announce(p, b, funcs, n);
            r == b.(out := b.out.(events := r.out.events))
  {
    if n > 0 {
      AnnounceKeeps(p, b, funcs, n - 1);
    }
  }

  function AddSource(p: Program, b: Build, i: nat): Option<Build>
    requires Readable(p) && i < |p.sources| && Begun(p, b, i)
  {
    var s := p.sources[i];
    if Loaded(s) then Copy(p, Place(b, i, s), s) else Some(PlaceUnloaded(b, i, s))
  }

  /** A section is open exactly if one was loaded. */
  predicate Begun(p: Program, b: Build, n: nat)
    requires n <= |p.sources|
  {
    if forall j :: 0 <= j < n ==>
           !Loaded(p.sources[j]) then b.layout == [] && b.delta == NOWHERE && |b.out.sections| == 1
    else Opened(b)
  }

  function AddSources(p: Program, n: nat): (r: Option<Build>)
    requires Readable(p) && n <= |p.sources|
    ensures r.Some? ==> Begun(p, r.value, n)
  {
    if n == 0 then Some(Blank(p))
    else
      var before :- AddSources(p, n - 1);
      AddSource(p, before, n - 1)
  }

  /** A relocation within the mod, turned to the section its target became part of. */
  function Retarget(p: Program, b: Build, r: ModReloc): Option<ModReloc>
    requires RelocKnown(p, r)
  {
    if r.reference then Some(r)
    else if r.section !in b.mapped || b.mapped[r.section] >= |b.out.sections| then None
    else
      var k := b.mapped[r.section];
      Some(r.(section := k, offset := Minus(Add(r.offset, p.sources[r.section].ram), b.out.sections[k].ram)))
  }

  function RetargetAll(p: Program, b: Build, relocs: seq<ModReloc>): Option<seq<ModReloc>>
    requires RelocsKnown(p, relocs)
  {
    if relocs == [] then Some([])
    else
      var before :- RetargetAll(p, b, relocs[..|relocs| - 1]);
      var last :- Retarget(p, b, relocs[|relocs| - 1]);
      Some(before + [last])
  }

  predicate SectionsKnown(p: Program, sections: seq<Section>) {
    forall k :: 0 <= k < |sections| ==> RelocsKnown(p, sections[k].relocs)
  }

  function RetargetSections(p: Program, b: Build, n: nat): Option<seq<Section>>
    requires n <= |b.out.sections| && SectionsKnown(p, b.out.sections)
  {
    if n == 0 then Some([])
    else
      var before :- RetargetSections(p, b, n - 1);
      var relocs :- RetargetAll(p, b, b.out.sections[n - 1].relocs);
      Some(before + [b.out.sections[n - 1].(relocs := relocs)])
  }

  // ----- What the copying keeps known -----

  lemma CopyRelocKnown(p: Program, b: Build, s: Source, r: ModReloc)
    requires Opened(b) && RelocKnown(p, r) && SectionsKnown(p, b.out.sections) && CopyReloc(p, b, s, r).Some?
    ensures SectionsKnown(p, CopyReloc(p, b, s, r).value.out.sections)
  {
    hide FunctionAt, IndexOf, Add, Minus, HighPart, WithImmediate, KnownDependency;
  }

  lemma {:induction false} CopyRelocsKnown(p: Program, b: Build, s: Source, n: nat)
    requires Opened(b) && RelocsKnown(p, s.relocs) && n <= |s.relocs| && SectionsKnown(p, b.out.sections)
             && CopyRelocs(p, b, s, n).Some?
    ensures SectionsKnown(p, CopyRelocs(p, b, s, n).value.out.sections)
  {
    hide CopyReloc, SectionsKnown;
    if n > 0 {
      CopyRelocsKnown(p, b, s, n - 1);
      CopyRelocKnown(p, CopyRelocs(p, b, s, n - 1).value, s, s.relocs[n - 1]);
    }
  }

  lemma MarkSections(p: Program, c: Context, role: Role, name: Text, n: nat)
    requires Mark(p, c, role, name, n).Some?
    ensures Mark(p, c, role, name, n).value.sections == c.sections
            && Mark(p, c, role, name, n).value.functions == c.functions
  {
    hide IndexOf, KnownDependency;
  }

  lemma {:induction false} CopyFunctionsSections(p: Program, b: Build, role: Role, funcs: seq<nat>, n: nat)
    requires Opened(b) && FunctionsKnown(p, funcs) && n <= |funcs| && CopyFunctions(p, b, role, funcs, n).Some?
    ensures var r := CopyFunctions(p, b, role, funcs, n).value;
            r.out.sections == b.out.sections && |r.layout| == |b.layout| && r.delta == b.delta && r.mapped == b.mapped
  {
    hide Mark;
    if n > 0 {
      CopyFunctionsSections(p, b, role, funcs, n - 1);
      var before := CopyFunctions(p, b, role, funcs, n - 1).value;
      MarkSections(p, before.out, role, p.functions[funcs[n - 1]].name, |before.out.functions|);
    }
  }

  lemma CopyKnown(p: Program, b: Build, s: Source)
    requires Opened(b) && FunctionsKnown(p, s.functions) && RelocsKnown(p, s.relocs) && SectionsKnown(p, b.out.sections)
             && Copy(p, b, s).Some?
    ensures SectionsKnown(p, Copy(p, b, s).value.out.sections)
  {
    hide CopyFunctions, CopyRelocs, SectionsKnown;
    if s.role.Announces? {
      AnnounceKeeps(p, b, s.functions, |s.functions|);
    } else if !s.role.StandsFor? {
      CopyFunctionsSections(p, b, s.role, s.functions, |s.functions|);
      CopyRelocsKnown(p, CopyFunctions(p, b, s.role, s.functions, |s.functions|).value, s, |s.relocs|);
    }
  }

  lemma PlacesKnown(p: Program, b: Build, i: nat, s: Source)
    requires SectionsKnown(p, b.out.sections)
    ensures SectionsKnown(p, PlaceUnloaded(b, i, s).out.sections)
    ensures (b.layout == [] || Opened(b)) && (b.layout == [] ==> b.delta != Delta(s)) ==>
              SectionsKnown(p, Place(b, i, s).out.sections)
  {
    hide Add, Minus, AlignUp16, Delta, RelocKnown;
  }

  lemma {:induction false} AddSourcesKnown(p: Program, n: nat)
    requires Readable(p) && n <= |p.sources| && AddSources(p, n).Some?
    ensures SectionsKnown(p, AddSources(p, n).value.out.sections)
  {
    hide SectionsKnown, Place, PlaceUnloaded, Copy;
    if n > 0 {
      AddSourcesKnown(p, n - 1);
      var b := AddSources(p, n - 1).value;
      PlacesKnown(p, b, n - 1, p.sources[n - 1]);
      if Loaded(p.sources[n - 1]) {
        CopyKnown(p, Place(b, n - 1, p.sources[n - 1]), p.sources[n - 1]);
      }
    } else {
      StartKnown(p);
    }
  }

  lemma StartKnown(p: Program)
    ensures SectionsKnown(p, Blank(p).out.sections)
  {
  }

  /** `build_mod_context`. */
  function BuildMod(p: Program): Option<Build>
    requires Readable(p)
  {
    var b :- AddSources(p, |p.sources|);
    AddSourcesKnown(p, |p.sources|);
    var sections :- RetargetSections(p, b, |b.out.sections|);
    Some(b.(out := b.out.(sections := sections)))
  }
}
