/** The mod symbol file: what is written for a context, and what is read back. */
module ModSymbols {
  import opened Machine
  import opened Binary

  const SECTION_SELF: nat := 0x8000_0000
  const IMPORT_VROM: Addr := 0xFFFF_FFFE
  const EVENT_VROM: Addr := 0xFFFF_FFFD

  const SECTION_ABSOLUTE: nat := 0xFFFE
  const SECTION_IMPORT: nat := 0xFFFD
  const SECTION_EVENT: nat := 0xFFFC

  datatype ModReloc = ModReloc(address: Addr, kind: nat, reference: bool, section: nat, offset: Addr, symbol: Addr)

  datatype Section = Section(rom: Addr, ram: Addr, size: Addr, bss: Addr, fixed: bool, global: bool,
                             relocs: seq<ModReloc>)

  /** `words` is the number of instruction words. */
  datatype Function = Function(name: Text, vram: Addr, rom: Addr, words: nat, section: nat)

  datatype Named = Named(name: Text, dependency: nat)
  datatype Patch = Patch(func: Addr, vrom: Addr, vram: Addr, flags: nat)
  datatype Callback = Callback(event: nat, func: nat)

  datatype Context = Context(
    sections: seq<Section>, functions: seq<Function>, dependencies: seq<Text>, imports: seq<Named>,
      dependencyEvents: seq<Named>,
    replacements: seq<Patch>, exports: seq<nat>, callbacks: seq<Callback>, events: seq<Text>, hooks: seq<Patch>)

  /** The indices of each section's functions, and the ROM addresses of the sections of
      the original program. */
  datatype Layout = Layout(functions: seq<seq<nat>>, romOf: nat -> Addr)

  const MAGIC: seq<Byte> := [0x4E, 0x36, 0x34, 0x52, 0x53, 0x59, 0x4D, 0x53]

  // ----- Writing -----

  predicate RelocsPrintable(c: Context) {
    forall i, j :: 0 <= i < |c.sections| && 0 <= j < |c.sections[i].relocs| ==>
      var r := c.sections[i].relocs[j];
      r.section != SECTION_ABSOLUTE
        && (r.section == SECTION_IMPORT || r.section == SECTION_EVENT || r.reference || r.section < |c.sections|)
  }

  predicate ExportsKnown(c: Context) {
    forall i :: 0 <= i < |c.exports| ==> c.exports[i] < |c.functions|
  }

  function NamesOf(s: seq<Named>): (r: seq<Text>)
    ensures |r| == |s| && forall i :: 0 <= i < |s| ==> r[i] == s[i].name
  {
    seq(|s|, i requires 0 <= i < |s| => s[i].name)
  }

  function ExportNames(c: Context): (r: seq<Text>)
    requires ExportsKnown(c)
    ensures |r| == |c.exports| && forall i :: 0 <= i < |r| ==> r[i] == c.functions[c.exports[i]].name
  {
    seq(|c.exports|, i requires 0 <= i < |c.exports| => c.functions[c.exports[i]].name)
  }

  /** All names, in the order in which they are written. */
  function AllNames(c: Context): seq<Text>
    requires ExportsKnown(c)
  {
    c.dependencies + NamesOf(c.imports) + NamesOf(c.dependencyEvents) + ExportNames(c) + c.events
  }

  /** Where each group of names begins among them. */
  function ImportBase(c: Context): nat { |c.dependencies| }
  function EventBase(c: Context): nat { ImportBase(c) + |c.imports| }
  function ExportBase(c: Context): nat { EventBase(c) + |c.dependencyEvents| }
  function ProvidedBase(c: Context): nat { ExportBase(c) + |c.exports| }

  function SubHeader(c: Context): (r: seq<Addr>)
    requires ExportsKnown(c)
    ensures |r| == 10
  {
    [Low(|c.sections|), Low(|c.dependencies|), Low(|c.imports|), Low(|c.dependencyEvents|), Low(|c.replacements|),
     Low(|c.exports|), Low(|c.callbacks|), Low(|c.events|), Low(|c.hooks|), Low(|StringTable(AllNames(c))|)]
  }

  /** The target of a relocation, as a word and the address or index beside it. */
  function TargetVrom(l: Layout, r: ModReloc): Addr {
    if r.section == SECTION_IMPORT then IMPORT_VROM
    else if r.section == SECTION_EVENT then EVENT_VROM
    else if r.reference then l.romOf(r.section)
    else Low(SECTION_SELF + r.section)
  }

  function TargetOffset(r: ModReloc): Addr {
    if r.section == SECTION_IMPORT || r.section == SECTION_EVENT then r.symbol else r.offset
  }

  function FuncWords(c: Context, s: Section, funcs: seq<nat>): (r: seq<Addr>)
    ensures |r| == 2 * |funcs|
  {
    if funcs == [] then []
    else
      var f := funcs[|funcs| - 1];
      FuncWords(c, s, funcs[..|funcs| - 1])
      + (if f < |c.functions| then [Minus(c.functions[f].vram, s.ram), Low(4 * c.functions[f].words)] else [0, 0])
  }

  function RelocWords(l: Layout, s: Section, relocs: seq<ModReloc>): (r: seq<Addr>)
    ensures |r| == 4 * |relocs|
  {
    if relocs == [] then []
    else
      var r := relocs[|relocs| - 1];
      RelocWords(l, s, relocs[..|relocs| - 1])
        + [Minus(r.address, s.ram), Low(r.kind), TargetOffset(r), TargetVrom(l, r)]
  }

  /** A section: its header with the flags left at 0, its functions, its relocations. */
  function SectionWords(c: Context, l: Layout, i: nat): (r: seq<Addr>)
    requires i < |c.sections| && i < |l.functions|
    ensures |r| == 7 + 2 * |l.functions[i]| + 4 * |c.sections[i].relocs|
  {
    var s := c.sections[i];
    [0, s.rom, s.ram, s.size, s.bss, Low(|l.functions[i]|), Low(|s.relocs|)] + FuncWords(c, s, l.functions[i])
      + RelocWords(l, s, s.relocs)
  }

  function SectionsWords(c: Context, l: Layout, n: nat): seq<Addr>
    requires n <= |c.sections| && n <= |l.functions|
  {
    if n == 0 then [] else SectionsWords(c, l, n - 1) + SectionWords(c, l, n - 1)
  }

  /** `pad` is whatever the three padding bytes of a dependency hold. */
  function DependencyWords(names: seq<Text>, n: nat, pad: nat -> Addr): (r: seq<Addr>)
    requires n <= |names|
    ensures |r| == 3 * n
  {
    if n == 0 then []
    else DependencyWords(names, n - 1, pad) + [pad(n - 1), Low(Start(names, n - 1)), Low(|names[n - 1]|)]
  }

  function NamedWords(names: seq<Text>, base: nat, table: seq<Named>, n: nat): (r: seq<Addr>)
    requires n <= |table| && base + |table| <= |names|
    ensures |r| == 3 * n
  {
    if n == 0 then []
    else NamedWords(names, base, table, n - 1)
         + [Low(Start(names, base + n - 1)), Low(|table[n - 1].name|), Low(table[n - 1].dependency)]
  }

  function PatchWords(patches: seq<Patch>): (r: seq<Addr>)
    ensures |r| == 4 * |patches|
  {
    if patches == [] then []
    else
      var p := patches[|patches| - 1];
      PatchWords(patches[..|patches| - 1]) + [p.func, p.vrom, p.vram, p.flags % 2]
  }

  function ExportWords(names: seq<Text>, base: nat, exports: seq<nat>, n: nat): (r: seq<Addr>)
    requires n <= |exports| && base + |exports| <= |names|
    ensures |r| == 3 * n
  {
    if n == 0 then []
    else ExportWords(names, base, exports, n - 1)
         + [Low(exports[n - 1]), Low(Start(names, base + n - 1)), Low(|names[base + n - 1]|)]
  }

  function CallbackWords(callbacks: seq<Callback>): (r: seq<Addr>)
    ensures |r| == 2 * |callbacks|
  {
    if callbacks == [] then []
    else
      var k := callbacks[|callbacks| - 1];
      CallbackWords(callbacks[..|callbacks| - 1]) + [Low(k.event), Low(k.func)]
  }

  function ProvidedWords(names: seq<Text>, base: nat, n: nat): (r: seq<Addr>)
    requires base + n <= |names|
    ensures |r| == 2 * n
  {
    if n == 0 then []
    else ProvidedWords(names, base, n - 1) + [Low(Start(names, base + n - 1)), Low(|names[base + n - 1]|)]
  }

  predicate Printable(c: Context, l: Layout) {
    ExportsKnown(c) && |l.functions| == |c.sections|
  }

  /** The tables after the string table. */
  function Tables(c: Context, l: Layout, pad: nat -> Addr): seq<Addr>
    requires Printable(c, l)
  {
    var names := AllNames(c);
    SectionsWords(c, l, |c.sections|)
    + DependencyWords(names, |c.dependencies|, pad)
    + NamedWords(names, ImportBase(c), c.imports, |c.imports|)
    + NamedWords(names, EventBase(c), c.dependencyEvents, |c.dependencyEvents|)
    + PatchWords(c.replacements)
    + ExportWords(names, ExportBase(c), c.exports, |c.exports|)
    + CallbackWords(c.callbacks)
    + ProvidedWords(names, ProvidedBase(c), |c.events|)
    + PatchWords(c.hooks)
  }

  /** The file; empty if a relocation cannot be written. */
  function Print(c: Context, l: Layout, pad: nat -> Addr): seq<Byte>
    requires Printable(c, l)
  {
    if !RelocsPrintable(c) then []
    else MAGIC + Bin([1]) + Bin(SubHeader(c)) + StringTable(AllNames(c)) + Bin(Tables(c, l, pad))
  }

  // ----- Reading -----

  /** The sections of the original program, by ROM address. */
  type ByVrom = map<Addr, nat>

  /** The last record of `size` words, and those before it. */
  function Init(words: seq<Addr>, size: nat): seq<Addr>
    requires size <= |words|
  {
    words[..|words| - size]
  }

  function Rec(words: seq<Addr>, size: nat): (r: seq<Addr>)
    requires size <= |words|
    ensures |r| == size
  {
    words[|words| - size..]
  }

  /** Functions must be aligned in the file and in size. */
  function ParseFuncs(words: seq<Addr>, s: Section, index: nat): Option<seq<Function>>
  {
    if |words| < 2 then Some([])
    else
      var before :- ParseFuncs(Init(words, 2), s, index);
      var r := Rec(words, 2);
      if Add(s.rom, r[0]) % 4 != 0 || r[1] % 4 != 0 then None
      else Some(before + [Function([], Add(s.ram, r[0]), Add(s.rom, r[0]), r[1] / 4, index)])
  }

  function ParseReloc(r: seq<Addr>, ram: Addr, total: nat, byVrom: ByVrom): Option<ModReloc>
    requires |r| == 4
  {
    var address, kind, vrom := Add(ram, r[0]), r[1] % 0x100, r[3];
    if vrom == IMPORT_VROM then Some(ModReloc(address, kind, true, SECTION_IMPORT, 0, r[2]))
    else if vrom == EVENT_VROM then Some(ModReloc(address, kind, true, SECTION_EVENT, 0, r[2]))
    else if vrom >= SECTION_SELF then
      var section := (vrom - SECTION_SELF) % 0x1_0000;
      if section >= total then None else Some(ModReloc(address, kind, false, section, r[2], 0))
    else if vrom !in byVrom then None
    else Some(ModReloc(address, kind, true, byVrom[vrom] % 0x1_0000, r[2], 0))
  }

  function ParseRelocs(words: seq<Addr>, ram: Addr, total: nat, byVrom: ByVrom): Option<seq<ModReloc>>
  {
    if |words| < 4 then Some([])
    else
      var before :- ParseRelocs(Init(words, 4), ram, total, byVrom);
      var reloc :- ParseReloc(Rec(words, 4), ram, total, byVrom);
      Some(before + [reloc])
  }

  /** Words read at the cursor, and the cursor after them. */
  datatype Taken = Taken(words: seq<Addr>, at: nat)

  function Take(data: seq<Byte>, at: nat, n: nat): (r: Option<Taken>)
    ensures r.Some? ==> |r.value.words| == n
  {
    var words :- ReadWords(data, at, n);
    Some(Taken(words, at + 4 * n))
  }

  datatype Sections = Sections(sections: seq<Section>, functions: seq<Function>, at: nat)

  /** The next section: its address is fixed exactly if it is always loaded. */
  function ParseSection(data: seq<Byte>, so: Sections, total: nat, byVrom: ByVrom): Option<Sections> {
    var t :- Take(data, so.at, 7);
    var h := t.words;
    var fixed, global := h[0] % 2 == 1, (h[0] / 2) % 2 == 1;
    if fixed != global then None
    else
      var funcs :- Take(data, t.at, 2 * (h[5] as nat));
      var relocs :- Take(data, funcs.at, 4 * (h[6] as nat));
      var blank := Section(h[1], h[2], h[3], h[4], fixed, global, []);
      var functions :- ParseFuncs(funcs.words, blank, |so.sections|);
      var parsed :- ParseRelocs(relocs.words, h[2], total, byVrom);
      Some(Sections(so.sections + [blank.(relocs := parsed)], so.functions + functions, relocs.at))
  }

  function ParseSections(data: seq<Byte>, at: nat, n: nat, total: nat, byVrom: ByVrom): Option<Sections> {
    if n == 0 then Some(Sections([], [], at))
    else
      var so :- ParseSections(data, at, n - 1, total, byVrom);
      ParseSection(data, so, total, byVrom)
  }

  /** A name in the string table; none if it is not inside the table. */
  function Cut(strings: seq<Byte>, start: Addr, size: Addr): Option<Text> {
    if start + size > |strings| then None else Some(strings[start..start + size])
  }

  /** The test the program makes adds the two words in 32 bits. */
  predicate PassesBound(strings: seq<Byte>, start: Addr, size: Addr) {
    Add(start, size) <= |strings|
  }

  /** The test accepts exactly the names inside the table, unless the end of the name
      wraps to an address that is inside it. */
  lemma BoundIsExact(strings: seq<Byte>, start: Addr, size: Addr)
    requires |strings| < WORD
    ensures (PassesBound(strings, start, size) <==> Cut(strings, start, size).Some?)
            <==> start + size < WORD || Add(start, size) > |strings|
  {
    if start + size < WORD {
      assert Add(start, size) == start + size;
    }
  }

  /** One byte at the end of the address space passes, for every table. */
  lemma WrappedNamePasses(strings: seq<Byte>)
    requires |strings| < WORD
    ensures PassesBound(strings, WORD - 1, 1) && Cut(strings, WORD - 1, 1).None?
  {
  }

  /** A dependency is registered once, whatever the file repeats. */
  function ParseDependencies(words: seq<Addr>, strings: seq<Byte>): Option<seq<Text>> {
    if |words| < 3 then Some([])
    else
      var before :- ParseDependencies(Init(words, 3), strings);
      var name :- Cut(strings, Rec(words, 3)[1], Rec(words, 3)[2]);
      Some(if name in before then before else before + [name])
  }

  /** Imports must name one of the `known` dependencies. An event of a dependency that was
      not registered is dropped, and one that is repeated is registered once. */
  datatype Rule = Imports(known: nat) | Events(known: nat)

  function ParseNamed(words: seq<Addr>, strings: seq<Byte>, rule: Rule): Option<seq<Named>> {
    if |words| < 3 then Some([])
    else
      var before :- ParseNamed(Init(words, 3), strings, rule);
      var r := Rec(words, 3);
      var name :- Cut(strings, r[0], r[1]);
      var entry := Named(name, r[2]);
      if rule.Imports? then
        if r[2] >= rule.known then None else Some(before + [entry])
      else
        Some(if r[2] >= rule.known || entry in before then before else before + [entry])
  }

  function ParsePatches(words: seq<Addr>): seq<Patch> {
    if |words| < 4 then []
    else
      var r := Rec(words, 4);
      ParsePatches(Init(words, 4)) + [Patch(r[0], r[1], r[2], r[3])]
  }

  datatype Exports = Exports(indices: seq<nat>, functions: seq<Function>)

  /** An exported function takes its export's name, once. */
  function ParseExports(words: seq<Addr>, strings: seq<Byte>, functions: seq<Function>): (e: Option<Exports>)
    ensures e.Some? ==> |e.value.functions| == |functions|
  {
    if |words| < 3 then Some(Exports([], functions))
    else
      var before :- ParseExports(Init(words, 3), strings, functions);
      var r := Rec(words, 3);
      if r[0] >= |functions| then None
      else
        var name :- Cut(strings, r[1], r[2]);
        if before.functions[r[0]].name != [] then None
        else Some(Exports(before.indices + [r[0]], before.functions[r[0] := before.functions[r[0]].(name := name)]))
  }

  function ParseCallbacks(words: seq<Addr>, events: nat, funcs: nat): Option<seq<Callback>> {
    if |words| < 2 then Some([])
    else
      var before :- ParseCallbacks(Init(words, 2), events, funcs);
      var r := Rec(words, 2);
      if r[0] >= events || r[1] >= funcs then None else Some(before + [Callback(r[0], r[1])])
  }

  function ParseProvided(words: seq<Addr>, strings: seq<Byte>): Option<seq<Text>> {
    if |words| < 2 then Some([])
    else
      var before :- ParseProvided(Init(words, 2), strings);
      var name :- Cut(strings, Rec(words, 2)[0], Rec(words, 2)[1]);
      Some(before + [name])
  }

  /** The tables between the sections and the functions that are exported. */
  datatype Front = Front(dependencies: seq<Text>, imports: seq<Named>, events: seq<Named>, replacements: seq<Patch>,
                         at: nat)

  function ParseFront(data: seq<Byte>, at: nat, strings: seq<Byte>, dependencies: nat, imports: nat, events: nat,
                      replacements: nat): Option<Front> {
    var t1 :- Take(data, at, 3 * dependencies);
    var names :- ParseDependencies(t1.words, strings);
    var t2 :- Take(data, t1.at, 3 * imports);
    var imported :- ParseNamed(t2.words, strings, Imports(dependencies));
    var t3 :- Take(data, t2.at, 3 * events);
    var depended :- ParseNamed(t3.words, strings, Events(|names|));
    var t4 :- Take(data, t3.at, 4 * replacements);
    Some(Front(names, imported, depended, ParsePatches(t4.words), t4.at))
  }

  /** The tables from the exports on. */
  datatype Back = Back(exports: Exports, callbacks: seq<Callback>, events: seq<Text>, hooks: seq<Patch>, at: nat)

  function ParseBack(data: seq<Byte>, at: nat, strings: seq<Byte>, functions: seq<Function>, dependencyEvents: nat,
                     exports: nat, callbacks: nat, events: nat, hooks: nat): Option<Back>
  {
    var t1 :- Take(data, at, 3 * exports);
    var exported :- ParseExports(t1.words, strings, functions);
    var t2 :- Take(data, t1.at, 2 * callbacks);
    var called :- ParseCallbacks(t2.words, dependencyEvents, |functions|);
    var t3 :- Take(data, t2.at, 2 * events);
    var provided :- ParseProvided(t3.words, strings);
    var t4 :- Take(data, t3.at, 4 * hooks);
    Some(Back(exported, called, provided, ParsePatches(t4.words), t4.at))
  }

  /** Everything after the file header; it must end where the data ends. */
  function ParseV1(data: seq<Byte>, byVrom: ByVrom): Option<Context> {
    var t :- Take(data, 12, 10);
    var h := t.words;
    var size: nat := h[9];
    if size % 4 != 0 || t.at + size > |data| then None
    else
      var strings := data[t.at..t.at + size];
      var so :- ParseSections(data, t.at + size, h[0], h[0], byVrom);
      var front :- ParseFront(data, so.at, strings, h[1], h[2], h[3], h[4]);
      var back :- ParseBack(data, front.at, strings, so.functions, h[3], h[5], h[6], h[7], h[8]);
      if back.at != |data| then None
      else Some(Context(so.sections, back.exports.functions, front.dependencies, front.imports, front.events,
                        front.replacements,
                        back.exports.indices, back.callbacks, back.events, back.hooks))
  }

  datatype Outcome = Good(context: Context) | NotASymbolFile | UnknownVersion | Corrupt

  function Parse(data: seq<Byte>, byVrom: ByVrom): Outcome {
    if |data| < 12 || data[..8] != MAGIC then NotASymbolFile
    else if Binary.WordAt(data, 8) != 1 then UnknownVersion
    else match ParseV1(data, byVrom)
         case None => Corrupt
         case Some(c) => Good(c)
  }

  // ----- The words of the functions -----

  /** A mod as it is loaded: the file holds only the sizes of functions. */
  datatype Mod = Ready(context: Context, words: seq<seq<Addr>>) | OutOfBounds | Refused(why: Outcome)

  predicate InBinary(f: Function, binary: seq<Byte>) {
    f.rom + 4 * f.words <= |binary|
  }

  predicate AllInBinary(functions: seq<Function>, binary: seq<Byte>) {
    forall i :: 0 <= i < |functions| ==> InBinary(functions[i], binary)
  }

  function WordsOf(functions: seq<Function>, binary: seq<Byte>): seq<seq<Addr>>
    requires AllInBinary(functions, binary)
  {
    seq(|functions|, i requires 0 <= i < |functions| => WordsAt(binary, functions[i].rom, functions[i].words))
  }

  /** `parse_mod_symbols`: the file, and the words of its functions out of the binary. */
  function Load(data: seq<Byte>, binary: seq<Byte>, byVrom: ByVrom): Mod {
    var parsed := Parse(data, byVrom);
    if !parsed.Good? then Refused(parsed)
    else if AllInBinary(parsed.context.functions, binary)
    then Ready(parsed.context, WordsOf(parsed.context.functions, binary))
    else OutOfBounds
  }
}
