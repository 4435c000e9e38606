/** Reading the symbol file: a cursor over the data, and a loop over each table that
    stops at the first record that is wrong. */
module SymbolReader {
  import opened Machine
  import opened Binary
  import opened ModSymbols

  class Reader {
    const data: seq<Byte>
    var cursor: nat

    constructor (data: seq<Byte>)
      ensures this.data == data && cursor == 0
    {
      this.data := data;
      cursor := 0;
    }

    /** `n` words at the cursor, which moves past them; it stays if they are not there. */
    method ReadStruct(n: nat) returns (r: Option<seq<Addr>>)
      modifies this
      ensures match Take(data, old(cursor), n)
              case None => r == None && cursor == old(cursor)
              case Some(t) => r == Some(t.words) && cursor == t.at
    {
      if cursor + 4 * n > |data| {
        return None;
      }
      var words := WordsAt(data, cursor, n);
      cursor := cursor + 4 * n;
      r := Some(words);
    }
  }

  // ----- A table fails as soon as one of its records does -----

  lemma InitPrefix(words: seq<Addr>, size: nat, k: nat)
    requires k + size <= |words|
    ensures Init(words, size)[..k] == words[..k]
  {
  }

  lemma {:induction false} FuncsFail(words: seq<Addr>, n: nat, k: nat, s: Section, index: nat)
    requires k <= n && |words| == 2 * n && ParseFuncs(words[..2 * k], s, index).None?
    ensures ParseFuncs(words, s, index).None?
    decreases n
  {
    if k < n {
      InitPrefix(words, 2, 2 * k);
      FuncsFail(Init(words, 2), n - 1, k, s, index);
    } else {
      assert words[..2 * k] == words;
    }
  }

  lemma {:induction false} RelocsFail(words: seq<Addr>, n: nat, k: nat, ram: Addr, total: nat, byVrom: ByVrom)
    requires k <= n && |words| == 4 * n && ParseRelocs(words[..4 * k], ram, total, byVrom).None?
    ensures ParseRelocs(words, ram, total, byVrom).None?
    decreases n
  {
    if k < n {
      InitPrefix(words, 4, 4 * k);
      RelocsFail(Init(words, 4), n - 1, k, ram, total, byVrom);
    } else {
      assert words[..4 * k] == words;
    }
  }

  lemma {:induction false} DependenciesFail(words: seq<Addr>, n: nat, k: nat, strings: seq<Byte>)
    requires k <= n && |words| == 3 * n && ParseDependencies(words[..3 * k], strings).None?
    ensures ParseDependencies(words, strings).None?
    decreases n
  {
    if k < n {
      InitPrefix(words, 3, 3 * k);
      DependenciesFail(Init(words, 3), n - 1, k, strings);
    } else {
      assert words[..3 * k] == words;
    }
  }

  lemma {:induction false} NamedFail(words: seq<Addr>, n: nat, k: nat, strings: seq<Byte>, rule: Rule)
    requires k <= n && |words| == 3 * n && ParseNamed(words[..3 * k], strings, rule).None?
    ensures ParseNamed(words, strings, rule).None?
    decreases n
  {
    if k < n {
      InitPrefix(words, 3, 3 * k);
      NamedFail(Init(words, 3), n - 1, k, strings, rule);
    } else {
      assert words[..3 * k] == words;
    }
  }

  lemma {:induction false} ExportsFail(words: seq<Addr>, n: nat, k: nat, strings: seq<Byte>, functions: seq<Function>)
    requires k <= n && |words| == 3 * n && ParseExports(words[..3 * k], strings, functions).None?
    ensures ParseExports(words, strings, functions).None?
    decreases n
  {
    if k < n {
      InitPrefix(words, 3, 3 * k);
      ExportsFail(Init(words, 3), n - 1, k, strings, functions);
    } else {
      assert words[..3 * k] == words;
    }
  }

  lemma {:induction false} CallbacksFail(words: seq<Addr>, n: nat, k: nat, events: nat, funcs: nat)
    requires k <= n && |words| == 2 * n && ParseCallbacks(words[..2 * k], events, funcs).None?
    ensures ParseCallbacks(words, events, funcs).None?
    decreases n
  {
    if k < n {
      InitPrefix(words, 2, 2 * k);
      CallbacksFail(Init(words, 2), n - 1, k, events, funcs);
    } else {
      assert words[..2 * k] == words;
    }
  }

  lemma {:induction false} ProvidedFail(words: seq<Addr>, n: nat, k: nat, strings: seq<Byte>)
    requires k <= n && |words| == 2 * n && ParseProvided(words[..2 * k], strings).None?
    ensures ParseProvided(words, strings).None?
    decreases n
  {
    if k < n {
      InitPrefix(words, 2, 2 * k);
      ProvidedFail(Init(words, 2), n - 1, k, strings);
    } else {
      assert words[..2 * k] == words;
    }
  }

  /** The record after the first `i` of `size` words. */
  lemma NextRecord(words: seq<Addr>, i: nat, size: nat)
    requires i + size <= |words|
    ensures Init(words[..i + size], size) == words[..i] && Rec(words[..i + size], size) == words[i..i + size]
  {
  }

  method ReadFuncs(words: seq<Addr>, n: nat, s: Section, index: nat) returns (r: Option<seq<Function>>)
    requires |words| == 2 * n
    ensures r == ParseFuncs(words, s, index)
  {
    var functions: seq<Function> := [];
    for i := 0 to n
      invariant ParseFuncs(words[..2 * i], s, index) == Some(functions)
    {
      NextRecord(words, 2 * i, 2);
      var offset, size := words[2 * i], words[2 * i + 1];
      assert words[2 * i..2 * i + 2] == [offset, size];
      if Add(s.rom, offset) % 4 != 0 || size % 4 != 0 {
        FuncsFail(words, n, i + 1, s, index);
        return None;
      }
      functions := functions + [Function([], Add(s.ram, offset), Add(s.rom, offset), size / 4, index)];
    }
    assert words[..2 * n] == words;
    r := Some(functions);
  }

  method ReadRelocs(words: seq<Addr>, n: nat, ram: Addr, total: nat, byVrom: ByVrom) returns (r: Option<seq<ModReloc>>)
    requires |words| == 4 * n
    ensures r == ParseRelocs(words, ram, total, byVrom)
  {
    var relocs: seq<ModReloc> := [];
    for i := 0 to n
      invariant ParseRelocs(words[..4 * i], ram, total, byVrom) == Some(relocs)
    {
      NextRecord(words, 4 * i, 4);
      var reloc := ReadReloc(words[4 * i..4 * i + 4], ram, total, byVrom);
      if reloc.None? {
        RelocsFail(words, n, i + 1, ram, total, byVrom);
        return None;
      }
      relocs := relocs + [reloc.value];
    }
    assert words[..4 * n] == words;
    r := Some(relocs);
  }

  /** One relocation: against an import, an event, a section of the mod, or a section of
      the original program. */
  method ReadReloc(words: seq<Addr>, ram: Addr, total: nat, byVrom: ByVrom) returns (r: Option<ModReloc>)
    requires |words| == 4
    ensures r == ParseReloc(words, ram, total, byVrom)
  {
    var vrom := words[3];
    var section, offset: Addr, symbol: Addr, reference := 0, 0, 0, true;
    if vrom == IMPORT_VROM {
      section, symbol := SECTION_IMPORT, words[2];
    } else if vrom == EVENT_VROM {
      section, symbol := SECTION_EVENT, words[2];
    } else if vrom >= SECTION_SELF {
      section, offset, reference := (vrom - SECTION_SELF) % 0x1_0000, words[2], false;
      if section >= total { return None; }
    } else {
      if vrom !in byVrom { return None; }
      section, offset := byVrom[vrom] % 0x1_0000, words[2];
    }
    r := Some(ModReloc(Add(ram, words[0]), words[1] % 0x100, reference, section, offset, symbol));
  }

  /** The next section, at the cursor. */
  method ReadSection(reader: Reader, sections: seq<Section>, functions: seq<Function>, total: nat,
                     byVrom: ByVrom) returns (r: Option<Sections>)
    modifies reader
    ensures r == ParseSection(reader.data, Sections(sections, functions, old(reader.cursor)), total, byVrom)
    ensures r.Some? ==> r.value.at == reader.cursor
  {
    hide Take, ParseFuncs, ParseRelocs;
    var h := reader.ReadStruct(7);
    if h.None? { return None; }
    var fixed, global := h.value[0] % 2 == 1, (h.value[0] / 2) % 2 == 1;
    if fixed && !global { return None; }
    if global && !fixed { return None; }
    var numFuncs: nat, numRelocs: nat := h.value[5], h.value[6];
    var funcs := reader.ReadStruct(2 * numFuncs);
    if funcs.None? { return None; }
    var relocs := reader.ReadStruct(4 * numRelocs);
    if relocs.None? { return None; }
    var section := Section(h.value[1], h.value[2], h.value[3], h.value[4], fixed, global, []);
    var parsedFuncs := ReadFuncs(funcs.value, numFuncs, section, |sections|);
    if parsedFuncs.None? { return None; }
    var parsedRelocs := ReadRelocs(relocs.value, numRelocs, h.value[2], total, byVrom);
    if parsedRelocs.None? { return None; }
    r := Some(Sections(sections + [section.(relocs := parsedRelocs.value)], functions + parsedFuncs.value,
                       reader.cursor));
  }

  lemma {:induction false} SectionsFail(data: seq<Byte>, at: nat, k: nat, n: nat, total: nat, byVrom: ByVrom)
    requires k <= n && ParseSections(data, at, k, total, byVrom).None?
    ensures ParseSections(data, at, n, total, byVrom).None?
    decreases n
  {
    hide ParseSection;
    if k < n {
      SectionsFail(data, at, k, n - 1, total, byVrom);
    }
  }

  method ReadSections(reader: Reader, n: nat, byVrom: ByVrom) returns (r: Option<Sections>)
    modifies reader
    ensures r == ParseSections(reader.data, old(reader.cursor), n, n, byVrom)
    ensures r.Some? ==> r.value.at == reader.cursor
  {
    hide ParseSection;
    ghost var start := reader.cursor;
    var sections: seq<Section>, functions: seq<Function> := [], [];
    for i := 0 to n
      invariant ParseSections(reader.data, start, i, n, byVrom) == Some(Sections(sections, functions, reader.cursor))
    {
      var so := ReadSection(reader, sections, functions, n, byVrom);
      if so.None? {
        SectionsFail(reader.data, start, i + 1, n, n, byVrom);
        return None;
      }
      sections, functions := so.value.sections, so.value.functions;
    }
    r := Some(Sections(sections, functions, reader.cursor));
  }

  /** A name, unless it extends beyond the string table. */
  method CutName(strings: seq<Byte>, start: Addr, size: Addr) returns (r: Option<Text>)
    ensures r == Cut(strings, start, size)
  {
    var end: nat := start + size;
    if end > |strings| { return None; }
    r := Some(strings[start..end]);
  }

  method ReadDependencies(words: seq<Addr>, n: nat, strings: seq<Byte>) returns (r: Option<seq<Text>>)
    requires |words| == 3 * n
    ensures r == ParseDependencies(words, strings)
  {
    hide Cut;
    var names: seq<Text> := [];
    for i := 0 to n
      invariant ParseDependencies(words[..3 * i], strings) == Some(names)
    {
      NextRecord(words, 3 * i, 3);
      var name := CutName(strings, words[3 * i + 1], words[3 * i + 2]);
      if name.None? {
        DependenciesFail(words, n, i + 1, strings);
        return None;
      }
      if name.value !in names {
        names := names + [name.value];
      }
    }
    assert words[..3 * n] == words;
    r := Some(names);
  }

  method ReadNamed(words: seq<Addr>, n: nat, strings: seq<Byte>, rule: Rule) returns (r: Option<seq<Named>>)
    requires |words| == 3 * n
    ensures r == ParseNamed(words, strings, rule)
  {
    hide Cut;
    var table: seq<Named> := [];
    for i := 0 to n
      invariant ParseNamed(words[..3 * i], strings, rule) == Some(table)
    {
      NextRecord(words, 3 * i, 3);
      var name := CutName(strings, words[3 * i], words[3 * i + 1]);
      if name.None? {
        NamedFail(words, n, i + 1, strings, rule);
        return None;
      }
      var dependency := words[3 * i + 2];
      if rule.Imports? && dependency >= rule.known {
        NamedFail(words, n, i + 1, strings, rule);
        return None;
      }
      var entry := Named(name.value, dependency);
      if rule.Imports? || (dependency < rule.known && entry !in table) {
        table := table + [entry];
      }
    }
    assert words[..3 * n] == words;
    r := Some(table);
  }

  method ReadPatches(words: seq<Addr>, n: nat) returns (patches: seq<Patch>)
    requires |words| == 4 * n
    ensures patches == ParsePatches(words)
  {
    patches := [];
    for i := 0 to n
      invariant ParsePatches(words[..4 * i]) == patches
    {
      NextRecord(words, 4 * i, 4);
      patches := patches + [Patch(words[4 * i], words[4 * i + 1], words[4 * i + 2], words[4 * i + 3])];
    }
    assert words[..4 * n] == words;
  }

  /** What the next export does. */
  lemma NextExport(words: seq<Addr>, i: nat, strings: seq<Byte>, functions: seq<Function>, e: Exports)
    requires 3 * i + 3 <= |words| && ParseExports(words[..3 * i], strings, functions) == Some(e)
             && |e.functions| == |functions|
    ensures var f, name := words[3 * i], Cut(strings, words[3 * i + 1], words[3 * i + 2]);
            ParseExports(words[..3 * (i + 1)], strings, functions)
            == if f >= |functions| || name.None? || e.functions[f].name != [] then None
               else Some(Exports(e.indices + [f], e.functions[f := e.functions[f].(name := name.value)]))
  {
    hide Cut;
    NextRecord(words, 3 * i, 3);
    assert words[..3 * (i + 1)] == words[..3 * i + 3];
    var r := words[3 * i..3 * i + 3];
    assert r[0] == words[3 * i] && r[1] == words[3 * i + 1] && r[2] == words[3 * i + 2];
  }

  method ReadExports(words: seq<Addr>, n: nat, strings: seq<Byte>,
                     functions: seq<Function>) returns (r: Option<Exports>)
    requires |words| == 3 * n
    ensures r == ParseExports(words, strings, functions)
  {
    hide Cut, ParseExports;
    var e := Exports([], functions);
    NoExportsYet(words, strings, functions);
    for i := 0 to n
      invariant ParseExports(words[..3 * i], strings, functions) == Some(e) && |e.functions| == |functions|
    {
      NextExport(words, i, strings, functions, e);
      var f := words[3 * i];
      var name := CutName(strings, words[3 * i + 1], words[3 * i + 2]);
      if f >= |functions| || name.None? || e.functions[f].name != [] {
        ExportsFail(words, n, i + 1, strings, functions);
        return None;
      }
      e := Exports(e.indices + [f], e.functions[f := e.functions[f].(name := name.value)]);
    }
    assert words[..3 * n] == words;
    r := Some(e);
  }

  lemma NoExportsYet(words: seq<Addr>, strings: seq<Byte>, functions: seq<Function>)
    ensures ParseExports(words[..0], strings, functions) == Some(Exports([], functions))
  {
  }

  method ReadCallbacks(words: seq<Addr>, n: nat, events: nat, funcs: nat) returns (r: Option<seq<Callback>>)
    requires |words| == 2 * n
    ensures r == ParseCallbacks(words, events, funcs)
  {
    var callbacks: seq<Callback> := [];
    for i := 0 to n
      invariant ParseCallbacks(words[..2 * i], events, funcs) == Some(callbacks)
    {
      NextRecord(words, 2 * i, 2);
      if words[2 * i] >= events || words[2 * i + 1] >= funcs {
        CallbacksFail(words, n, i + 1, events, funcs);
        return None;
      }
      callbacks := callbacks + [Callback(words[2 * i], words[2 * i + 1])];
    }
    assert words[..2 * n] == words;
    r := Some(callbacks);
  }

  method ReadProvided(words: seq<Addr>, n: nat, strings: seq<Byte>) returns (r: Option<seq<Text>>)
    requires |words| == 2 * n
    ensures r == ParseProvided(words, strings)
  {
    hide Cut;
    var names: seq<Text> := [];
    for i := 0 to n
      invariant ParseProvided(words[..2 * i], strings) == Some(names)
    {
      NextRecord(words, 2 * i, 2);
      var name := CutName(strings, words[2 * i], words[2 * i + 1]);
      if name.None? {
        ProvidedFail(words, n, i + 1, strings);
        return None;
      }
      names := names + [name.value];
    }
    assert words[..2 * n] == words;
    r := Some(names);
  }

  method ReadFront(reader: Reader, strings: seq<Byte>, dependencies: nat, imports: nat, events: nat,
                   replacements: nat) returns (r: Option<Front>)
    modifies reader
    ensures r == ParseFront(reader.data, old(reader.cursor), strings, dependencies, imports, events, replacements)
    ensures r.Some? ==> r.value.at == reader.cursor
  {
    hide Take, ParseDependencies, ParseNamed, ParsePatches;
    var w1 := reader.ReadStruct(3 * dependencies);
    if w1.None? { return None; }
    var names := ReadDependencies(w1.value, dependencies, strings);
    if names.None? { return None; }
    var w2 := reader.ReadStruct(3 * imports);
    if w2.None? { return None; }
    var imported := ReadNamed(w2.value, imports, strings, Imports(dependencies));
    if imported.None? { return None; }
    var w3 := reader.ReadStruct(3 * events);
    if w3.None? { return None; }
    var depended := ReadNamed(w3.value, events, strings, Events(|names.value|));
    if depended.None? { return None; }
    var w4 := reader.ReadStruct(4 * replacements);
    if w4.None? { return None; }
    var patches := ReadPatches(w4.value, replacements);
    r := Some(Front(names.value, imported.value, depended.value, patches, reader.cursor));
  }

  method ReadBackTables(reader: Reader, strings: seq<Byte>, functions: seq<Function>, dependencyEvents: nat,
                        exports: nat, callbacks: nat, events: nat, hooks: nat) returns (r: Option<Back>)
    modifies reader
    ensures r == ParseBack(reader.data, old(reader.cursor), strings, functions, dependencyEvents, exports, callbacks,
                           events, hooks)
    ensures r.Some? ==> r.value.at == reader.cursor
  {
    hide Take, ParseExports, ParseCallbacks, ParseProvided, ParsePatches;
    var w1 := reader.ReadStruct(3 * exports);
    if w1.None? { return None; }
    var exported := ReadExports(w1.value, exports, strings, functions);
    if exported.None? { return None; }
    var w2 := reader.ReadStruct(2 * callbacks);
    if w2.None? { return None; }
    var called := ReadCallbacks(w2.value, callbacks, dependencyEvents, |functions|);
    if called.None? { return None; }
    var w3 := reader.ReadStruct(2 * events);
    if w3.None? { return None; }
    var provided := ReadProvided(w3.value, events, strings);
    if provided.None? { return None; }
    var w4 := reader.ReadStruct(4 * hooks);
    if w4.None? { return None; }
    var patches := ReadPatches(w4.value, hooks);
    r := Some(Back(exported.value, called.value, provided.value, patches, reader.cursor));
  }

  /** `parse_symbols_v1`. */
  method ParseSymbolsV1(data: seq<Byte>, byVrom: ByVrom) returns (r: Option<Context>)
    ensures r == ParseV1(data, byVrom)
  {
    hide Take, ParseSections, ParseFront, ParseBack;
    var reader := new Reader(data);
    reader.cursor := 12;
    var h := reader.ReadStruct(10);
    if h.None? { return None; }
    var counts := h.value;
    var size: nat := counts[9];
    if size % 4 != 0 { return None; }
    if reader.cursor + size > |data| { return None; }
    var strings := data[reader.cursor..reader.cursor + size];
    reader.cursor := reader.cursor + size;
    var so := ReadSections(reader, counts[0], byVrom);
    if so.None? { return None; }
    var front := ReadFront(reader, strings, counts[1], counts[2], counts[3], counts[4]);
    if front.None? { return None; }
    var back := ReadBackTables(reader, strings, so.value.functions, counts[3], counts[5], counts[6], counts[7],
                               counts[8]);
    if back.None? { return None; }
    if reader.cursor != |data| { return None; }
    r := Some(Context(so.value.sections, back.value.exports.functions, front.value.dependencies, front.value.imports,
                      front.value.events, front.value.replacements, back.value.exports.indices, back.value.callbacks,
                      back.value.events, back.value.hooks));
  }

  /** The file itself. */
  method ParseFile(data: seq<Byte>, byVrom: ByVrom) returns (r: Outcome)
    ensures r == Parse(data, byVrom)
  {
    if |data| < 12 || data[..8] != MAGIC {
      return NotASymbolFile;
    }
    if Binary.WordAt(data, 8) != 1 {
      return UnknownVersion;
    }
    var c := ParseSymbolsV1(data, byVrom);
    r := if c.Some? then Good(c.value) else Corrupt;
  }

  method CopyWords(binary: seq<Byte>, at: nat, n: nat) returns (words: seq<Addr>)
    requires at + 4 * n <= |binary|
    ensures words == WordsAt(binary, at, n)
  {
    hide Binary.WordAt;
    words := [];
    for k := 0 to n
      invariant words == WordsAt(binary, at, k)
    {
      words := words + [Binary.WordAt(binary, at + 4 * k)];
    }
  }

  /** `parse_mod_symbols`. */
  method ParseModSymbols(data: seq<Byte>, binary: seq<Byte>, byVrom: ByVrom) returns (r: Mod)
    ensures r == Load(data, binary, byVrom)
  {
    hide Parse, WordsAt;
    var parsed := ParseFile(data, byVrom);
    if !parsed.Good? {
      return Refused(parsed);
    }
    var functions := parsed.context.functions;
    var words: seq<seq<Addr>> := [];
    for i := 0 to |functions|
      invariant forall j :: 0 <= j < i ==> InBinary(functions[j], binary)
      invariant |words| == i && forall j :: 0 <= j < i ==>
                                    words[j] == WordsAt(binary, functions[j].rom, functions[j].words)
    {
      var f := functions[i];
      if f.rom + 4 * f.words > |binary| {
        assert !InBinary(functions[i], binary);
        return OutOfBounds;
      }
      var copied := CopyWords(binary, f.rom, f.words);
      words := words + [copied];
    }
    assert words == WordsOf(functions, binary);
    r := Ready(parsed.context, words);
  }
}
