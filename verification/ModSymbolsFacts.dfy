/** The round trip of the symbol file: parsing what was printed gives back the context,
    up to what the format drops, and consumes the whole file. */
module ModSymbolsFacts {
  import opened Machine
  import opened Binary
  import opened ModSymbols

  // ----- What the format keeps -----

  function NormalPatch(p: Patch): Patch {
    p.(flags := p.flags % 2)
  }

  function NormalPatches(patches: seq<Patch>): (r: seq<Patch>)
    ensures |r| == |patches| && forall i :: 0 <= i < |r| ==> r[i] == NormalPatch(patches[i])
  {
    seq(|patches|, i requires 0 <= i < |patches| => NormalPatch(patches[i]))
  }

  /** The fields of a relocation that its target does not use are dropped. */
  function NormalReloc(r: ModReloc): ModReloc {
    if r.section == SECTION_IMPORT
      || r.section == SECTION_EVENT then r.(reference := true, offset := 0) else r.(symbol := 0)
  }

  function NormalRelocs(relocs: seq<ModReloc>): (r: seq<ModReloc>)
    ensures |r| == |relocs| && forall i :: 0 <= i < |r| ==> r[i] == NormalReloc(relocs[i])
  {
    seq(|relocs|, i requires 0 <= i < |relocs| => NormalReloc(relocs[i]))
  }

  function NormalSections(sections: seq<Section>): (r: seq<Section>)
    ensures |r| == |sections| && forall i :: 0 <= i < |r| ==>
                                     r[i] == sections[i].(relocs := NormalRelocs(sections[i].relocs))
  {
    seq(|sections|, i requires 0 <= i < |sections| => sections[i].(relocs := NormalRelocs(sections[i].relocs)))
  }

  /** Only exported functions keep their names. */
  function NormalFunctions(c: Context): (r: seq<Function>)
    ensures |r| == |c.functions|
    ensures forall i :: 0 <= i < |r| ==> r[i] == if i in c.exports then c.functions[i] else c.functions[i].(name := [])
  {
    seq(|c.functions|, i requires 0 <= i < |c.functions| => if i in c.exports then c.functions[i]
        else c.functions[i].(name := []))
  }

  function Normal(c: Context): Context {
    c.(sections := NormalSections(c.sections), functions := NormalFunctions(c),
       replacements := NormalPatches(c.replacements), hooks := NormalPatches(c.hooks))
  }

  // ----- Which contexts are well formed -----

  /** The index of the first function of section `s`. */
  function FirstFunc(l: Layout, s: nat): nat
    requires s <= |l.functions|
  {
    if s == 0 then 0 else FirstFunc(l, s - 1) + |l.functions[s - 1]|
  }

  /** Functions are numbered section by section. */
  predicate InOrder(c: Context, l: Layout) {
    && |l.functions| == |c.sections| && FirstFunc(l, |c.sections|) == |c.functions|
    && forall s, j :: 0 <= s < |l.functions| && 0 <= j < |l.functions[s]| ==> l.functions[s][j] == FirstFunc(l, s) + j
  }

  /** A function lies at the same offset in the file and in memory, aligned in both. */
  predicate FunctionOk(s: Section, index: nat, f: Function) {
    f.section == index && Minus(f.vram, s.ram) == Minus(f.rom, s.rom) && f.rom % 4 == 0 && f.words < WORD / 4
  }

  predicate RelocOk(c: Context, l: Layout, byVrom: ByVrom, r: ModReloc) {
    && r.kind < 0x100
    && if r.section == SECTION_IMPORT || r.section == SECTION_EVENT then true
       else if r.reference then
         r.section < SECTION_EVENT && l.romOf(r.section) < SECTION_SELF && l.romOf(r.section) in byVrom
           && byVrom[l.romOf(r.section)] == r.section
       else r.section < |c.sections|
  }

  predicate SectionOk(c: Context, l: Layout, byVrom: ByVrom, i: nat)
    requires i < |c.sections| && i < |l.functions|
  {
    && !c.sections[i].fixed && !c.sections[i].global
    && |l.functions[i]| < WORD && |c.sections[i].relocs| < WORD
    && (forall j :: 0 <= j < |l.functions[i]| ==>
            l.functions[i][j] < |c.functions| && FunctionOk(c.sections[i], i, c.functions[l.functions[i][j]]))
    && (forall j :: 0 <= j < |c.sections[i].relocs| ==> RelocOk(c, l, byVrom, c.sections[i].relocs[j]))
  }

  predicate CountsOk(c: Context) {
    && |c.sections| < SECTION_EVENT && |c.dependencies| < WORD && |c.imports| < WORD && |c.dependencyEvents| < WORD
    && |c.replacements| < WORD && |c.exports| < WORD && |c.callbacks| < WORD && |c.events| < WORD && |c.hooks| < WORD
    && |c.functions| < WORD
  }

  predicate Distinct<T(==)>(s: seq<T>) {
    forall i, j :: 0 <= i < j < |s| ==> s[i] != s[j]
  }

  /** Dependencies and their events are registered once, as the context's own maps keep them. */
  predicate WellFormed(c: Context, l: Layout, byVrom: ByVrom) {
    && CountsOk(c) && ExportsKnown(c) && InOrder(c, l) && |StringTable(AllNames(c))| < WORD
    && (forall i :: 0 <= i < |c.sections| ==> SectionOk(c, l, byVrom, i))
    && (forall i, j :: 0 <= i < j < |c.exports| ==> c.exports[i] != c.exports[j])
    && (forall i :: 0 <= i < |c.imports| ==> c.imports[i].dependency < |c.dependencies|)
    && (forall i :: 0 <= i < |c.dependencyEvents| ==> c.dependencyEvents[i].dependency < |c.dependencies|)
    && Distinct(c.dependencies) && Distinct(c.dependencyEvents)
    && (forall i :: 0 <= i < |c.callbacks| ==>
            c.callbacks[i].event < |c.dependencyEvents| && c.callbacks[i].func < |c.functions|)
  }

  // ----- Each table -----

  lemma LastRec(words: seq<Addr>, r: seq<Addr>)
    ensures Init(words + r, |r|) == words && Rec(words + r, |r|) == r
  {
  }

  lemma {:induction false} PatchesBack(patches: seq<Patch>)
    ensures ParsePatches(PatchWords(patches)) == NormalPatches(patches)
    decreases |patches|
  {
    if patches != [] {
      var n := |patches| - 1;
      var p := patches[n];
      PatchesBack(patches[..n]);
      LastRec(PatchWords(patches[..n]), [p.func, p.vrom, p.vram, p.flags % 2]);
      assert NormalPatches(patches) == NormalPatches(patches[..n]) + [NormalPatch(p)];
    }
  }

  lemma CallbackStep(words: seq<Addr>, event: nat, func: nat, events: nat, funcs: nat, before: seq<Callback>)
    requires event < events < WORD && func < funcs < WORD && ParseCallbacks(words, events, funcs) == Some(before)
    ensures ParseCallbacks(words + [Low(event), Low(func)], events, funcs) == Some(before + [Callback(event, func)])
  {
    LastRec(words, [Low(event), Low(func)]);
  }

  lemma {:induction false} CallbacksBack(callbacks: seq<Callback>, events: nat, funcs: nat)
    requires events < WORD && funcs < WORD
    requires forall i :: 0 <= i < |callbacks| ==> callbacks[i].event < events && callbacks[i].func < funcs
    ensures ParseCallbacks(CallbackWords(callbacks), events, funcs) == Some(callbacks)
    decreases |callbacks|
  {
    hide Low;
    if callbacks != [] {
      var n := |callbacks| - 1;
      CallbacksBack(callbacks[..n], events, funcs);
      CallbackStep(CallbackWords(callbacks[..n]), callbacks[n].event, callbacks[n].func, events, funcs, callbacks[..n]);
      assert callbacks == callbacks[..n] + [callbacks[n]];
    }
  }

  /** A name is cut out of the table again. */
  lemma CutBack(names: seq<Text>, k: nat)
    requires k < |names| && |StringTable(names)| < WORD
    ensures Cut(StringTable(names), Low(Start(names, k)), Low(|names[k]|)) == Some(names[k])
  {
    NameAt(names, k);
  }

  lemma NotBefore<T>(s: seq<T>, k: nat)
    requires k < |s| && Distinct(s[..k + 1])
    ensures Distinct(s[..k]) && s[k] !in s[..k]
  {
    assert s[..k + 1][k] == s[k] && forall i :: 0 <= i < k ==> s[..k + 1][i] == s[..k][i];
  }

  lemma DependencyStep(words: seq<Addr>, r: seq<Addr>, strings: seq<Byte>, before: seq<Text>, name: Text)
    requires |r| == 3 && ParseDependencies(words, strings) == Some(before) && Cut(strings, r[1], r[2]) == Some(name)
             && name !in before
    ensures ParseDependencies(words + r, strings) == Some(before + [name])
  {
    LastRec(words, r);
  }

  lemma {:induction false} DependenciesBack(names: seq<Text>, n: nat, pad: nat -> Addr)
    requires n <= |names| && |StringTable(names)| < WORD && Distinct(names[..n])
    ensures ParseDependencies(DependencyWords(names, n, pad), StringTable(names)) == Some(names[..n])
    decreases n
  {
    hide Cut, StringTable, Start, Low;
    if n > 0 {
      NotBefore(names, n - 1);
      DependenciesBack(names, n - 1, pad);
      CutBack(names, n - 1);
      DependencyStep(DependencyWords(names, n - 1, pad), [pad(n - 1), Low(Start(names, n - 1)), Low(|names[n - 1]|)],
                     StringTable(names), names[..n - 1], names[n - 1]);
      assert names[..n] == names[..n - 1] + [names[n - 1]];
    }
  }

  lemma NamedStep(words: seq<Addr>, r: seq<Addr>, strings: seq<Byte>, rule: Rule, before: seq<Named>, name: Text)
    requires |r| == 3 && ParseNamed(words, strings, rule) == Some(before) && Cut(strings, r[0], r[1]) == Some(name)
    requires r[2] < rule.known && (rule.Events? ==> Named(name, r[2]) !in before)
    ensures ParseNamed(words + r, strings, rule) == Some(before + [Named(name, r[2])])
  {
    LastRec(words, r);
  }

  lemma LowIs(x: nat)
    requires x < WORD
    ensures Low(x) == x
  {
  }

  lemma NamedNone(strings: seq<Byte>, rule: Rule)
    ensures ParseNamed([], strings, rule) == Some([])
  {
  }

  lemma {:induction false} NamedBack(names: seq<Text>, base: nat, table: seq<Named>, n: nat, rule: Rule)
    requires n <= |table| && base + |table| <= |names| && |StringTable(names)| < WORD
    requires forall i :: 0 <= i < |table| ==> names[base + i] == table[i].name && table[i].dependency < rule.known
    requires rule.known < WORD && (rule.Events? ==> Distinct(table[..n]))
    ensures ParseNamed(NamedWords(names, base, table, n), StringTable(names), rule) == Some(table[..n])
    decreases n
  {
    hide Cut, StringTable, Start, Low, Distinct, ParseNamed;
    if n > 0 {
      if rule.Events? {
        NotBefore(table, n - 1);
      }
      NamedBack(names, base, table, n - 1, rule);
      var e := table[n - 1];
      assert names[base + (n - 1)] == e.name;
      CutBack(names, base + n - 1);
      LowIs(e.dependency);
      NamedStep(NamedWords(names, base, table, n - 1),
                [Low(Start(names, base + n - 1)), Low(|e.name|), Low(e.dependency)],
                StringTable(names), rule, table[..n - 1], e.name);
      assert table[..n] == table[..n - 1] + [e];
    } else {
      NamedNone(StringTable(names), rule);
    }
  }

  lemma ProvidedStep(words: seq<Addr>, r: seq<Addr>, strings: seq<Byte>, before: seq<Text>, name: Text)
    requires |r| == 2 && ParseProvided(words, strings) == Some(before) && Cut(strings, r[0], r[1]) == Some(name)
    ensures ParseProvided(words + r, strings) == Some(before + [name])
  {
    LastRec(words, r);
  }

  lemma {:induction false} ProvidedBack(names: seq<Text>, base: nat, n: nat)
    requires base + n <= |names| && |StringTable(names)| < WORD
    ensures ParseProvided(ProvidedWords(names, base, n), StringTable(names)) == Some(names[base..base + n])
    decreases n
  {
    hide Cut, StringTable, Start, Low;
    if n > 0 {
      var k := base + n - 1;
      ProvidedBack(names, base, n - 1);
      CutBack(names, k);
      ProvidedStep(ProvidedWords(names, base, n - 1), [Low(Start(names, k)), Low(|names[k]|)],
                   StringTable(names), names[base..base + (n - 1)], names[k]);
      assert names[base..base + n] == names[base..base + (n - 1)] + [names[k]];
    } else {
      assert names[base..base] == [];
    }
  }

  /** The functions with the names of the first `n` exports. */
  function WithNames(c: Context, n: nat): (r: seq<Function>)
    requires ExportsKnown(c) && n <= |c.exports|
    ensures |r| == |c.functions|
    ensures forall i :: 0 <= i < |r| ==>
                r[i] == if i in c.exports[..n] then c.functions[i] else c.functions[i].(name := [])
  {
    seq(|c.functions|, i requires 0 <= i < |c.functions| => if i in c.exports[..n] then c.functions[i]
        else c.functions[i].(name := []))
  }

  lemma ExportStep(words: seq<Addr>, r: seq<Addr>, strings: seq<Byte>, functions: seq<Function>, before: Exports,
                   name: Text)
    requires |r| == 3 && ParseExports(words, strings, functions) == Some(before)
             && Cut(strings, r[1], r[2]) == Some(name)
    requires r[0] < |functions| && |before.functions| == |functions| && before.functions[r[0]].name == []
    ensures ParseExports(words + r, strings, functions)
            == Some(Exports(before.indices + [r[0]], before.functions[r[0] := before.functions[r[0]].(name := name)]))
  {
    LastRec(words, r);
  }

  /** Exports are distinct functions, and their names stand together in the table. */
  predicate ExportsListed(c: Context, names: seq<Text>, base: nat) {
    && ExportsKnown(c) && base + |c.exports| <= |names| && |c.functions| < WORD
    && (forall i :: 0 <= i < |c.exports| ==> names[base + i] == c.functions[c.exports[i]].name)
    && (forall i, j :: 0 <= i < j < |c.exports| ==> c.exports[i] != c.exports[j])
  }

  lemma NamesOneMore(c: Context, names: seq<Text>, base: nat, n: nat)
    requires ExportsListed(c, names, base) && 0 < n <= |c.exports|
    ensures ExportsKnown(c) && base + |c.exports| <= |names| && c.exports[n - 1] < |c.functions| < WORD
    ensures var f, before := c.exports[n - 1], WithNames(c, n - 1);
            before[f].name == [] && WithNames(c, n) == before[f := before[f].(name := names[base + n - 1])]
    ensures c.exports[..n] == c.exports[..n - 1] + [c.exports[n - 1]]
  {
    var f := c.exports[n - 1];
    assert c.exports[..n] == c.exports[..n - 1] + [f];
    assert names[base + (n - 1)] == c.functions[f].name;
    assert f !in c.exports[..n - 1];
  }

  lemma {:induction false} ExportsBack(c: Context, names: seq<Text>, base: nat, n: nat)
    requires ExportsListed(c, names, base) && n <= |c.exports| && |StringTable(names)| < WORD
    ensures ExportsKnown(c) && base + |c.exports| <= |names|
    ensures ParseExports(ExportWords(names, base, c.exports, n), StringTable(names), WithNames(c, 0))
            == Some(Exports(c.exports[..n], WithNames(c, n)))
    decreases n
  {
    hide StringTable, WithNames, ParseExports, ExportWords;
    if n > 0 {
      ExportsBack(c, names, base, n - 1);
      ExportBack(c, names, base, n);
    } else {
      NoExports(c, names, base);
    }
  }

  lemma NoExports(c: Context, names: seq<Text>, base: nat)
    requires ExportsKnown(c) && base + |c.exports| <= |names|
    ensures ParseExports(ExportWords(names, base, c.exports, 0), StringTable(names), WithNames(c, 0))
            == Some(Exports(c.exports[..0], WithNames(c, 0)))
  {
    hide StringTable, WithNames;
    assert c.exports[..0] == [];
  }

  lemma ExportBack(c: Context, names: seq<Text>, base: nat, n: nat)
    requires ExportsListed(c, names, base) && 0 < n <= |c.exports| && |StringTable(names)| < WORD
    requires ParseExports(ExportWords(names, base, c.exports, n - 1), StringTable(names), WithNames(c, 0))
             == Some(Exports(c.exports[..n - 1], WithNames(c, n - 1)))
    ensures ParseExports(ExportWords(names, base, c.exports, n), StringTable(names), WithNames(c, 0))
            == Some(Exports(c.exports[..n], WithNames(c, n)))
  {
    hide Cut, StringTable, Start, Low, WithNames, ExportsListed, ParseExports;
    NamesOneMore(c, names, base, n);
    var f, k := c.exports[n - 1], base + n - 1;
    CutBack(names, k);
    LowIs(f);
    ExportStep(ExportWords(names, base, c.exports, n - 1), [Low(f), Low(Start(names, k)), Low(|names[k]|)],
               StringTable(names), WithNames(c, 0), Exports(c.exports[..n - 1], WithNames(c, n - 1)), names[k]);
  }

  // ----- Sections -----

  /** Words that were appended are taken at their place. */
  lemma TakeBack(pre: seq<Byte>, words: seq<Addr>, post: seq<Byte>)
    ensures Take(pre + Bin(words) + post, |pre|, |words|) == Some(Taken(words, |pre| + 4 * |words|))
  {
    hide Bin, WordsAt;
    ReadBack(pre, words, post);
  }

  function Unnamed(c: Context, funcs: seq<nat>): (r: seq<Function>)
    requires forall j :: 0 <= j < |funcs| ==> funcs[j] < |c.functions|
    ensures |r| == |funcs| && forall j :: 0 <= j < |r| ==> r[j] == c.functions[funcs[j]].(name := [])
  {
    seq(|funcs|, j requires 0 <= j < |funcs| => c.functions[funcs[j]].(name := []))
  }

  predicate FunctionsOk(c: Context, s: Section, index: nat, funcs: seq<nat>) {
    forall j :: 0 <= j < |funcs| ==> funcs[j] < |c.functions| && FunctionOk(s, index, c.functions[funcs[j]])
  }

  lemma FuncStep(words: seq<Addr>, s: Section, index: nat, before: seq<Function>, f: Function)
    requires ParseFuncs(words, s, index) == Some(before) && FunctionOk(s, index, f)
    ensures ParseFuncs(words + [Minus(f.vram, s.ram), Low(4 * f.words)], s, index) == Some(before + [f.(name := [])])
  {
    hide Add, Minus, Low;
    LastRec(words, [Minus(f.vram, s.ram), Low(4 * f.words)]);
    AddMinus(f.vram, s.ram);
    AddMinus(f.rom, s.rom);
    LowIs(4 * f.words);
  }

  lemma FuncWordsUnfold(c: Context, s: Section, index: nat, funcs: seq<nat>)
    ensures funcs == [] ==> FuncWords(c, s, funcs) == [] && ParseFuncs([], s, index) == Some([])
    ensures funcs != [] && funcs[|funcs| - 1] < |c.functions| ==>
              var f := c.functions[funcs[|funcs| - 1]];
              FuncWords(c, s, funcs) == FuncWords(c, s, funcs[..|funcs| - 1]) + [Minus(f.vram, s.ram), Low(4 * f.words)]
  {
    hide Minus, Low;
  }

  lemma {:induction false} FuncsBack(c: Context, s: Section, index: nat, funcs: seq<nat>)
    requires FunctionsOk(c, s, index, funcs)
    ensures ParseFuncs(FuncWords(c, s, funcs), s, index) == Some(Unnamed(c, funcs))
    decreases |funcs|
  {
    hide Minus, Low, FunctionOk, ParseFuncs, FuncWords;
    FuncWordsUnfold(c, s, index, funcs);
    if funcs != [] {
      var n := |funcs| - 1;
      FuncsBack(c, s, index, funcs[..n]);
      FuncStep(FuncWords(c, s, funcs[..n]), s, index, Unnamed(c, funcs[..n]), c.functions[funcs[n]]);
      assert Unnamed(c, funcs) == Unnamed(c, funcs[..n]) + [c.functions[funcs[n]].(name := [])];
    }
  }

  lemma FuncsIgnore(words: seq<Addr>, s: Section, t: Section, index: nat)
    requires s.rom == t.rom && s.ram == t.ram
    ensures ParseFuncs(words, s, index) == ParseFuncs(words, t, index)
    decreases |words|
  {
    if |words| >= 2 {
      FuncsIgnore(Init(words, 2), s, t, index);
    }
  }

  lemma RelocBack(c: Context, l: Layout, byVrom: ByVrom, ram: Addr, r: ModReloc)
    requires RelocOk(c, l, byVrom, r) && |c.sections| < SECTION_EVENT
    ensures ParseReloc([Minus(r.address, ram), Low(r.kind), TargetOffset(r), TargetVrom(l, r)], ram, |c.sections|,
                       byVrom) == Some(NormalReloc(r))
  {
    AddMinus(r.address, ram);
  }

  lemma RelocStep(words: seq<Addr>, r: seq<Addr>, ram: Addr, total: nat, byVrom: ByVrom, before: seq<ModReloc>,
                  reloc: ModReloc)
    requires |r| == 4 && ParseRelocs(words, ram, total, byVrom) == Some(before)
             && ParseReloc(r, ram, total, byVrom) == Some(reloc)
    ensures ParseRelocs(words + r, ram, total, byVrom) == Some(before + [reloc])
  {
    LastRec(words, r);
  }

  lemma {:induction false} RelocsBack(c: Context, l: Layout, byVrom: ByVrom, s: Section, relocs: seq<ModReloc>)
    requires |c.sections| < SECTION_EVENT && forall j :: 0 <= j < |relocs| ==> RelocOk(c, l, byVrom, relocs[j])
    ensures ParseRelocs(RelocWords(l, s, relocs), s.ram, |c.sections|, byVrom) == Some(NormalRelocs(relocs))
    decreases |relocs|
  {
    hide Minus, Low, TargetOffset, TargetVrom, ParseReloc, NormalReloc, RelocOk;
    if relocs != [] {
      var n := |relocs| - 1;
      var r := relocs[n];
      RelocsBack(c, l, byVrom, s, relocs[..n]);
      RelocBack(c, l, byVrom, s.ram, r);
      RelocStep(RelocWords(l, s, relocs[..n]),
                [Minus(r.address, s.ram), Low(r.kind), TargetOffset(r), TargetVrom(l, r)],
                s.ram, |c.sections|, byVrom, NormalRelocs(relocs[..n]), NormalReloc(r));
      assert NormalRelocs(relocs) == NormalRelocs(relocs[..n]) + [NormalReloc(r)];
    }
  }

  function Header(s: Section, funcs: nat): (r: seq<Addr>)
    ensures |r| == 7
  {
    [0, s.rom, s.ram, s.size, s.bss, Low(funcs), Low(|s.relocs|)]
  }

  /** One section, wherever it stands in the data. */
  lemma SectionBack(c: Context, l: Layout, byVrom: ByVrom, i: nat, pre: seq<Byte>, post: seq<Byte>, so: Sections)
    requires i < |c.sections| && i < |l.functions| && SectionOk(c, l, byVrom, i) && |c.sections| < SECTION_EVENT
    requires so.at == |pre| && |so.sections| == i
    ensures FunctionsOk(c, c.sections[i], i, l.functions[i])
    ensures ParseSection(pre + Bin(SectionWords(c, l, i)) + post, so, |c.sections|, byVrom)
            == Some(Sections(so.sections + [NormalSections(c.sections)[i]], so.functions + Unnamed(c, l.functions[i]),
                             |pre| + 4 * |SectionWords(c, l, i)|))
  {
    hide Bin, Take, Low, FuncWords, RelocWords, ParseFuncs, ParseRelocs, RelocOk, FunctionOk, Minus;
    var s := c.sections[i];
    var h, fw, rw := Header(s, |l.functions[i]|), FuncWords(c, s, l.functions[i]), RelocWords(l, s, s.relocs);
    var data := pre + Bin(SectionWords(c, l, i)) + post;
    assert SectionWords(c, l, i) == (h + fw) + rw;
    BinConcat(h + fw, rw);
    BinConcat(h, fw);
    LowIs(|l.functions[i]|);
    LowIs(|s.relocs|);
    assert data == pre + Bin(h) + (Bin(fw) + Bin(rw) + post);
    TakeBack(pre, h, Bin(fw) + Bin(rw) + post);
    assert data == (pre + Bin(h)) + Bin(fw) + (Bin(rw) + post);
    TakeBack(pre + Bin(h), fw, Bin(rw) + post);
    assert data == (pre + Bin(h) + Bin(fw)) + Bin(rw) + post;
    TakeBack(pre + Bin(h) + Bin(fw), rw, post);
    FuncsBack(c, s, i, l.functions[i]);
    FuncsIgnore(fw, s, Section(s.rom, s.ram, s.size, s.bss, false, false, []), i);
    RelocsBack(c, l, byVrom, s, s.relocs);
  }

  lemma {:induction false} FirstFuncGrows(l: Layout, s: nat, t: nat)
    requires s <= t <= |l.functions|
    ensures FirstFunc(l, s) <= FirstFunc(l, t)
    decreases t
  {
    if s < t {
      FirstFuncGrows(l, s, t - 1);
    }
  }

  /** The functions of section `i` are the next ones of the context. */
  lemma UnnamedInOrder(c: Context, l: Layout, i: nat)
    requires ExportsKnown(c) && InOrder(c, l) && i < |c.sections|
    requires forall j :: 0 <= j < |l.functions[i]| ==> l.functions[i][j] < |c.functions|
    ensures FirstFunc(l, i) <= FirstFunc(l, i + 1) <= |c.functions|
    ensures WithNames(c, 0)[..FirstFunc(l, i + 1)] == WithNames(c, 0)[..FirstFunc(l, i)] + Unnamed(c, l.functions[i])
  {
    hide WithNames, Unnamed, ExportsKnown;
    OrderFacts(c, l, i);
    var all, here := WithNames(c, 0), Unnamed(c, l.functions[i]);
    var from, to := FirstFunc(l, i), FirstFunc(l, i + 1);
    forall j | 0 <= j < |here|
      ensures all[from..to][j] == here[j]
    {
      UnnamedAt(c, from + j);
    }
    assert all[from..to] == here;
    assert all[..to] == all[..from] + all[from..to];
  }

  lemma OrderFacts(c: Context, l: Layout, i: nat)
    requires InOrder(c, l) && i < |c.sections|
    ensures FirstFunc(l, i + 1) == FirstFunc(l, i) + |l.functions[i]| <= |c.functions|
    ensures forall j :: 0 <= j < |l.functions[i]| ==> l.functions[i][j] == FirstFunc(l, i) + j
  {
    FirstFuncGrows(l, i + 1, |c.sections|);
  }

  lemma UnnamedAt(c: Context, k: nat)
    requires ExportsKnown(c) && k < |c.functions|
    ensures WithNames(c, 0)[k] == c.functions[k].(name := [])
  {
    assert c.exports[..0] == [];
  }

  lemma {:induction false} SectionsBack(c: Context, l: Layout, byVrom: ByVrom, n: nat, pre: seq<Byte>, post: seq<Byte>)
    requires WellFormed(c, l, byVrom) && n <= |c.sections|
    ensures FirstFunc(l, n) <= |c.functions|
    ensures ParseSections(pre + Bin(SectionsWords(c, l, n)) + post, |pre|, n, |c.sections|, byVrom)
            == Some(Sections(NormalSections(c.sections)[..n], WithNames(c, 0)[..FirstFunc(l, n)],
                             |pre| + 4 * |SectionsWords(c, l, n)|))
    decreases n
  {
    hide Bin, SectionWords, ParseSection, NormalSections, WithNames, StringTable, AllNames, SectionOk;
    FirstFuncGrows(l, n, |c.sections|);
    if n > 0 {
      var i := n - 1;
      var before, here := SectionsWords(c, l, i), SectionWords(c, l, i);
      BinConcat(before, here);
      var data := pre + Bin(SectionsWords(c, l, n)) + post;
      assert data == pre + Bin(before) + (Bin(here) + post);
      SectionsBack(c, l, byVrom, i, pre, Bin(here) + post);
      assert data == (pre + Bin(before)) + Bin(here) + post;
      var so := Sections(NormalSections(c.sections)[..i], WithNames(c, 0)[..FirstFunc(l, i)], |pre| + 4 * |before|);
      assert SectionOk(c, l, byVrom, i);
      SectionBack(c, l, byVrom, i, pre + Bin(before), post, so);
      SectionListed(c, l, byVrom, i);
      UnnamedInOrder(c, l, i);
      assert NormalSections(c.sections)[..n] == NormalSections(c.sections)[..i] + [NormalSections(c.sections)[i]];
    } else {
      assert NormalSections(c.sections)[..0] == [] && WithNames(c, 0)[..0] == [];
    }
  }

  lemma SectionListed(c: Context, l: Layout, byVrom: ByVrom, i: nat)
    requires i < |c.sections| && i < |l.functions| && SectionOk(c, l, byVrom, i)
    ensures forall j :: 0 <= j < |l.functions[i]| ==> l.functions[i][j] < |c.functions|
  {
  }

  // ----- The other tables -----

  /** Where each group of names stands among all of them. */
  lemma GroupsOfNames(c: Context)
    requires ExportsKnown(c)
    ensures var names := AllNames(c);
            && |names| == ProvidedBase(c) + |c.events|
            && names[..|c.dependencies|] == c.dependencies
            && (forall i :: 0 <= i < |c.imports| ==> names[ImportBase(c) + i] == c.imports[i].name)
            && (forall i :: 0 <= i < |c.dependencyEvents| ==> names[EventBase(c) + i] == c.dependencyEvents[i].name)
            && (forall i :: 0 <= i < |c.exports| ==> names[ExportBase(c) + i] == c.functions[c.exports[i]].name)
            && names[ProvidedBase(c)..ProvidedBase(c) + |c.events|] == c.events
  {
  }

  function FrontWords(c: Context, names: seq<Text>, pad: nat -> Addr): seq<Addr>
    requires |names| == ProvidedBase(c) + |c.events|
  {
    DependencyWords(names, |c.dependencies|, pad)
    + NamedWords(names, ImportBase(c), c.imports, |c.imports|)
    + NamedWords(names, EventBase(c), c.dependencyEvents, |c.dependencyEvents|)
    + PatchWords(c.replacements)
  }

  function BackWords(c: Context, names: seq<Text>): seq<Addr>
    requires |names| == ProvidedBase(c) + |c.events|
  {
    ExportWords(names, ExportBase(c), c.exports, |c.exports|)
    + CallbackWords(c.callbacks)
    + ProvidedWords(names, ProvidedBase(c), |c.events|)
    + PatchWords(c.hooks)
  }

  /** Words in the middle of the data. */
  function Framed(pre: seq<Byte>, words: seq<Addr>, post: seq<Byte>): seq<Byte> {
    pre + Bin(words) + post
  }

  lemma Assoc<T>(x: seq<T>, y: seq<T>, z: seq<T>)
    ensures x + y + z == x + (y + z)
  {
  }

  lemma TakeThen(pre: seq<Byte>, w: seq<Addr>, rest: seq<Addr>, post: seq<Byte>) returns (next: seq<Byte>)
    ensures Take(Framed(pre, w + rest, post), |pre|, |w|) == Some(Taken(w, |pre| + 4 * |w|))
    ensures Framed(pre, w + rest, post) == Framed(next, rest, post) && |next| == |pre| + 4 * |w|
  {
    hide Bin, Take;
    next := pre + Bin(w);
    BinConcat(w, rest);
    assert pre + Bin(w + rest) + post == pre + Bin(w) + (Bin(rest) + post);
    TakeBack(pre, w, Bin(rest) + post);
  }

  /** Four tables in a row are taken one after another. */
  lemma TakeFour(pre: seq<Byte>, w1: seq<Addr>, w2: seq<Addr>, w3: seq<Addr>, w4: seq<Addr>, post: seq<Byte>)
    ensures var data := pre + Bin(w1 + w2 + w3 + w4) + post;
            var at1 := |pre| + 4 * |w1|;
            var at2 := at1 + 4 * |w2|;
            var at3 := at2 + 4 * |w3|;
            && Take(data, |pre|, |w1|) == Some(Taken(w1, at1)) && Take(data, at1, |w2|) == Some(Taken(w2, at2))
            && Take(data, at2, |w3|) == Some(Taken(w3, at3)) && Take(data, at3, |w4|) == Some(Taken(w4, at3 + 4 * |w4|))
  {
    hide Bin, Take;
    assert pre + Bin(w1 + w2 + w3 + w4) + post == Framed(pre, w1 + w2 + w3 + w4, post);
    TakeFramed(pre, w1, w2, w3, w4, post);
  }

  lemma TakeFramed(pre: seq<Byte>, w1: seq<Addr>, w2: seq<Addr>, w3: seq<Addr>, w4: seq<Addr>, post: seq<Byte>)
    ensures var data := Framed(pre, w1 + w2 + w3 + w4, post);
            var at1 := |pre| + 4 * |w1|;
            var at2 := at1 + 4 * |w2|;
            var at3 := at2 + 4 * |w3|;
            && Take(data, |pre|, |w1|) == Some(Taken(w1, at1)) && Take(data, at1, |w2|) == Some(Taken(w2, at2))
            && Take(data, at2, |w3|) == Some(Taken(w3, at3)) && Take(data, at3, |w4|) == Some(Taken(w4, at3 + 4 * |w4|))
  {
    hide Bin, Take, Framed;
    Assoc(w1 + w2, w3, w4);
    Assoc(w1, w2, w3 + w4);
    var p1 := TakeThen(pre, w1, w2 + (w3 + w4), post);
    var p2 := TakeThen(p1, w2, w3 + w4, post);
    var p3 := TakeThen(p2, w3, w4, post);
    LastTaken(p3, w4, post);
  }

  lemma LastTaken(pre: seq<Byte>, w: seq<Addr>, post: seq<Byte>)
    ensures Take(Framed(pre, w, post), |pre|, |w|) == Some(Taken(w, |pre| + 4 * |w|))
  {
    hide Bin, Take;
    TakeBack(pre, w, post);
  }

  lemma FrontBack(c: Context, l: Layout, byVrom: ByVrom, pre: seq<Byte>, post: seq<Byte>, pad: nat -> Addr)
    requires WellFormed(c, l, byVrom)
    ensures |AllNames(c)| == ProvidedBase(c) + |c.events|
    ensures var words := FrontWords(c, AllNames(c), pad);
            ParseFront(pre + Bin(words) + post, |pre|, StringTable(AllNames(c)), |c.dependencies|, |c.imports|,
                       |c.dependencyEvents|, |c.replacements|)
            == Some(Front(c.dependencies, c.imports, c.dependencyEvents, NormalPatches(c.replacements),
                          |pre| + 4 * |words|))
  {
    hide Bin, Take, StringTable, AllNames, ParseDependencies, ParseNamed, ParsePatches, DependencyWords, NamedWords,
         PatchWords, InOrder, SectionOk;
    GroupsOfNames(c);
    var names := AllNames(c);
    var w1 := DependencyWords(names, |c.dependencies|, pad);
    var w2 := NamedWords(names, ImportBase(c), c.imports, |c.imports|);
    var w3 := NamedWords(names, EventBase(c), c.dependencyEvents, |c.dependencyEvents|);
    TakeFour(pre, w1, w2, w3, PatchWords(c.replacements), post);
    assert names[..|c.dependencies|] == c.dependencies;
    assert c.imports[..|c.imports|] == c.imports && c.dependencyEvents[..|c.dependencyEvents|] == c.dependencyEvents;
    DependenciesBack(names, |c.dependencies|, pad);
    NamedBack(names, ImportBase(c), c.imports, |c.imports|, Imports(|c.dependencies|));
    NamedBack(names, EventBase(c), c.dependencyEvents, |c.dependencyEvents|, Events(|c.dependencies|));
    PatchesBack(c.replacements);
  }

  lemma BackBack(c: Context, l: Layout, byVrom: ByVrom, pre: seq<Byte>, post: seq<Byte>)
    requires WellFormed(c, l, byVrom)
    ensures |AllNames(c)| == ProvidedBase(c) + |c.events|
    ensures var words := BackWords(c, AllNames(c));
            ParseBack(pre + Bin(words) + post, |pre|, StringTable(AllNames(c)), WithNames(c, 0), |c.dependencyEvents|,
                      |c.exports|, |c.callbacks|, |c.events|, |c.hooks|)
            == Some(Back(Exports(c.exports, NormalFunctions(c)), c.callbacks, c.events, NormalPatches(c.hooks),
                         |pre| + 4 * |words|))
  {
    hide Bin, Take, StringTable, AllNames, ParseExports, ParseCallbacks, ParseProvided, ParsePatches, ExportWords,
         CallbackWords, ProvidedWords, PatchWords, InOrder, SectionOk, WithNames, NormalFunctions;
    GroupsOfNames(c);
    var names := AllNames(c);
    TakeFour(pre, ExportWords(names, ExportBase(c), c.exports, |c.exports|), CallbackWords(c.callbacks),
             ProvidedWords(names, ProvidedBase(c), |c.events|), PatchWords(c.hooks), post);
    ExportTable(c, l, byVrom);
    CallbacksBack(c.callbacks, |c.dependencyEvents|, |c.functions|);
    ProvidedBack(names, ProvidedBase(c), |c.events|);
    PatchesBack(c.hooks);
  }

  lemma ExportTable(c: Context, l: Layout, byVrom: ByVrom)
    requires WellFormed(c, l, byVrom)
    ensures |AllNames(c)| == ProvidedBase(c) + |c.events|
    ensures ParseExports(ExportWords(AllNames(c), ExportBase(c), c.exports, |c.exports|), StringTable(AllNames(c)),
                         WithNames(c, 0))
            == Some(Exports(c.exports, NormalFunctions(c)))
  {
    hide StringTable, AllNames, ParseExports, ExportWords, InOrder, SectionOk;
    GroupsOfNames(c);
    var names := AllNames(c);
    assert ExportsListed(c, names, ExportBase(c));
    ExportsBack(c, names, ExportBase(c), |c.exports|);
    assert c.exports[..|c.exports|] == c.exports;
    assert WithNames(c, |c.exports|) == NormalFunctions(c);
  }

  // ----- The whole file -----

  lemma TablesSplit(c: Context, l: Layout, pad: nat -> Addr)
    requires Printable(c, l)
    ensures |AllNames(c)| == ProvidedBase(c) + |c.events|
    ensures Tables(c, l, pad) == SectionsWords(c, l, |c.sections|) + FrontWords(c, AllNames(c), pad)
            + BackWords(c, AllNames(c))
  {
    hide AllNames, SectionsWords, DependencyWords, NamedWords, PatchWords, ExportWords, CallbackWords, ProvidedWords;
    GroupsOfNames(c);
  }

  /** The data before the tables, and what is read from it. */
  function Head(c: Context): seq<Byte>
    requires ExportsKnown(c)
  {
    MAGIC + Bin([1]) + Bin(SubHeader(c)) + StringTable(AllNames(c))
  }

  lemma HeadBack(c: Context, post: seq<Byte>)
    requires CountsOk(c) && ExportsKnown(c) && |StringTable(AllNames(c))| < WORD
    ensures var data, strings := Head(c) + post, StringTable(AllNames(c));
            && |data| >= 12 && data[..8] == MAGIC && Binary.WordAt(data, 8) == 1
            && |Head(c)| == 52 + |strings|
            && Take(data, 12, 10) == Some(Taken(SubHeader(c), 52)) && data[52..52 + |strings|] == strings
    ensures SubHeader(c) == [|c.sections|, |c.dependencies|, |c.imports|, |c.dependencyEvents|, |c.replacements|,
                             |c.exports|, |c.callbacks|, |c.events|, |c.hooks|, |StringTable(AllNames(c))|]
  {
    hide Bin, Take, StringTable, AllNames, Binary.WordAt, SubHeader;
    SubHeaderIs(c);
    var strings := StringTable(AllNames(c));
    var data := Head(c) + post;
    assert data == MAGIC + Bin([1]) + (Bin(SubHeader(c)) + strings + post);
    VersionBack(Bin(SubHeader(c)) + strings + post);
    assert data == (MAGIC + Bin([1])) + Bin(SubHeader(c)) + (strings + post);
    TakeBack(MAGIC + Bin([1]), SubHeader(c), strings + post);
    assert data == (MAGIC + Bin([1]) + Bin(SubHeader(c))) + strings + post;
  }

  lemma SubHeaderIs(c: Context)
    requires CountsOk(c) && ExportsKnown(c) && |StringTable(AllNames(c))| < WORD
    ensures SubHeader(c) == [|c.sections|, |c.dependencies|, |c.imports|, |c.dependencyEvents|, |c.replacements|,
                             |c.exports|, |c.callbacks|, |c.events|, |c.hooks|, |StringTable(AllNames(c))|]
  {
    hide StringTable, AllNames, ExportsKnown;
    LowIs(|c.sections|);
    LowIs(|StringTable(AllNames(c))|);
  }

  lemma VersionBack(post: seq<Byte>)
    ensures Binary.WordAt(MAGIC + Bin([1]) + post, 8) == 1
  {
    ReadBack(MAGIC, [1], post);
    assert WordsAt(MAGIC + Bin([1]) + post, 8, 1)[0] == 1;
  }

  /** Relocations of well-formed contexts can be written. */
  lemma WellFormedPrints(c: Context, l: Layout, byVrom: ByVrom)
    requires WellFormed(c, l, byVrom)
    ensures Printable(c, l) && RelocsPrintable(c)
  {
    forall i, j | 0 <= i < |c.sections| && 0 <= j < |c.sections[i].relocs|
      ensures var r := c.sections[i].relocs[j];
              r.section != SECTION_ABSOLUTE
                && (r.section == SECTION_IMPORT || r.section == SECTION_EVENT || r.reference
                    || r.section < |c.sections|)
    {
      assert SectionOk(c, l, byVrom, i);
      assert RelocOk(c, l, byVrom, c.sections[i].relocs[j]);
    }
  }

  /** Printing and parsing: for every well-formed context, whatever the padding holds,
      the file parses, to its last byte, to the context it was printed from, up to the
      fields that the format drops. */
  lemma RoundTrip(c: Context, l: Layout, byVrom: ByVrom, pad: nat -> Addr)
    requires WellFormed(c, l, byVrom)
    ensures Printable(c, l) && Parse(Print(c, l, pad), byVrom) == Good(Normal(c))
  {
    hide WellFormed, SectionsWords, FrontWords, BackWords, Bin, Take, StringTable, AllNames, SubHeader, ParseSections,
         ParseFront, ParseBack, NormalSections, NormalFunctions, WithNames, Tables, RelocsPrintable, Binary.WordAt;
    WellFormedPrints(c, l, byVrom);
    WellFormedCounts(c, l, byVrom);
    TablesSplit(c, l, pad);
    var sw, fw, bw := SectionsWords(c, l, |c.sections|), FrontWords(c, AllNames(c), pad), BackWords(c, AllNames(c));
    var head := Head(c);
    BinConcat(sw + fw, bw);
    BinConcat(sw, fw);
    var data := Print(c, l, pad);
    assert data == head + Bin(Tables(c, l, pad));
    HeadBack(c, Bin(Tables(c, l, pad)));
    assert data == head + Bin(sw) + (Bin(fw) + Bin(bw));
    SectionsBack(c, l, byVrom, |c.sections|, head, Bin(fw) + Bin(bw));
    assert data == (head + Bin(sw)) + Bin(fw) + Bin(bw);
    FrontBack(c, l, byVrom, head + Bin(sw), Bin(bw), pad);
    assert data == (head + Bin(sw) + Bin(fw)) + Bin(bw) + [];
    BackBack(c, l, byVrom, head + Bin(sw) + Bin(fw), []);
    assert NormalSections(c.sections)[..|c.sections|] == NormalSections(c.sections);
    assert WithNames(c, 0)[..FirstFunc(l, |c.sections|)] == WithNames(c, 0);
  }

  lemma WellFormedCounts(c: Context, l: Layout, byVrom: ByVrom)
    requires WellFormed(c, l, byVrom)
    ensures CountsOk(c) && ExportsKnown(c) && |StringTable(AllNames(c))| < WORD && |c.sections| == |l.functions|
    ensures FirstFunc(l, |c.sections|) == |c.functions| == |WithNames(c, 0)|
  {
  }

  /** The binary holds the words at the address. */
  predicate HoldsWords(binary: seq<Byte>, at: nat, words: seq<Addr>) {
    at + 4 * |words| <= |binary| && binary[at..at + 4 * |words|] == Bin(words)
  }

  lemma HeldWords(binary: seq<Byte>, at: nat, words: seq<Addr>)
    requires HoldsWords(binary, at, words)
    ensures WordsAt(binary, at, |words|) == words
  {
    var end := at + 4 * |words|;
    assert binary == binary[..at] + Bin(words) + binary[end..];
    ReadBack(binary[..at], words, binary[end..]);
  }

  /** With the binary in which each function's words stand at its place, loading gives the
      context and these words. */
  lemma LoadsBack(c: Context, l: Layout, byVrom: ByVrom, pad: nat -> Addr, binary: seq<Byte>, words: seq<seq<Addr>>)
    requires WellFormed(c, l, byVrom) && |words| == |c.functions|
    requires forall i :: 0 <= i < |words| ==>
               |words[i]| == c.functions[i].words && HoldsWords(binary, c.functions[i].rom, words[i])
    ensures Printable(c, l) && Load(Print(c, l, pad), binary, byVrom) == Ready(Normal(c), words)
  {
    hide WellFormed, Print, Parse, Bin, WordsAt;
    RoundTrip(c, l, byVrom, pad);
    var functions := Normal(c).functions;
    forall i | 0 <= i < |words|
      ensures InBinary(functions[i], binary)
      ensures WordsAt(binary, functions[i].rom, functions[i].words) == words[i]
    {
      HeldWords(binary, c.functions[i].rom, words[i]);
    }
    assert WordsOf(functions, binary) == words;
  }

  /** Loading fails for a binary in which some function does not lie. */
  lemma MissingWordsRefused(c: Context, l: Layout, byVrom: ByVrom, pad: nat -> Addr, binary: seq<Byte>)
    requires WellFormed(c, l, byVrom)
    ensures Printable(c, l)
    ensures Load(Print(c, l, pad), binary, byVrom) == OutOfBounds
            <==> exists i :: 0 <= i < |c.functions| && !InBinary(c.functions[i], binary)
  {
    hide WellFormed, Print, Parse;
    RoundTrip(c, l, byVrom, pad);
    var functions := Normal(c).functions;
    assert forall i :: 0 <= i < |functions| ==> (InBinary(functions[i], binary) <==> InBinary(c.functions[i], binary));
  }
}
