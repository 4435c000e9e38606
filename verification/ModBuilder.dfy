/** Building the context of a mod in place: a loop over the linked sections that updates
    the current output section, then one over all relocations. */
module ModBuilder {
  import opened Machine
  import opened Binary
  import opened ModSymbols
  import opened ModContext
  import Halves
  import ElfRelocs

  // ----- A failure ends the build -----

  lemma {:induction false} CopyFunctionsFail(p: Program, b: Build, role: Role, funcs: seq<nat>, k: nat, n: nat)
    requires Opened(b) && FunctionsKnown(p, funcs) && k <= n <= |funcs| && CopyFunctions(p, b, role, funcs, k).None?
    ensures CopyFunctions(p, b, role, funcs, n).None?
    decreases n
  {
    hide CopyFunction;
    if k < n {
      CopyFunctionsFail(p, b, role, funcs, k, n - 1);
    }
  }

  lemma {:induction false} CopyRelocsFail(p: Program, b: Build, s: Source, k: nat, n: nat)
    requires Opened(b) && RelocsKnown(p, s.relocs) && k <= n <= |s.relocs| && CopyRelocs(p, b, s, k).None?
    ensures CopyRelocs(p, b, s, n).None?
    decreases n
  {
    hide CopyReloc;
    if k < n {
      CopyRelocsFail(p, b, s, k, n - 1);
    }
  }

  lemma {:induction false} AddSourcesFail(p: Program, k: nat, n: nat)
    requires Readable(p) && k <= n <= |p.sources| && AddSources(p, k).None?
    ensures AddSources(p, n).None?
    decreases n
  {
    hide AddSource;
    if k < n {
      AddSourcesFail(p, k, n - 1);
    }
  }

  lemma {:induction false} RetargetAllFail(p: Program, b: Build, relocs: seq<ModReloc>, k: nat)
    requires RelocsKnown(p, relocs) && k <= |relocs| && RetargetAll(p, b, relocs[..k]).None?
    ensures RetargetAll(p, b, relocs).None?
    decreases |relocs|
  {
    hide Retarget;
    if k < |relocs| {
      assert relocs[..|relocs| - 1][..k] == relocs[..k];
      RetargetAllFail(p, b, relocs[..|relocs| - 1], k);
    } else {
      assert relocs[..k] == relocs;
    }
  }

  lemma {:induction false} RetargetSectionsFail(p: Program, b: Build, k: nat, n: nat)
    requires k <= n <= |b.out.sections| && SectionsKnown(p, b.out.sections) && RetargetSections(p, b, k).None?
    ensures RetargetSections(p, b, n).None?
    decreases n
  {
    hide RetargetAll;
    if k < n {
      RetargetSectionsFail(p, b, k, n - 1);
    }
  }

  // ----- Looking a name up, and adding it -----

  method Find<T(==)>(table: seq<T>, x: T) returns (found: bool, index: nat)
    ensures found <==> x in table
    ensures found ==> index == IndexOf(table, x)
  {
    index := |table|;
    assert table[..index] == table;
    while index > 0
      invariant index <= |table| && x !in table[index..]
      invariant x in table[..index] <==> x in table
      invariant x in table ==> IndexOf(table, x) == IndexOf(table[..index], x)
    {
      if table[index - 1] == x {
        assert table[..index][|table[..index]| - 1] == x;
        return true, index - 1;
      }
      LastIsNot(table, x, index);
      index := index - 1;
    }
    return false, 0;
  }

  lemma LastIsNot<T>(table: seq<T>, x: T, n: nat)
    requires 0 < n <= |table| && table[n - 1] != x
    ensures x in table[..n] <==> x in table[..n - 1]
    ensures x in table[..n] ==> IndexOf(table[..n], x) == IndexOf(table[..n - 1], x)
    ensures table[n - 1..] == [table[n - 1]] + table[n..]
  {
    assert table[..n][..n - 1] == table[..n - 1] && table[..n] == table[..n - 1] + [table[n - 1]];
  }

  class Builder {
    var out: Context
    var layout: seq<seq<nat>>
    var rom: ElfRelocs.Rom
    var romToRam: Addr
    var mapped: map<nat, nat>

    function State(): Build
      reads this
    {
      Build(out, layout, rom, romToRam, mapped)
    }

    constructor (p: Program)
      ensures State() == Blank(p)
    {
      out := Context([BLANK], [], p.dependencies, p.imports, p.dependencyEvents, [], [], [], [], []);
      layout, rom, romToRam, mapped := [], p.rom, NOWHERE, map[];
    }

    method AddBss(i: nat, s: Source)
      modifies this
      ensures State() == PlaceUnloaded(old(State()), i, s)
    {
      if Opened(State()) && s.size != 0 {
        var k := |layout| - 1;
        var section := out.sections[k];
        var bssStart := Add(section.ram, section.size);
        var bssEnd := Add(bssStart, section.bss);
        if s.ram >= bssEnd && s.ram <= AlignUp16(bssEnd) {
          out := out.(sections := out.sections[k := section.(bss := Minus(Add(s.ram, s.size), bssStart))]);
          mapped := mapped[i := k];
        }
      }
    }

    method AddSection(i: nat, s: Source)
      requires layout == [] || Opened(State())
      requires layout == [] ==> romToRam != Delta(s)
      modifies this
      ensures State() == Place(old(State()), i, s)
    {
      var current := |layout| - 1;
      var romToRamHere := Minus(s.ram, s.rom);
      if romToRam == romToRamHere {
        var section := out.sections[current];
        var end := Add(s.rom, s.size);
        out := out.(sections := out.sections[current := section.(size := Minus(end, section.rom))]);
      } else {
        current := current + 1;
        out := out.(sections := out.sections[..current] + [BLANK.(rom := s.rom, ram := s.ram, size := s.size)]);
        layout := layout + [[]];
        romToRam := romToRamHere;
      }
      mapped := mapped[i := current];
    }

    method FindOrAddDependency(name: Text) returns (ok: bool, index: nat)
      modifies this
      ensures ok == KnownDependency(old(out), name)
      ensures ok ==> State() == old(State()).(out := old(out).(dependencies := With(old(out).dependencies, name)))
      ensures ok ==> index == IndexOf(out.dependencies, name)
    {
      ok, index := Find(out.dependencies, name);
      if !ok && (name == SELF || name == BASE_PROGRAM) {
        index := |out.dependencies|;
        out := out.(dependencies := out.dependencies + [name]);
        ok := true;
      }
    }

    /** What the role of the section makes of the next function. */
    method MarkNext(p: Program, role: Role, name: Text) returns (ok: bool)
      modifies this
      ensures ok <==> Mark(p, old(out), role, name, |old(out).functions|).Some?
      ensures ok ==> State() == old(State()).(out := Mark(p, old(out), role, name, |old(out).functions|).value)
    {
      var n := |out.functions|;
      ok := true;
      match role
      case Replaces(forced) =>
        if name !in p.originals { return false; }
        var o := p.originals[name];
        out := out.(replacements := out.replacements + [Patch(Low(n), o.vrom, o.vram, if forced then 1 else 0)]);
      case Hooks(hooked, atReturn) =>
        if hooked !in p.originals { return false; }
        var o := p.originals[hooked];
        out := out.(hooks := out.hooks + [Patch(Low(n), o.vrom, o.vram, if atReturn then 1 else 0)]);
      case Exported =>
        out := out.(exports := out.exports + [n]);
      case Listens(target) =>
        if target.None? { return false; }
        var known, dependency := FindOrAddDependency(target.value.dependency);
        if !known { return false; }
        var event := Named(target.value.event, dependency);
        var found, index := Find(out.dependencyEvents, event);
        if !found {
          index := |out.dependencyEvents|;
          out := out.(dependencyEvents := out.dependencyEvents + [event]);
        }
        out := out.(callbacks := out.callbacks + [Callback(index, n)]);
      case _ =>
    }

    method AddFunction(p: Program, role: Role, f: Function) returns (ok: bool)
      requires Opened(State())
      modifies this
      ensures ok <==> CopyFunction(p, old(State()), role, f).Some?
      ensures ok ==> CopyFunction(p, old(State()), role, f) == Some(State())
    {
      hide Mark;
      var k, n := |layout| - 1, |out.functions|;
      ok := MarkNext(p, role, f.name);
      if ok {
        layout := layout[k := layout[k] + [n]];
        out := out.(functions := out.functions
                    + [Function(if role.Exported? then f.name else [], f.vram, f.rom, f.words, k)]);
      }
    }

    method AddFunctions(p: Program, role: Role, funcs: seq<nat>) returns (ok: bool)
      requires Opened(State()) && FunctionsKnown(p, funcs)
      modifies this
      ensures ok <==> CopyFunctions(p, old(State()), role, funcs, |funcs|).Some?
      ensures ok ==> CopyFunctions(p, old(State()), role, funcs, |funcs|) == Some(State())
    {
      hide CopyFunction;
      for j := 0 to |funcs|
        invariant CopyFunctions(p, old(State()), role, funcs, j) == Some(State())
      {
        ok := AddFunction(p, role, p.functions[funcs[j]]);
        if !ok {
          CopyFunctionsFail(p, old(State()), role, funcs, j + 1, |funcs|);
          return;
        }
      }
      ok := true;
    }

    method AnnounceEvents(p: Program, funcs: seq<nat>)
      requires FunctionsKnown(p, funcs)
      modifies this
      ensures State() == Announce(p, old(State()), funcs, |funcs|)
    {
      for j := 0 to |funcs|
        invariant State() == Announce(p, old(State()), funcs, j)
      {
        var name := p.functions[funcs[j]].name;
        var found, index := Find(out.events, name);
        if !found {
          out := out.(events := out.events + [name]);
        }
      }
    }

    method PushReloc(r: ModReloc)
      requires Opened(State())
      modifies this`out
      ensures State() == AppendReloc(old(State()), r)
    {
      var k := |layout| - 1;
      out := out.(sections := out.sections[k := out.sections[k].(relocs := out.sections[k].relocs + [r])]);
    }

    /** A relocation against a place of the original program that cannot move. */
    method SettleReloc(p: Program, s: Source, r: ModReloc) returns (ok: bool)
      requires Opened(State())
      modifies this
      ensures ok <==> Settle(p, old(State()), s, r).Some?
      ensures ok ==> Settle(p, old(State()), s, r) == Some(State())
    {
      hide HighPart, WithImmediate;
      var value := Add(RefVram(p, r.section), r.offset);
      var at := Add(Minus(r.address, s.ram), s.rom);
      var word := ElfRelocs.WordOf(rom, at);
      if r.kind == R_26 {
        PushReloc(r);
      } else if r.kind == R_HI16 {
        word := WithImmediate(word, HighPart(value));
      } else if r.kind == R_LO16 {
        word := WithImmediate(word, Halves.Low16(value));
      } else if r.kind != R_32 {
        return false;
      }
      rom := rom[at := word];
      ok := true;
    }

    /** A jump to an event or an import. */
    method SymbolReloc(p: Program, s: Source, r: ModReloc) returns (ok: bool)
      requires Opened(State()) && r.section < |p.sources|
      modifies this
      ensures ok <==> ToSymbol(p, old(State()), s, r).Some?
      ensures ok ==> ToSymbol(p, old(State()), s, r) == Some(State())
    {
      hide AppendReloc, FunctionAt;
      var target := p.sources[r.section];
      var offset := Minus(Add(r.offset, target.ram), s.ram);
      if r.kind != R_26 { return false; }
      var f := FunctionAt(p, Add(r.offset, target.ram), r.section);
      if f.None? { return false; }
      if target.role.StandsFor? {
        var known, dependency := FindOrAddDependency(target.role.dependency);
        if !known { return false; }
        var symbol := Named(f.value.name, dependency);
        var found, index := Find(out.imports, symbol);
        if !found {
          index := |out.imports|;
          out := out.(imports := out.imports + [symbol]);
        }
        PushReloc(ModReloc(r.address, r.kind, true, SECTION_IMPORT, offset, Low(index)));
      } else {
        var found, index := Find(out.events, f.value.name);
        if !found {
          index := |out.events|;
          out := out.(events := out.events + [f.value.name]);
        }
        PushReloc(ModReloc(r.address, r.kind, true, SECTION_EVENT, offset, Low(index)));
      }
      ok := true;
    }

    method AddReloc(p: Program, s: Source, r: ModReloc) returns (ok: bool)
      requires Opened(State()) && RelocKnown(p, r)
      modifies this
      ensures ok <==> CopyReloc(p, old(State()), s, r).Some?
      ensures ok ==> CopyReloc(p, old(State()), s, r) == Some(State())
    {
      hide AppendReloc, Settle, ToSymbol;
      if r.kind == R_NONE {
        return true;
      }
      ok := true;
      if r.section == SECTION_IMPORT || r.section == SECTION_EVENT {
        PushReloc(r);
      } else if r.reference {
        if r.section == SECTION_ABSOLUTE || !p.movable(r.section) {
          ok := SettleReloc(p, s, r);
        } else {
          PushReloc(r);
        }
      } else {
        var target := p.sources[r.section];
        if target.role.Announces? || target.role.StandsFor? {
          ok := SymbolReloc(p, s, r);
        } else if target.rom != NOWHERE && Minus(target.ram, target.rom) != Minus(s.ram, s.rom) {
          ok := false;
        } else {
          PushReloc(ModReloc(r.address, r.kind, false, r.section, r.offset, 0));
        }
      }
    }

    method AddRelocs(p: Program, s: Source) returns (ok: bool)
      requires Opened(State()) && RelocsKnown(p, s.relocs)
      modifies this
      ensures ok <==> CopyRelocs(p, old(State()), s, |s.relocs|).Some?
      ensures ok ==> CopyRelocs(p, old(State()), s, |s.relocs|) == Some(State())
    {
      hide CopyReloc;
      for j := 0 to |s.relocs|
        invariant CopyRelocs(p, old(State()), s, j) == Some(State())
      {
        ok := AddReloc(p, s, s.relocs[j]);
        if !ok {
          CopyRelocsFail(p, old(State()), s, j + 1, |s.relocs|);
          return;
        }
      }
      ok := true;
    }

    method AddContents(p: Program, s: Source) returns (ok: bool)
      requires Opened(State()) && FunctionsKnown(p, s.functions) && RelocsKnown(p, s.relocs)
      modifies this
      ensures ok <==> Copy(p, old(State()), s).Some?
      ensures ok ==> Copy(p, old(State()), s) == Some(State())
    {
      hide CopyFunctions, CopyRelocs, Announce;
      ok := true;
      if s.role.Announces? {
        AnnounceEvents(p, s.functions);
      } else if !s.role.StandsFor? {
        ok := AddFunctions(p, s.role, s.functions);
        if ok {
          ok := AddRelocs(p, s);
        }
      }
    }

    method RetargetRelocs(p: Program, relocs: seq<ModReloc>) returns (r: Option<seq<ModReloc>>)
      requires RelocsKnown(p, relocs)
      ensures r == RetargetAll(p, State(), relocs)
    {
      var done: seq<ModReloc> := [];
      for j := 0 to |relocs|
        invariant RetargetAll(p, State(), relocs[..j]) == Some(done)
      {
        assert relocs[..j + 1][..j] == relocs[..j];
        var reloc := relocs[j];
        if !reloc.reference {
          if reloc.section !in mapped || mapped[reloc.section] >= |out.sections| {
            RetargetAllFail(p, State(), relocs, j + 1);
            return None;
          }
          var k := mapped[reloc.section];
          var offset := Minus(Add(reloc.offset, p.sources[reloc.section].ram), out.sections[k].ram);
          reloc := reloc.(section := k, offset := offset);
        }
        done := done + [reloc];
      }
      assert relocs[..|relocs|] == relocs;
      r := Some(done);
    }
  }

  method BuildModContext(p: Program) returns (r: Option<Build>)
    requires Readable(p)
    ensures r == BuildMod(p)
  {
    hide Readable, Copy, Place, PlaceUnloaded, RetargetAll, SectionsKnown, Begun;
    var builder := new Builder(p);
    for i := 0 to |p.sources|
      invariant AddSources(p, i) == Some(builder.State())
    {
      var s := p.sources[i];
      NextSource(p, builder.State(), i);
      if s.rom == NOWHERE {
        builder.AddBss(i, s);
      } else {
        builder.AddSection(i, s);
        var ok := builder.AddContents(p, s);
        if !ok {
          AddSourcesFail(p, i + 1, |p.sources|);
          return None;
        }
      }
    }
    AddSourcesKnown(p, |p.sources|);
    var sections: seq<Section> := [];
    var b := builder.State();
    for k := 0 to |b.out.sections|
      invariant builder.State() == b && RetargetSections(p, b, k) == Some(sections)
    {
      SectionKnown(p, b, k);
      var relocs := builder.RetargetRelocs(p, b.out.sections[k].relocs);
      if relocs.None? {
        RetargetSectionsFail(p, b, k + 1, |b.out.sections|);
        return None;
      }
      sections := sections + [b.out.sections[k].(relocs := relocs.value)];
    }
    r := Some(b.(out := b.out.(sections := sections)));
  }

  lemma SectionKnown(p: Program, b: Build, k: nat)
    requires SectionsKnown(p, b.out.sections) && k < |b.out.sections|
    ensures RelocsKnown(p, b.out.sections[k].relocs)
  {
  }

  /** What is known before the next section is added. */
  lemma NextSource(p: Program, b: Build, i: nat)
    requires Readable(p) && i < |p.sources| && AddSources(p, i) == Some(b)
    ensures var s := p.sources[i];
            && FunctionsKnown(p, s.functions) && RelocsKnown(p, s.relocs) && Begun(p, b, i)
            && (Loaded(s) ==> (b.layout == [] || Opened(b)) && (b.layout == [] ==> b.delta != Delta(s)))
            && AddSources(p, i + 1) == (if Loaded(s) then Copy(p, Place(b, i, s), s) else Some(PlaceUnloaded(b, i, s)))
  {
    hide Copy, Place, PlaceUnloaded;
  }

  /** A relocation within the mod is refused if its target is loaded at another distance
      between file and memory. */
  lemma FarRelocsRefused(p: Program, i: nat, j: nat)
    requires Readable(p) && i < |p.sources| && Copied(p.sources[i]) && j < |p.sources[i].relocs|
    requires var r := p.sources[i].relocs[j];
             Internal(p, r) && Loaded(p.sources[r.section]) && Delta(p.sources[r.section]) != Delta(p.sources[i])
    ensures BuildMod(p).None?
  {
    hide Place, PlaceUnloaded, CopyFunctions, Delta, Readable, Begun;
    var s := p.sources[i];
    if AddSources(p, i).Some? {
      NextSource(p, AddSources(p, i).value, i);
      var b := Place(AddSources(p, i).value, i, s);
      if CopyFunctions(p, b, s.role, s.functions, |s.functions|).Some? {
        CopyRelocsFail(p, CopyFunctions(p, b, s.role, s.functions, |s.functions|).value, s, j + 1, |s.relocs|);
      }
      AddSourcesFail(p, i + 1, |p.sources|);
    } else {
      AddSourcesFail(p, i, |p.sources|);
    }
  }
}
