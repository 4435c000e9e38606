/** What merging sections keeps: the distance between file and memory, the numbering of
    the functions, and the address every relocation refers to. */
module ModContextFacts {
  import opened Machine
  import opened Binary
  import opened ModSymbols
  import opened ModSymbolsFacts
  import opened ModContext
  import Halves
  import ElfRelocs

  // ----- Sections keep their distance -----

  /** Each loaded section became part of one at the same distance between file and memory. */
  predicate Placed(p: Program, b: Build, n: nat)
    requires n <= |p.sources|
  {
    && (b.layout != [] ==> Opened(b) && b.delta == SectionDelta(b.out.sections[Current(b)]))
    && (forall j :: j in b.mapped ==> j < n && b.mapped[j] < |b.layout|)
    && (forall j :: 0 <= j < n && Loaded(p.sources[j]) ==>
          j in b.mapped && b.mapped[j] < |b.out.sections|
            && SectionDelta(b.out.sections[b.mapped[j]]) == Delta(p.sources[j]))
  }

  /** The sections lie where they lay. */
  predicate SamePlaces(b: Build, c: Build) {
    && c.delta == b.delta && c.mapped == b.mapped && |c.layout| == |b.layout| && |c.out.sections| == |b.out.sections|
    && forall k :: 0 <= k < |b.out.sections| ==>
           && c.out.sections[k].ram == b.out.sections[k].ram && c.out.sections[k].rom == b.out.sections[k].rom
           && c.out.sections[k].size == b.out.sections[k].size
  }

  lemma {:induction false} CopyRelocsPlaces(p: Program, b: Build, s: Source, n: nat)
    requires Opened(b) && RelocsKnown(p, s.relocs) && n <= |s.relocs| && |p.sources| <= SECTION_EVENT
             && CopyRelocs(p, b, s, n).Some?
    ensures SamePlaces(b, CopyRelocs(p, b, s, n).value)
    ensures CopyRelocs(p, b, s, n).value.layout == b.layout
            && CopyRelocs(p, b, s, n).value.out.functions == b.out.functions
  {
    hide CopyReloc;
    if n > 0 {
      CopyRelocsPlaces(p, b, s, n - 1);
      var more := CopyRelocGrows(p, CopyRelocs(p, b, s, n - 1).value, s, s.relocs[n - 1]);
    }
  }

  lemma CopyPlaces(p: Program, b: Build, s: Source)
    requires Opened(b) && FunctionsKnown(p, s.functions) && RelocsKnown(p, s.relocs) && |p.sources| <= SECTION_EVENT
             && Copy(p, b, s).Some?
    ensures SamePlaces(b, Copy(p, b, s).value)
  {
    hide CopyFunctions, CopyRelocs;
    if s.role.Announces? {
      AnnounceKeeps(p, b, s.functions, |s.functions|);
    } else if !s.role.StandsFor? {
      CopyFunctionsSections(p, b, s.role, s.functions, |s.functions|);
      CopyRelocsPlaces(p, CopyFunctions(p, b, s.role, s.functions, |s.functions|).value, s, |s.relocs|);
    }
  }

  lemma PlaceKeeps(p: Program, b: Build, i: nat)
    requires i < |p.sources| && Placed(p, b, i) && (b.layout == [] || Opened(b))
             && (b.layout == [] ==> b.delta != Delta(p.sources[i]))
    ensures Placed(p, Place(b, i, p.sources[i]), i + 1)
  {
    hide Add, Minus;
  }

  lemma PlaceUnloadedKeeps(p: Program, b: Build, i: nat)
    requires i < |p.sources| && Placed(p, b, i) && !Loaded(p.sources[i])
    ensures Placed(p, PlaceUnloaded(b, i, p.sources[i]), i + 1)
  {
    hide Add, Minus, AlignUp16;
  }

  lemma SamePlaced(p: Program, b: Build, c: Build, n: nat)
    requires n <= |p.sources| && Placed(p, b, n) && SamePlaces(b, c)
    ensures Placed(p, c, n)
  {
    hide Minus, Delta;
  }

  /** The last section that was added. */
  lemma LastSource(p: Program, n: nat) returns (b: Build, s: Source)
    requires Readable(p) && 0 < n <= |p.sources| && AddSources(p, n).Some?
    ensures AddSources(p, n - 1) == Some(b) && s == p.sources[n - 1]
    ensures FunctionsKnown(p, s.functions) && RelocsKnown(p, s.relocs) && |p.sources| <= SECTION_EVENT
    ensures Loaded(s) ==>
              && (b.layout == [] || Opened(b)) && (b.layout == [] ==> b.delta != Delta(s))
              && AddSources(p, n) == Copy(p, Place(b, n - 1, s), s)
    ensures !Loaded(s) ==> AddSources(p, n) == Some(PlaceUnloaded(b, n - 1, s))
  {
    hide Place, PlaceUnloaded, Copy, FunctionsKnown, RelocsKnown, Delta;
    b, s := AddSources(p, n - 1).value, p.sources[n - 1];
  }

  lemma {:induction false} SourcesPlaced(p: Program, n: nat)
    requires Readable(p) && n <= |p.sources| && AddSources(p, n).Some?
    ensures Placed(p, AddSources(p, n).value, n)
  {
    hide Readable, Delta, Place, PlaceUnloaded, Copy, Placed, SamePlaces;
    if n > 0 {
      SourcesPlaced(p, n - 1);
      var b, s := LastSource(p, n);
      if Loaded(s) {
        PlaceKeeps(p, b, n - 1);
        CopyPlaces(p, Place(b, n - 1, s), s);
        SamePlaced(p, Place(b, n - 1, s), AddSources(p, n).value, n);
      } else {
        PlaceUnloadedKeeps(p, b, n - 1);
      }
    } else {
      NonePlaced(p);
    }
  }

  lemma NonePlaced(p: Program)
    ensures Placed(p, Blank(p), 0)
  {
  }

  lemma {:induction false} RetargetSectionsPlaces(p: Program, b: Build, n: nat)
    requires n <= |b.out.sections| && SectionsKnown(p, b.out.sections) && RetargetSections(p, b, n).Some?
    ensures var r := RetargetSections(p, b, n).value;
            |r| == n && forall k :: 0 <= k < n ==> r[k] == b.out.sections[k].(relocs := r[k].relocs)
                                                   && RetargetAll(p, b, b.out.sections[k].relocs) == Some(r[k].relocs)
  {
    hide RetargetAll;
    if n > 0 {
      RetargetSectionsPlaces(p, b, n - 1);
    }
  }

  /** The build before and after the last pass. */
  lemma LastPass(p: Program) returns (b: Build, c: Build)
    requires Readable(p) && BuildMod(p).Some?
    ensures AddSources(p, |p.sources|) == Some(b) && BuildMod(p) == Some(c) && SectionsKnown(p, b.out.sections)
    ensures c == b.(out := b.out.(sections := c.out.sections)) && SamePlaces(b, c)
    ensures forall k :: 0 <= k < |c.out.sections| ==>
                c.out.sections[k] == b.out.sections[k].(relocs := c.out.sections[k].relocs)
                                                      && RetargetAll(p, b, b.out.sections[k].relocs)
                                                        == Some(c.out.sections[k].relocs)
  {
    hide AddSources, RetargetSections, RetargetAll;
    b, c := AddSources(p, |p.sources|).value, BuildMod(p).value;
    AddSourcesKnown(p, |p.sources|);
    RetargetSectionsPlaces(p, b, |b.out.sections|);
  }

  /** Every loaded section is part of a section of the mod, at the same distance between
      file and memory. */
  lemma DistancesKept(p: Program)
    requires Readable(p) && BuildMod(p).Some?
    ensures Placed(p, BuildMod(p).value, |p.sources|)
  {
    hide AddSources, BuildMod, Placed, SamePlaces;
    var b, c := LastPass(p);
    SourcesPlaced(p, |p.sources|);
    SamePlaced(p, b, c, |p.sources|);
  }

  // ----- Functions keep their order -----

  /** A function of the linked file, and the section that lists it. */
  datatype Origin = Origin(source: nat, func: nat)

  /** The first `n` functions that section `i` lists. */
  function OriginsIn(funcs: seq<nat>, i: nat, n: nat): (r: seq<Origin>)
    requires n <= |funcs|
    ensures |r| == n && forall j :: 0 <= j < n ==> r[j] == Origin(i, funcs[j])
  {
    seq(n, j requires 0 <= j < n => Origin(i, funcs[j]))
  }

  /** All functions that are copied, section by section. */
  function Origins(p: Program, n: nat): seq<Origin>
    requires n <= |p.sources|
  {
    if n == 0 then []
    else
      var s := p.sources[n - 1];
      Origins(p, n - 1) + (if Copied(s) then OriginsIn(s.functions, n - 1, |s.functions|) else [])
  }

  predicate CopyOf(p: Program, mapped: map<nat, nat>, o: Origin, f: Function) {
    && o.source in mapped && o.func < |p.functions| && f.section == mapped[o.source]
    && f.vram == p.functions[o.func].vram && f.rom == p.functions[o.func].rom && f.words == p.functions[o.func].words
  }

  predicate AllCopies(p: Program, mapped: map<nat, nat>, os: seq<Origin>, functions: seq<Function>) {
    |functions| == |os| && forall i :: 0 <= i < |os| ==> CopyOf(p, mapped, os[i], functions[i])
  }

  /** The sections list the functions `0, 1, ...`, one section after the other. */
  predicate Consecutive(l: Layout, functions: seq<Function>) {
    && FirstFunc(l, |l.functions|) == |functions|
    && forall s, j :: 0 <= s < |l.functions| && 0 <= j < |l.functions[s]| ==>
         l.functions[s][j] == FirstFunc(l, s) + j < |functions| && functions[l.functions[s][j]].section == s
  }

  lemma {:induction false} FirstFuncSame(l: Layout, m: Layout, s: nat)
    requires s <= |l.functions| && s <= |m.functions| && l.functions[..s] == m.functions[..s]
    ensures FirstFunc(l, s) == FirstFunc(m, s)
  {
    if s > 0 {
      assert l.functions[..s - 1] == l.functions[..s][..s - 1] && m.functions[..s - 1] == m.functions[..s][..s - 1];
      FirstFuncSame(l, m, s - 1);
      assert l.functions[s - 1] == l.functions[..s][s - 1] && m.functions[s - 1] == m.functions[..s][s - 1];
    }
  }

  lemma FirstFuncsSame(l: Layout, m: Layout, n: nat)
    requires n <= |l.functions| && n <= |m.functions| && l.functions[..n] == m.functions[..n]
    ensures forall s :: 0 <= s <= n ==> FirstFunc(l, s) == FirstFunc(m, s)
  {
    forall s | 0 <= s <= n ensures FirstFunc(l, s) == FirstFunc(m, s) {
      assert l.functions[..s] == l.functions[..n][..s] && m.functions[..s] == m.functions[..n][..s];
      FirstFuncSame(l, m, s);
    }
  }

  /** One more function at the end of the last section. */
  lemma ListOneMore(l: Layout, functions: seq<Function>, f: Function)
    requires l.functions != [] && Consecutive(l, functions) && f.section == |l.functions| - 1
    ensures var k := |l.functions| - 1;
            Consecutive(l.(functions := l.functions[k := l.functions[k] + [|functions|]]), functions + [f])
  {
    var k := |l.functions| - 1;
    var m := l.(functions := l.functions[k := l.functions[k] + [|functions|]]);
    FirstFuncsSame(l, m, k);
    assert FirstFunc(l, k + 1) == FirstFunc(l, k) + |l.functions[k]|;
    assert FirstFunc(m, k + 1) == FirstFunc(m, k) + |m.functions[k]|;
    forall s, j | 0 <= s < |m.functions| && 0 <= j < |m.functions[s]|
      ensures m.functions[s][j] == FirstFunc(m, s) + j < |functions + [f]|
              && (functions + [f])[m.functions[s][j]].section == s
    {
      if s < k || j < |l.functions[k]| {
        assert m.functions[s][j] == l.functions[s][j];
        assert l.functions[s][j] == FirstFunc(l, s) + j < |functions|;
      }
    }
    assert FirstFunc(m, |m.functions|) == |functions + [f]|;
    assert Consecutive(m, functions + [f]);
  }

  /** An empty section more. */
  lemma SectionOneMore(l: Layout, functions: seq<Function>)
    requires Consecutive(l, functions)
    ensures Consecutive(l.(functions := l.functions + [[]]), functions)
  {
    var m := l.(functions := l.functions + [[]]);
    FirstFuncsSame(l, m, |l.functions|);
    forall s, j | 0 <= s < |m.functions| && 0 <= j < |m.functions[s]|
      ensures m.functions[s][j] == FirstFunc(m, s) + j < |functions| && functions[m.functions[s][j]].section == s
    {
      assert m.functions[s] == l.functions[s];
    }
  }

  lemma CopyFunctionLists(p: Program, b: Build, i: nat, role: Role, func: nat, os: seq<Origin>, romOf: nat -> Addr)
    requires Opened(b) && func < |p.functions| && CopyFunction(p, b, role, p.functions[func]).Some?
    requires i in b.mapped && b.mapped[i] == Current(b)
    requires AllCopies(p, b.mapped, os, b.out.functions) && Consecutive(Layout(b.layout, romOf), b.out.functions)
    ensures var r := CopyFunction(p, b, role, p.functions[func]).value;
            AllCopies(p, b.mapped, os + [Origin(i, func)], r.out.functions)
              && Consecutive(Layout(r.layout, romOf), r.out.functions)
  {
    hide Mark, Consecutive;
    var r, f := CopyFunction(p, b, role, p.functions[func]).value, p.functions[func];
    MarkSections(p, b.out, role, f.name, |b.out.functions|);
    var copy := Function(if role.Exported? then f.name else [], f.vram, f.rom, f.words, Current(b));
    assert r.out.functions == b.out.functions + [copy];
    ListOneMore(Layout(b.layout, romOf), b.out.functions, copy);
  }

  lemma {:induction false} CopyFunctionsList(p: Program, b: Build, i: nat, role: Role, funcs: seq<nat>, n: nat,
                                             os: seq<Origin>, romOf: nat -> Addr)
    requires Opened(b) && FunctionsKnown(p, funcs) && n <= |funcs| && CopyFunctions(p, b, role, funcs, n).Some?
    requires i in b.mapped && b.mapped[i] == Current(b)
    requires AllCopies(p, b.mapped, os, b.out.functions) && Consecutive(Layout(b.layout, romOf), b.out.functions)
    ensures var r := CopyFunctions(p, b, role, funcs, n).value;
            && AllCopies(p, b.mapped, os + OriginsIn(funcs, i, n), r.out.functions)
            && Consecutive(Layout(r.layout, romOf), r.out.functions)
  {
    hide CopyFunction, AllCopies, Consecutive;
    if n > 0 {
      CopyFunctionsList(p, b, i, role, funcs, n - 1, os, romOf);
      CopyFunctionsSections(p, b, role, funcs, n - 1);
      var before := CopyFunctions(p, b, role, funcs, n - 1).value;
      CopyFunctionLists(p, before, i, role, funcs[n - 1], os + OriginsIn(funcs, i, n - 1), romOf);
      assert os + OriginsIn(funcs, i, n) == os + OriginsIn(funcs, i, n - 1) + [Origin(i, funcs[n - 1])];
    } else {
      assert os + OriginsIn(funcs, i, 0) == os;
    }
  }

  predicate Numbered(p: Program, b: Build, n: nat, romOf: nat -> Addr)
    requires n <= |p.sources|
  {
    AllCopies(p, b.mapped, Origins(p, n), b.out.functions) && Consecutive(Layout(b.layout, romOf), b.out.functions)
  }

  lemma CopyNumbers(p: Program, b: Build, i: nat, romOf: nat -> Addr)
    requires Readable(p) && i < |p.sources| && Opened(b) && Loaded(p.sources[i]) && i in b.mapped
             && b.mapped[i] == Current(b)
    requires Numbered(p, b, i, romOf) && Copy(p, b, p.sources[i]).Some?
    ensures Numbered(p, Copy(p, b, p.sources[i]).value, i + 1, romOf)
  {
    hide CopyFunctions, CopyRelocs, AllCopies, Consecutive;
    var s := p.sources[i];
    if s.role.Announces? {
      AnnounceKeeps(p, b, s.functions, |s.functions|);
      assert Origins(p, i + 1) == Origins(p, i);
    } else if s.role.StandsFor? {
      assert Origins(p, i + 1) == Origins(p, i);
    } else {
      CopyFunctionsSections(p, b, s.role, s.functions, |s.functions|);
      CopyFunctionsList(p, b, i, s.role, s.functions, |s.functions|, Origins(p, i), romOf);
      CopyRelocsPlaces(p, CopyFunctions(p, b, s.role, s.functions, |s.functions|).value, s, |s.relocs|);
    }
  }

  /** Mapping one more section does not disturb the others. */
  lemma MappedMore(p: Program, m: map<nat, nat>, i: nat, k: nat, os: seq<Origin>, functions: seq<Function>)
    requires AllCopies(p, m, os, functions) && i !in m
    ensures AllCopies(p, m[i := k], os, functions)
  {
  }

  lemma PlaceNumbers(p: Program, b: Build, i: nat, romOf: nat -> Addr)
    requires i < |p.sources| && Placed(p, b, i) && (b.layout == [] || Opened(b))
             && (b.layout == [] ==> b.delta != Delta(p.sources[i]))
    requires Numbered(p, b, i, romOf)
    ensures Numbered(p, Place(b, i, p.sources[i]), i, romOf)
    ensures i in Place(b, i, p.sources[i]).mapped
            && Place(b, i, p.sources[i]).mapped[i] == Current(Place(b, i, p.sources[i]))
  {
    hide AllCopies, Consecutive, Minus, Add, Delta;
    MappedMore(p, b.mapped, i, Place(b, i, p.sources[i]).mapped[i], Origins(p, i), b.out.functions);
    SectionOneMore(Layout(b.layout, romOf), b.out.functions);
  }

  lemma PlaceUnloadedNumbers(p: Program, b: Build, i: nat, romOf: nat -> Addr)
    requires i < |p.sources| && Placed(p, b, i) && !Loaded(p.sources[i]) && Numbered(p, b, i, romOf)
    ensures Numbered(p, PlaceUnloaded(b, i, p.sources[i]), i + 1, romOf)
  {
    hide AllCopies, Consecutive, Minus, Add, AlignUp16;
    if Opened(b) {
      MappedMore(p, b.mapped, i, Current(b), Origins(p, i), b.out.functions);
    }
    assert Origins(p, i + 1) == Origins(p, i);
  }

  lemma {:induction false} SourcesNumbered(p: Program, n: nat, romOf: nat -> Addr)
    requires Readable(p) && n <= |p.sources| && AddSources(p, n).Some?
    ensures Numbered(p, AddSources(p, n).value, n, romOf)
  {
    hide Readable, Delta, Place, PlaceUnloaded, Copy, Placed, Numbered;
    if n > 0 {
      SourcesNumbered(p, n - 1, romOf);
      SourcesPlaced(p, n - 1);
      var b, s := LastSource(p, n);
      if Loaded(s) {
        PlaceNumbers(p, b, n - 1, romOf);
        CopyNumbers(p, Place(b, n - 1, s), n - 1, romOf);
      } else {
        PlaceUnloadedNumbers(p, b, n - 1, romOf);
      }
    } else {
      NoneNumbered(p, romOf);
    }
  }

  lemma NoneNumbered(p: Program, romOf: nat -> Addr)
    ensures Numbered(p, Blank(p), 0, romOf)
  {
  }

  /** The functions of the mod are those of the copied sections, one section after the
      other, each where it was. */
  lemma FunctionsInOrder(p: Program, romOf: nat -> Addr)
    requires Readable(p) && BuildMod(p).Some?
    ensures var c := BuildMod(p).value;
            && AllCopies(p, c.mapped, Origins(p, |p.sources|), c.out.functions)
            && Consecutive(Layout(c.layout, romOf), c.out.functions)
  {
    hide AddSources, BuildMod, SamePlaces, AllCopies, Consecutive;
    var b, c := LastPass(p);
    SourcesNumbered(p, |p.sources|, romOf);
  }

  // ----- Relocations keep their targets -----

  /** A relocation within the mod: the word it applies to, and the address it refers to. */
  datatype Link = Link(address: Addr, kind: nat, target: Addr)

  function LinkIn(p: Program, r: ModReloc): Link
    requires r.section < |p.sources|
  {
    Link(r.address, r.kind, Add(p.sources[r.section].ram, r.offset))
  }

  /** Of the relocations of a linked section, those that stay within the mod. */
  function LinksIn(p: Program, relocs: seq<ModReloc>, n: nat): seq<Link>
    requires n <= |relocs|
  {
    if n == 0 then []
    else LinksIn(p, relocs, n - 1) + (if Internal(p, relocs[n - 1]) then [LinkIn(p, relocs[n - 1])] else [])
  }

  /** The links of all sections that became part of section `k`. */
  function LinksFrom(p: Program, mapped: map<nat, nat>, k: nat, n: nat): seq<Link>
    requires n <= |p.sources|
  {
    if n == 0 then []
    else
      var s := p.sources[n - 1];
      LinksFrom(p, mapped, k, n - 1)
      + (if Copied(s) && n - 1 in mapped && mapped[n - 1] == k then LinksIn(p, s.relocs, |s.relocs|) else [])
  }

  /** Relocations that were copied but not yet turned to the merged sections. */
  function LinksCopied(p: Program, relocs: seq<ModReloc>): seq<Link>
    requires RelocsKnown(p, relocs)
  {
    if relocs == [] then []
    else
      var r := relocs[|relocs| - 1];
      LinksCopied(p, relocs[..|relocs| - 1]) + (if r.reference then [] else [LinkIn(p, r)])
  }

  /** The links of a section of the mod. */
  function LinksOut(c: Context, relocs: seq<ModReloc>): seq<Link> {
    if relocs == [] then []
    else
      var r := relocs[|relocs| - 1];
      var base := if r.section < |c.sections| then c.sections[r.section].ram else 0;
      LinksOut(c, relocs[..|relocs| - 1]) + (if r.reference then [] else [Link(r.address, r.kind, Add(base, r.offset))])
  }

  lemma LinksCopiedMore(p: Program, relocs: seq<ModReloc>, r: ModReloc)
    requires RelocsKnown(p, relocs) && RelocKnown(p, r)
    ensures RelocsKnown(p, relocs + [r])
    ensures LinksCopied(p, relocs + [r]) == LinksCopied(p, relocs) + (if r.reference then [] else [LinkIn(p, r)])
  {
    hide LinkIn;
    assert (relocs + [r])[..|relocs|] == relocs;
  }

  /** The sections are as before, but for relocations added to the current one. */
  predicate Grown(b: Build, c: Build, more: seq<ModReloc>)
    requires Opened(b)
  {
    && SamePlaces(b, c) && c.layout == b.layout && c.out.functions == b.out.functions
    && (forall k :: 0 <= k < Current(b) ==> c.out.sections[k].relocs == b.out.sections[k].relocs)
    && c.out.sections[Current(b)].relocs == b.out.sections[Current(b)].relocs + more
  }

  /** What is added for a relocation: nothing, or one of the same kind. */
  predicate OneFor(p: Program, r: ModReloc, more: seq<ModReloc>) {
    && |more| <= 1
    && (forall m :: m in more ==>
          && RelocKnown(p, m) && m.kind == r.kind
          && (m.reference && !Special(m.section) ==>
                m.section == r.section && r.reference && (r.kind == R_26 || !Fixed(p, r.section))))
    && if Internal(p, r) then |more| == 1 && !more[0].reference && LinkIn(p, more[0]) == LinkIn(p, r)
       else forall m :: m in more ==> m.reference
  }

  lemma AppendGrows(b: Build, r: ModReloc)
    requires Opened(b)
    ensures Opened(AppendReloc(b, r)) && Grown(b, AppendReloc(b, r), [r])
  {
  }

  lemma SettleGrows(p: Program, b: Build, s: Source, r: ModReloc) returns (more: seq<ModReloc>)
    requires Opened(b) && r.reference && !Special(r.section) && Settle(p, b, s, r).Some?
    ensures Grown(b, Settle(p, b, s, r).value, more) && OneFor(p, r, more)
  {
    hide RefAddress, HighPart, WithImmediate, RomAddress;
    more := if r.kind == R_26 then [r] else [];
  }

  lemma ToSymbolGrows(p: Program, b: Build, s: Source, r: ModReloc) returns (more: seq<ModReloc>)
    requires Opened(b) && r.section < |p.sources| && !Internal(p, r) && ToSymbol(p, b, s, r).Some?
    ensures Grown(b, ToSymbol(p, b, s, r).value, more) && OneFor(p, r, more)
  {
    hide FunctionAt, IndexOf, Add, Minus, KnownDependency, With, Internal;
    var after := ToSymbol(p, b, s, r).value.out.sections[Current(b)].relocs;
    more := after[|after| - 1..];
  }

  lemma CopyRelocGrows(p: Program, b: Build, s: Source, r: ModReloc) returns (more: seq<ModReloc>)
    requires Opened(b) && RelocKnown(p, r) && |p.sources| <= SECTION_EVENT && CopyReloc(p, b, s, r).Some?
    ensures Grown(b, CopyReloc(p, b, s, r).value, more) && OneFor(p, r, more)
  {
    hide Settle, ToSymbol, AppendReloc, Grown, Delta;
    if r.kind == R_NONE {
      more := [];
      NoneGrows(b);
    } else if Special(r.section) {
      more := [r];
      AppendGrows(b, r);
    } else if r.reference && Fixed(p, r.section) {
      more := SettleGrows(p, b, s, r);
    } else if r.reference {
      more := [r];
      AppendGrows(b, r);
    } else if !Internal(p, r) {
      more := ToSymbolGrows(p, b, s, r);
    } else {
      more := [r.(symbol := 0)];
      AppendGrows(b, r.(symbol := 0));
    }
  }

  lemma NoneGrows(b: Build)
    requires Opened(b)
    ensures Grown(b, b, [])
  {
  }

  predicate Linked(p: Program, b: Build, n: nat)
    requires n <= |p.sources|
  {
    forall k :: 0 <= k < |b.out.sections| ==>
      RelocsKnown(p, b.out.sections[k].relocs)
        && LinksCopied(p, b.out.sections[k].relocs) == LinksFrom(p, b.mapped, k, n)
  }

  lemma {:induction false} CopyRelocsLink(p: Program, b: Build, s: Source, n: nat)
    requires Opened(b) && RelocsKnown(p, s.relocs) && n <= |s.relocs| && |p.sources| <= SECTION_EVENT
             && CopyRelocs(p, b, s, n).Some?
    requires SectionsKnown(p, b.out.sections)
    ensures var c := CopyRelocs(p, b, s, n).value;
            && SamePlaces(b, c) && SectionsKnown(p, c.out.sections)
            && (forall k :: 0 <= k < Current(b) ==> c.out.sections[k].relocs == b.out.sections[k].relocs)
            && LinksCopied(p, c.out.sections[Current(b)].relocs)
               == LinksCopied(p, b.out.sections[Current(b)].relocs) + LinksIn(p, s.relocs, n)
  {
    hide CopyReloc, LinksCopied, LinkIn, Internal, RelocKnown;
    if n > 0 {
      CopyRelocsLink(p, b, s, n - 1);
      var before := CopyRelocs(p, b, s, n - 1).value;
      CopyRelocKnown(p, before, s, s.relocs[n - 1]);
      var more := CopyRelocGrows(p, before, s, s.relocs[n - 1]);
      var relocs := before.out.sections[Current(b)].relocs;
      if |more| == 1 {
        assert more == [more[0]] && more[0] in more;
        LinksCopiedMore(p, relocs, more[0]);
      } else {
        assert relocs + more == relocs;
      }
    }
  }

  /** The links depend only on where the loaded sections went. */
  lemma {:induction false} LinksFromSame(p: Program, m: map<nat, nat>, m': map<nat, nat>, k: nat, n: nat)
    requires n <= |p.sources|
    requires forall j :: 0 <= j < n && Loaded(p.sources[j]) ==> (j in m <==> j in m') && (j in m ==> m[j] == m'[j])
    ensures LinksFrom(p, m, k, n) == LinksFrom(p, m', k, n)
  {
    if n > 0 {
      LinksFromSame(p, m, m', k, n - 1);
    }
  }

  lemma {:induction false} NoLinks(p: Program, m: map<nat, nat>, k: nat, n: nat)
    requires n <= |p.sources| && forall j :: j in m ==> m[j] != k
    ensures LinksFrom(p, m, k, n) == []
  {
    if n > 0 {
      NoLinks(p, m, k, n - 1);
    }
  }

  lemma PlaceLinks(p: Program, b: Build, i: nat)
    requires i < |p.sources| && Placed(p, b, i) && (b.layout == [] || Opened(b))
             && (b.layout == [] ==> b.delta != Delta(p.sources[i]))
    requires Linked(p, b, i)
    ensures Linked(p, Place(b, i, p.sources[i]), i)
  {
    hide LinksFrom, RelocsKnown, Add, Minus, Delta;
    var c := Place(b, i, p.sources[i]);
    forall k | 0 <= k < |c.out.sections|
      ensures RelocsKnown(p, c.out.sections[k].relocs)
              && LinksCopied(p, c.out.sections[k].relocs) == LinksFrom(p, c.mapped, k, i)
    {
      LinksFromSame(p, b.mapped, c.mapped, k, i);
      if |c.layout| > |b.layout| && k == |b.layout| {
        NoLinks(p, b.mapped, k, i);
        NoneKnown(p);
      }
    }
  }

  lemma NoneKnown(p: Program)
    ensures RelocsKnown(p, [])
  {
  }

  lemma PlaceUnloadedLinks(p: Program, b: Build, i: nat)
    requires i < |p.sources| && Placed(p, b, i) && !Loaded(p.sources[i]) && Linked(p, b, i)
    ensures Linked(p, PlaceUnloaded(b, i, p.sources[i]), i + 1)
  {
    hide LinksCopied, RelocsKnown, Add, Minus, AlignUp16;
    var c := PlaceUnloaded(b, i, p.sources[i]);
    forall k | 0 <= k < |c.out.sections|
      ensures RelocsKnown(p, c.out.sections[k].relocs)
              && LinksCopied(p, c.out.sections[k].relocs) == LinksFrom(p, c.mapped, k, i + 1)
    {
      LinksFromSame(p, b.mapped, c.mapped, k, i);
    }
  }

  lemma LinkedKnown(p: Program, b: Build, n: nat)
    requires n <= |p.sources| && Linked(p, b, n)
    ensures SectionsKnown(p, b.out.sections)
  {
    hide LinksCopied, LinksFrom, RelocsKnown;
  }

  lemma CopyLinks(p: Program, b: Build, i: nat)
    requires Readable(p) && i < |p.sources| && Opened(b) && Loaded(p.sources[i]) && i in b.mapped
             && b.mapped[i] == Current(b)
    requires Linked(p, b, i) && Copy(p, b, p.sources[i]).Some?
    ensures Linked(p, Copy(p, b, p.sources[i]).value, i + 1)
  {
    hide CopyFunctions, CopyRelocs, LinksCopied, LinksIn, RelocsKnown;
    var s, c := p.sources[i], Copy(p, b, p.sources[i]).value;
    LinkedKnown(p, b, i);
    if s.role.Announces? {
      AnnounceKeeps(p, b, s.functions, |s.functions|);
    } else if !s.role.StandsFor? {
      var copied := CopyFunctions(p, b, s.role, s.functions, |s.functions|).value;
      CopyFunctionsSections(p, b, s.role, s.functions, |s.functions|);
      CopyRelocsLink(p, copied, s, |s.relocs|);
    }
    forall k | 0 <= k < |c.out.sections|
      ensures RelocsKnown(p, c.out.sections[k].relocs)
              && LinksCopied(p, c.out.sections[k].relocs) == LinksFrom(p, c.mapped, k, i + 1)
    {
    }
  }

  lemma {:induction false} SourcesLinked(p: Program, n: nat)
    requires Readable(p) && n <= |p.sources| && AddSources(p, n).Some?
    ensures Linked(p, AddSources(p, n).value, n)
  {
    hide Readable, Delta, Place, PlaceUnloaded, Copy, Placed, Linked;
    if n > 0 {
      SourcesLinked(p, n - 1);
      SourcesPlaced(p, n - 1);
      var b, s := LastSource(p, n);
      if Loaded(s) {
        PlaceLinks(p, b, n - 1);
        PlaceMaps(p, b, n - 1);
        CopyLinks(p, Place(b, n - 1, s), n - 1);
      } else {
        PlaceUnloadedLinks(p, b, n - 1);
      }
    } else {
      NoneLinked(p);
    }
  }

  lemma PlaceMaps(p: Program, b: Build, i: nat)
    requires i < |p.sources| && (b.layout == [] || Opened(b)) && (b.layout == [] ==> b.delta != Delta(p.sources[i]))
    ensures var c := Place(b, i, p.sources[i]);
            i in c.mapped && c.mapped[i] == Current(c)
  {
    hide Add, Minus, Delta;
  }

  lemma NoneLinked(p: Program)
    ensures Linked(p, Blank(p), 0)
  {
  }

  lemma {:induction false} RetargetAllLinks(p: Program, b: Build, c: Context, relocs: seq<ModReloc>)
    requires RelocsKnown(p, relocs) && RetargetAll(p, b, relocs).Some?
    requires |c.sections| == |b.out.sections| && forall k :: 0 <= k < |c.sections| ==>
                                                     c.sections[k].ram == b.out.sections[k].ram
    ensures LinksOut(c, RetargetAll(p, b, relocs).value) == LinksCopied(p, relocs)
    ensures |RetargetAll(p, b, relocs).value| == |relocs|
  {
    hide Add, Minus, Retarget;
    if relocs != [] {
      var n := |relocs| - 1;
      RetargetAllLinks(p, b, c, relocs[..n]);
      RetargetLink(p, b, c, relocs[n]);
      var done, last := RetargetAll(p, b, relocs[..n]).value, Retarget(p, b, relocs[n]).value;
      assert RetargetAll(p, b, relocs).value == done + [last];
      assert (done + [last])[..|done|] == done;
    }
  }

  lemma RetargetLink(p: Program, b: Build, c: Context, r: ModReloc)
    requires RelocKnown(p, r) && Retarget(p, b, r).Some?
    requires |c.sections| == |b.out.sections| && forall k :: 0 <= k < |c.sections| ==>
                                                     c.sections[k].ram == b.out.sections[k].ram
    ensures var o := Retarget(p, b, r).value;
            && o.reference == r.reference
            && (!r.reference ==> o.section < |c.sections|
                                 && Link(o.address, o.kind, Add(c.sections[o.section].ram, o.offset)) == LinkIn(p, r))
  {
    hide Add, Minus;
    if !r.reference {
      AddMinus(Add(r.offset, p.sources[r.section].ram), b.out.sections[b.mapped[r.section]].ram);
      AddSwap(r.offset, p.sources[r.section].ram);
    }
  }

  lemma AddSwap(x: Addr, y: Addr)
    ensures Add(x, y) == Add(y, x)
  {
  }

  /** In each section of the mod stand the relocations of the sections that became part of
      it, in order, and each refers to the address it referred to. */
  lemma TargetsKept(p: Program)
    requires Readable(p) && BuildMod(p).Some?
    ensures var c := BuildMod(p).value;
            forall k :: 0 <= k < |c.out.sections| ==>
              LinksOut(c.out, c.out.sections[k].relocs) == LinksFrom(p, c.mapped, k, |p.sources|)
  {
    hide AddSources, BuildMod, RetargetAll, LinksCopied, LinksOut, LinksFrom;
    var b, c := LastPass(p);
    SourcesLinked(p, |p.sources|);
    forall k | 0 <= k < |c.out.sections| ensures LinksOut(c.out, c.out.sections[k].relocs)
      == LinksFrom(p, c.mapped, k, |p.sources|) {
      RetargetAllLinks(p, b, c.out, b.out.sections[k].relocs);
    }
  }

  /** A relocation against a fixed place that gets half of its address. */
  predicate GetsHalf(p: Program, r: ModReloc) {
    r.reference && !Special(r.section) && Fixed(p, r.section) && (r.kind == R_HI16 || r.kind == R_LO16)
  }

  function HalfFor(p: Program, r: ModReloc): Halves.Half {
    if r.kind == R_HI16 then HighPart(RefAddress(p, r)) else Halves.Low16(RefAddress(p, r))
  }

  /** A relocation changes no word of the file but its own. */
  lemma CopyRelocWords(p: Program, b: Build, s: Source, r: ModReloc)
    requires Opened(b) && RelocKnown(p, r) && CopyReloc(p, b, s, r).Some?
    ensures forall a: Addr :: a != RomAddress(s, r) ==>
              ElfRelocs.WordOf(CopyReloc(p, b, s, r).value.rom, a) == ElfRelocs.WordOf(b.rom, a)
    ensures GetsHalf(p, r) ==>
              ElfRelocs.WordOf(CopyReloc(p, b, s, r).value.rom, RomAddress(s, r))
              == WithImmediate(ElfRelocs.WordOf(b.rom, RomAddress(s, r)), HalfFor(p, r))
  {
    hide FunctionAt, IndexOf, Add, Minus, HighPart, WithImmediate, KnownDependency, RomAddress, RefAddress, Delta, With;
  }

  /** `r` is the only relocation of the section at its word. */
  predicate Alone(s: Source, i: nat)
    requires i < |s.relocs|
  {
    forall k :: 0 <= k < |s.relocs| && k != i ==> RomAddress(s, s.relocs[k]) != RomAddress(s, s.relocs[i])
  }

  /** Through the pass over all relocations of a section, the word of one that gets half
      of an address has that half from then on. */
  lemma {:induction false} HalfIsWritten(p: Program, b: Build, s: Source, i: nat, n: nat)
    requires Opened(b) && RelocsKnown(p, s.relocs) && i < |s.relocs| && n <= |s.relocs| && CopyRelocs(p, b, s, n).Some?
    requires Alone(s, i) && GetsHalf(p, s.relocs[i])
    ensures var at := RomAddress(s, s.relocs[i]);
            ElfRelocs.WordOf(CopyRelocs(p, b, s, n).value.rom, at)
            == if i < n then WithImmediate(ElfRelocs.WordOf(b.rom, at), HalfFor(p, s.relocs[i]))
               else ElfRelocs.WordOf(b.rom, at)
  {
    hide CopyReloc, RomAddress, WithImmediate, HalfFor, GetsHalf;
    if n > 0 {
      HalfIsWritten(p, b, s, i, n - 1);
      CopyRelocWords(p, CopyRelocs(p, b, s, n - 1).value, s, s.relocs[n - 1]);
    }
  }

  /** Once a section's relocations are copied, the two immediates that replaced a pair
      against a fixed place rebuild its address, and the rest of each instruction stays. */
  lemma SettledPair(p: Program, b: Build, s: Source, i: nat, j: nat)
    requires Opened(b) && RelocsKnown(p, s.relocs) && CopyRelocs(p, b, s, |s.relocs|).Some?
    requires i < |s.relocs| && j < |s.relocs| && i != j && Alone(s, i) && Alone(s, j)
    requires s.relocs[i].kind == R_HI16 && s.relocs[j].kind == R_LO16
    requires GetsHalf(p, s.relocs[i]) && GetsHalf(p, s.relocs[j])
    requires RefAddress(p, s.relocs[i]) == RefAddress(p, s.relocs[j])
    ensures var rom := CopyRelocs(p, b, s, |s.relocs|).value.rom;
            var hi, lo := RomAddress(s, s.relocs[i]), RomAddress(s, s.relocs[j]);
            var high, low := ElfRelocs.WordOf(rom, hi), ElfRelocs.WordOf(rom, lo);
            && Halves.Joined(high % 0x1_0000, low % 0x1_0000) == RefAddress(p, s.relocs[i])
            && high / 0x1_0000 == ElfRelocs.WordOf(b.rom, hi) / 0x1_0000
            && low / 0x1_0000 == ElfRelocs.WordOf(b.rom, lo) / 0x1_0000
  {
    hide RefAddress, RomAddress, HighPart, WithImmediate, Alone, CopyRelocs;
    var value := RefAddress(p, s.relocs[i]);
    HalfIsWritten(p, b, s, i, |s.relocs|);
    HalfIsWritten(p, b, s, j, |s.relocs|);
    WithImmediateIs(ElfRelocs.WordOf(b.rom, RomAddress(s, s.relocs[i])), HighPart(value));
    WithImmediateIs(ElfRelocs.WordOf(b.rom, RomAddress(s, s.relocs[j])), Halves.Low16(value));
    PartsJoin(value);
  }

  lemma WithImmediateIs(word: Addr, immediate: Halves.Half)
    ensures WithImmediate(word, immediate) % 0x1_0000 == immediate
            && WithImmediate(word, immediate) / 0x1_0000 == word / 0x1_0000
  {
  }

  lemma PartsJoin(value: Addr)
    ensures Halves.Joined(HighPart(value), Halves.Low16(value)) == value
  {
    var q, r := value / 0x1_0000, Halves.Low16(value);
    assert value == 0x1_0000 * q + r;
    if r >= 0x8000 && q < 0xFFFF {
      assert Minus(value, Halves.Extended(r)) == 0x1_0000 * (q + 1);
    } else if r < 0x8000 {
      assert Minus(value, Halves.Extended(r)) == 0x1_0000 * q;
    } else {
      assert Minus(value, Halves.Extended(r)) == 0;
    }
  }
}
