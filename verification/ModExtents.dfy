/** What a merged section of a mod covers: which sections are merged, from where to where
    the merged one reaches, and exactly when it holds all of its parts. */
module ModExtents {
  import opened Machine
  import opened ModSymbols
  import opened ModContext
  import opened ModContextFacts

  // ----- Runs of sections -----

  /** The loaded sections from `i` to `j` all have one distance. */
  predicate Together(p: Program, i: nat, j: nat)
    requires i <= j < |p.sources|
  {
    && Loaded(p.sources[i]) && Loaded(p.sources[j])
    && forall m :: i <= m <= j && Loaded(p.sources[m]) ==> Delta(p.sources[m]) == Delta(p.sources[i])
  }

  /** `f` is the first of its run. */
  predicate IsFirst(p: Program, f: nat)
    requires f < |p.sources|
  {
    Loaded(p.sources[f]) && forall i :: 0 <= i < f ==> !Together(p, i, f)
  }

  /** `l` is the last of its run among the first `n` sections. */
  predicate IsLast(p: Program, l: nat, n: nat)
    requires l < n <= |p.sources|
  {
    Loaded(p.sources[l]) && forall j :: l < j < n ==> !Together(p, l, j)
  }

  lemma TogetherJoins(p: Program, i: nat, j: nat, k: nat)
    requires i <= j <= k < |p.sources| && Together(p, i, j)
    ensures Together(p, i, k) <==> Together(p, j, k)
  {
    hide Delta, Loaded;
    if Together(p, j, k) {
      assert Delta(p.sources[j]) == Delta(p.sources[i]);
    }
  }

  // ----- What the build knows of them -----

  /** Two loaded sections are merged exactly when they are of one run. */
  predicate MergesRuns(p: Program, mapped: map<nat, nat>, n: nat)
    requires n <= |p.sources|
  {
    && (forall i :: 0 <= i < n && Loaded(p.sources[i]) ==> i in mapped)
    && forall i, j :: 0 <= i <= j < n && Loaded(p.sources[i]) && Loaded(p.sources[j]) ==>
         (mapped[i] == mapped[j] <==> Together(p, i, j))
  }

  /** The merged section begins with the first section of the run, and its size is the
      distance from there to the end of the last. */
  predicate Covers(o: Section, first: Source, last: Source) {
    o.rom == first.rom && o.size == Minus(Add(last.rom, last.size), first.rom)
  }

  predicate CoversRuns(p: Program, b: Build, n: nat)
    requires n <= |p.sources|
  {
    forall f, l :: 0 <= f <= l < n && Together(p, f, l) && IsFirst(p, f) && IsLast(p, l, n) ==>
      f in b.mapped && b.mapped[f] < |b.out.sections|
        && Covers(b.out.sections[b.mapped[f]], p.sources[f], p.sources[l])
  }

  predicate Unloaded(p: Program, from: nat, to: nat)
    requires to <= |p.sources|
  {
    forall m :: from <= m < to ==> !Loaded(p.sources[m])
  }

  /** The section that is open is that of the section loaded last. */
  predicate IsCurrent(p: Program, b: Build, n: nat)
    requires n <= |p.sources|
  {
    && (b.layout == [] ==> Unloaded(p, 0, n))
    && forall j :: 0 <= j < n && Loaded(p.sources[j]) && Unloaded(p, j + 1, n) ==>
         Opened(b) && j in b.mapped && b.mapped[j] == Current(b) && b.delta == Delta(p.sources[j])
  }

  predicate Extents(p: Program, b: Build, n: nat)
    requires n <= |p.sources|
  {
    && MergesRuns(p, b.mapped, n) && CoversRuns(p, b, n) && IsCurrent(p, b, n)
    && forall j :: j in b.mapped ==> j < n && b.mapped[j] < |b.layout|
  }

  lemma {:induction false} LastLoaded(p: Program, n: nat) returns (j: nat)
    requires n <= |p.sources| && !Unloaded(p, 0, n)
    ensures j < n && Loaded(p.sources[j]) && Unloaded(p, j + 1, n)
  {
    if Loaded(p.sources[n - 1]) {
      j := n - 1;
    } else {
      j := LastLoaded(p, n - 1);
    }
  }

  // ----- Every step keeps it -----

  lemma NoneExtents(p: Program)
    ensures Extents(p, Blank(p), 0)
  {
  }

  /** A section in memory only, or none at all, ends no run. */
  lemma LastStays(p: Program, n: nat)
    requires n < |p.sources| && !Loaded(p.sources[n])
    ensures forall l :: 0 <= l < n ==> (IsLast(p, l, n) <==> IsLast(p, l, n + 1))
  {
    forall l | 0 <= l < n ensures IsLast(p, l, n) <==> IsLast(p, l, n + 1) {
      assert !Together(p, l, n);
    }
  }

  /** Where the first `n` sections are mapped stays. */
  predicate Extends(m: map<nat, nat>, m': map<nat, nat>, n: nat) {
    forall j :: 0 <= j < n && j in m ==> j in m' && m'[j] == m[j]
  }

  lemma MergesStay(p: Program, m: map<nat, nat>, m': map<nat, nat>, n: nat)
    requires n < |p.sources| && !Loaded(p.sources[n]) && MergesRuns(p, m, n) && Extends(m, m', n)
    ensures MergesRuns(p, m', n + 1)
  {
    hide Together;
  }

  lemma CoversStay(p: Program, b: Build, c: Build, n: nat)
    requires n < |p.sources| && !Loaded(p.sources[n]) && CoversRuns(p, b, n) && Extends(b.mapped, c.mapped, n)
    requires |c.out.sections| == |b.out.sections|
    requires forall k :: 0 <= k < |b.out.sections| ==>
               c.out.sections[k].rom == b.out.sections[k].rom && c.out.sections[k].size == b.out.sections[k].size
    ensures CoversRuns(p, c, n + 1)
  {
    hide Together, IsFirst, IsLast, Add, Minus;
    LastStays(p, n);
    forall f, l | 0 <= f <= l < n + 1 && Together(p, f, l) && IsFirst(p, f) && IsLast(p, l, n + 1)
      ensures f in c.mapped && c.mapped[f] < |c.out.sections|
              && Covers(c.out.sections[c.mapped[f]], p.sources[f], p.sources[l])
    {
      TogetherLoaded(p, f, l);
    }
  }

  lemma CurrentStays(p: Program, b: Build, c: Build, n: nat)
    requires n < |p.sources| && !Loaded(p.sources[n]) && IsCurrent(p, b, n) && Extends(b.mapped, c.mapped, n)
    requires c.layout == b.layout && c.delta == b.delta && |c.out.sections| == |b.out.sections|
    ensures IsCurrent(p, c, n + 1)
  {
    hide Delta, Loaded;
    forall j | 0 <= j < n + 1 && Loaded(p.sources[j]) && Unloaded(p, j + 1, n + 1)
      ensures Opened(c) && j in c.mapped && c.mapped[j] == Current(c) && c.delta == Delta(p.sources[j])
    {
      assert Unloaded(p, j + 1, n);
    }
  }

  lemma UnloadedKeeps(p: Program, b: Build, n: nat)
    requires n < |p.sources| && !Loaded(p.sources[n]) && Extents(p, b, n)
    ensures Extents(p, PlaceUnloaded(b, n, p.sources[n]), n + 1)
  {
    hide Add, Minus, AlignUp16, Delta, MergesRuns, CoversRuns, IsCurrent;
    var c := PlaceUnloaded(b, n, p.sources[n]);
    MergesStay(p, b.mapped, c.mapped, n);
    CoversStay(p, b, c, n);
    CurrentStays(p, b, c, n);
  }

  lemma TogetherLoaded(p: Program, i: nat, j: nat)
    requires i <= j < |p.sources| && Together(p, i, j)
    ensures Loaded(p.sources[i]) && Loaded(p.sources[j]) && Together(p, i, i) && Together(p, j, j)
  {
  }

  /** The next loaded section is of the run of the last one if the distances agree. */
  lemma JoinsLast(p: Program, j: nat, n: nat)
    requires j < n < |p.sources| && Loaded(p.sources[j]) && Loaded(p.sources[n]) && Unloaded(p, j + 1, n)
    ensures Together(p, j, n) <==> Delta(p.sources[j]) == Delta(p.sources[n])
  {
    hide Delta, Loaded;
  }

  /** A new run begins: its section is that of no other. */
  lemma MergesBegin(p: Program, m: map<nat, nat>, m': map<nat, nat>, n: nat, k: nat)
    requires n < |p.sources| && Loaded(p.sources[n]) && MergesRuns(p, m, n) && Extends(m, m', n)
    requires n in m' && m'[n] == k && (forall j :: j in m ==> m[j] != k)
    requires forall i :: 0 <= i < n && Loaded(p.sources[i]) ==> !Together(p, i, n)
    ensures MergesRuns(p, m', n + 1)
  {
    hide Together;
    AloneTogether(p, n);
  }

  lemma AloneTogether(p: Program, n: nat)
    requires n < |p.sources| && Loaded(p.sources[n])
    ensures Together(p, n, n)
  {
  }

  /** A run goes on: the next section shares the section of the last one. */
  lemma MergesOn(p: Program, m: map<nat, nat>, m': map<nat, nat>, n: nat, j: nat)
    requires j < n < |p.sources| && MergesRuns(p, m, n) && Extends(m, m', n)
    requires Together(p, j, n) && Unloaded(p, j + 1, n) && j in m && n in m' && m'[n] == m[j]
    ensures MergesRuns(p, m', n + 1)
  {
    hide Together;
    TogetherLoaded(p, j, n);
    forall i | 0 <= i < n && Loaded(p.sources[i])
      ensures m'[i] == m'[n] <==> Together(p, i, n)
    {
      RunGoesOn(p, i, j, n);
    }
  }

  /** A section is of the run of `n` exactly when it is of the run of the last one before. */
  lemma RunGoesOn(p: Program, i: nat, j: nat, n: nat)
    requires i < n < |p.sources| && j < n && Loaded(p.sources[i]) && Together(p, j, n) && Unloaded(p, j + 1, n)
    ensures i <= j && (Together(p, i, j) <==> Together(p, i, n))
  {
    hide Delta, Loaded;
    if Together(p, i, j) {
      TogetherJoins(p, i, j, n);
    }
  }

  /** Sections other than `k` cover what they did. */
  predicate SameExtents(before: seq<Section>, after: seq<Section>, k: nat) {
    forall i :: 0 <= i < |before| && i != k ==>
      i < |after| && after[i].rom == before[i].rom && after[i].size == before[i].size
  }

  lemma MinusAdd(x: Addr, y: Addr)
    ensures Minus(Add(x, y), x) == y
  {
  }

  lemma LastBefore(p: Program, l: nat, n: nat)
    requires l < n < |p.sources| && IsLast(p, l, n + 1)
    ensures IsLast(p, l, n)
  {
  }

  lemma CoversBegin(p: Program, b: Build, c: Build, n: nat, k: nat)
    requires n < |p.sources| && Loaded(p.sources[n]) && CoversRuns(p, b, n) && Extends(b.mapped, c.mapped, n)
    requires SameExtents(b.out.sections, c.out.sections, k)
    requires n in c.mapped && c.mapped[n] == k < |c.out.sections| && (forall j :: j in b.mapped ==> b.mapped[j] != k)
    requires c.out.sections[k].rom == p.sources[n].rom && c.out.sections[k].size == p.sources[n].size
    requires forall i :: 0 <= i < n && Loaded(p.sources[i]) ==> !Together(p, i, n)
    ensures CoversRuns(p, c, n + 1)
  {
    hide Together, IsFirst, IsLast, Add, Minus;
    forall f, l | 0 <= f <= l < n + 1 && Together(p, f, l) && IsFirst(p, f) && IsLast(p, l, n + 1)
      ensures f in c.mapped && c.mapped[f] < |c.out.sections|
              && Covers(c.out.sections[c.mapped[f]], p.sources[f], p.sources[l])
    {
      TogetherLoaded(p, f, l);
      if l < n {
        LastBefore(p, l, n);
      } else {
        MinusAdd(p.sources[n].rom, p.sources[n].size);
      }
    }
  }

  lemma LastOfPrefix(p: Program, j: nat, n: nat)
    requires j < n <= |p.sources| && Loaded(p.sources[j]) && Unloaded(p, j + 1, n)
    ensures IsLast(p, j, n)
  {
  }

  lemma FirstHasNone(p: Program, j: nat, n: nat)
    requires j < n < |p.sources| && Together(p, j, n)
    ensures !IsFirst(p, n)
  {
  }

  lemma LastHasNone(p: Program, l: nat, n: nat)
    requires l < n < |p.sources| && IsLast(p, l, n + 1)
    ensures !Together(p, l, n)
  {
  }

  lemma CoversOn(p: Program, b: Build, c: Build, n: nat, j: nat)
    requires j < n < |p.sources| && CoversRuns(p, b, n) && MergesRuns(p, b.mapped, n) && Extends(b.mapped, c.mapped, n)
    requires Together(p, j, n) && Unloaded(p, j + 1, n) && j in b.mapped
    requires SameExtents(b.out.sections, c.out.sections, b.mapped[j])
    requires var k := b.mapped[j];
             k < |b.out.sections| == |c.out.sections| && c.out.sections[k].rom == b.out.sections[k].rom
             && c.out.sections[k].size == Minus(Add(p.sources[n].rom, p.sources[n].size), b.out.sections[k].rom)
    ensures CoversRuns(p, c, n + 1)
  {
    hide Together, IsFirst, IsLast, Add, Minus;
    TogetherLoaded(p, j, n);
    FirstHasNone(p, j, n);
    LastOfPrefix(p, j, n);
    forall f, l | 0 <= f <= l < n + 1 && Together(p, f, l) && IsFirst(p, f) && IsLast(p, l, n + 1)
      ensures f in c.mapped && c.mapped[f] < |c.out.sections|
              && Covers(c.out.sections[c.mapped[f]], p.sources[f], p.sources[l])
    {
      TogetherLoaded(p, f, l);
      if l < n {
        LastBefore(p, l, n);
        LastHasNone(p, l, n);
        RunGoesOn(p, l, j, n);
        assert b.mapped[f] == b.mapped[l];
      } else {
        RunGoesOn(p, f, j, n);
      }
    }
  }

  lemma CurrentNow(p: Program, c: Build, n: nat)
    requires n < |p.sources| && Loaded(p.sources[n]) && Opened(c) && c.delta == Delta(p.sources[n])
    requires n in c.mapped && c.mapped[n] == Current(c)
    ensures IsCurrent(p, c, n + 1)
  {
    hide Delta, Loaded;
  }

  /** No earlier section is of the run of `n`, if the last one is not. */
  lemma NoRunGoesOn(p: Program, i: nat, j: nat, n: nat)
    requires i < n < |p.sources| && j < n && Loaded(p.sources[i]) && Loaded(p.sources[j]) && Unloaded(p, j + 1, n)
    requires Loaded(p.sources[n]) && Delta(p.sources[j]) != Delta(p.sources[n])
    ensures !Together(p, i, n)
  {
    hide Delta, Loaded;
    assert i <= j;
  }

  lemma PlaceBegins(p: Program, b: Build, n: nat)
    requires n < |p.sources| && Loaded(p.sources[n]) && Extents(p, b, n)
    requires if b.layout == [] then |b.out.sections| == 1 else Opened(b)
    requires b.delta != Delta(p.sources[n])
    ensures Extents(p, Place(b, n, p.sources[n]), n + 1)
  {
    hide Add, Minus, Delta, Together, MergesRuns, CoversRuns, Loaded;
    var c := Place(b, n, p.sources[n]);
    if !Unloaded(p, 0, n) {
      var j := LastLoaded(p, n);
      forall i | 0 <= i < n && Loaded(p.sources[i]) ensures !Together(p, i, n) {
        NoRunGoesOn(p, i, j, n);
      }
    }
    MergesBegin(p, b.mapped, c.mapped, n, |b.layout|);
    CoversBegin(p, b, c, n, |b.layout|);
    CurrentNow(p, c, n);
  }

  lemma PlaceGoesOn(p: Program, b: Build, n: nat)
    requires n < |p.sources| && Loaded(p.sources[n]) && Extents(p, b, n) && Opened(b)
    requires b.delta == Delta(p.sources[n]) && !Unloaded(p, 0, n)
    ensures Extents(p, Place(b, n, p.sources[n]), n + 1)
  {
    hide Add, Minus, Delta, Together, MergesRuns, CoversRuns, Loaded;
    var c := Place(b, n, p.sources[n]);
    var j := LastLoaded(p, n);
    JoinsLast(p, j, n);
    MergesOn(p, b.mapped, c.mapped, n, j);
    CoversOn(p, b, c, n, j);
    CurrentNow(p, c, n);
  }

  /** Copying functions and relocations changes no extents. */
  lemma SameExtended(p: Program, b: Build, c: Build, n: nat)
    requires n <= |p.sources| && Extents(p, b, n) && SamePlaces(b, c)
    ensures Extents(p, c, n)
  {
    hide Delta, Loaded, Together, IsFirst, IsLast, Unloaded, Add, Minus;
  }

  lemma {:induction false} SourcesExtents(p: Program, n: nat)
    requires Readable(p) && n <= |p.sources| && AddSources(p, n).Some?
    ensures Extents(p, AddSources(p, n).value, n)
  {
    hide Readable, Delta, Place, PlaceUnloaded, Copy, SamePlaces, Extents;
    if n > 0 {
      var b, s := LastSource(p, n);
      SourcesExtents(p, n - 1);
      if Loaded(s) {
        PlaceKeepsExtents(p, b, n - 1);
        CopyPlaces(p, Place(b, n - 1, s), s);
        SameExtended(p, Place(b, n - 1, s), AddSources(p, n).value, n);
      } else {
        UnloadedKeeps(p, b, n - 1);
      }
    } else {
      NoneExtents(p);
    }
  }

  lemma PlaceKeepsExtents(p: Program, b: Build, n: nat)
    requires n < |p.sources| && Loaded(p.sources[n]) && Extents(p, b, n) && Begun(p, b, n)
    requires b.layout == [] ==> b.delta != Delta(p.sources[n])
    ensures (b.layout == [] || Opened(b)) && Extents(p, Place(b, n, p.sources[n]), n + 1)
  {
    hide Place, Delta, Extents;
    if b.delta == Delta(p.sources[n]) {
      PlaceGoesOn(p, b, n);
    } else {
      PlaceBegins(p, b, n);
    }
  }

  // ----- What a merged section holds -----

  lemma {:induction false} FirstOf(p: Program, j: nat) returns (f: nat)
    requires j < |p.sources| && Loaded(p.sources[j])
    ensures f <= j && Together(p, f, j) && IsFirst(p, f)
    decreases j
  {
    hide Together;
    AloneTogether(p, j);
    if IsFirst(p, j) {
      f := j;
    } else {
      var i :| 0 <= i < j && Together(p, i, j);
      TogetherLoaded(p, i, j);
      f := FirstOf(p, i);
      TogetherJoins(p, f, i, j);
    }
  }

  lemma {:induction false} LastOf(p: Program, j: nat) returns (l: nat)
    requires j < |p.sources| && Loaded(p.sources[j])
    ensures j <= l < |p.sources| && Together(p, j, l) && IsLast(p, l, |p.sources|)
    decreases |p.sources| - j
  {
    hide Together;
    AloneTogether(p, j);
    if IsLast(p, j, |p.sources|) {
      l := j;
    } else {
      var k :| j < k < |p.sources| && Together(p, j, k);
      TogetherLoaded(p, j, k);
      l := LastOf(p, k);
      TogetherJoins(p, j, k, l);
    }
  }

  /** The ROM addresses of a section do not wrap around. */
  predicate EndsInSpace(s: Source) {
    s.rom + s.size < WORD
  }

  /** In the file, `s` lies inside `o`. */
  predicate Inside(s: Source, o: Section) {
    o.rom <= s.rom && s.rom + s.size <= o.rom + o.size
  }

  /** Every loaded section lies inside the section that it became part of. */
  predicate PartsInside(p: Program, b: Build) {
    forall j :: 0 <= j < |p.sources| && Loaded(p.sources[j]) ==>
      j in b.mapped && b.mapped[j] < |b.out.sections| && Inside(p.sources[j], b.out.sections[b.mapped[j]])
  }

  /** `j` is of the run that begins with `f` and ends with `l`. */
  predicate IsRun(p: Program, f: nat, j: nat, l: nat)
    requires f <= j <= l < |p.sources|
  {
    Together(p, f, j) && Together(p, j, l) && IsFirst(p, f) && IsLast(p, l, |p.sources|)
  }

  /** In each run, no section begins before the first or ends behind the last. */
  predicate RunsSpan(p: Program) {
    forall f, j, l ::
      0 <= f <= j <= l < |p.sources| && IsRun(p, f, j, l) ==>
        p.sources[f].rom <= p.sources[j].rom
        && p.sources[j].rom + p.sources[j].size <= p.sources[l].rom + p.sources[l].size
  }

  /** Sections in the order of their places in the file. */
  predicate InRomOrder(p: Program) {
    forall i, j :: 0 <= i < j < |p.sources| && Loaded(p.sources[i]) && Loaded(p.sources[j]) ==>
      p.sources[i].rom + p.sources[i].size <= p.sources[j].rom
  }

  /** A section that ends before it begins holds not even its last part. */
  lemma InsideExactly(o: Section, first: Source, part: Source, last: Source)
    requires Covers(o, first, last) && EndsInSpace(first) && EndsInSpace(part) && EndsInSpace(last)
    ensures first.rom <= part.rom && part.rom + part.size <= last.rom + last.size ==> Inside(part, o)
    ensures Inside(part, o) && Inside(last, o) ==>
              first.rom <= part.rom && part.rom + part.size <= last.rom + last.size
  {
  }

  /** Exactly the runs of loaded sections with one distance are merged, and each merged
      section reaches from the beginning of the first to the end of the last. */
  lemma RunsAreMerged(p: Program)
    requires Readable(p) && BuildMod(p).Some?
    ensures MergesRuns(p, BuildMod(p).value.mapped, |p.sources|) && CoversRuns(p, BuildMod(p).value, |p.sources|)
  {
    hide AddSources, BuildMod, Extents, SamePlaces;
    var b, c := LastPass(p);
    SourcesExtents(p, |p.sources|);
    SameExtended(p, b, c, |p.sources|);
    ExtentsAre(p, c, |p.sources|);
  }

  lemma ExtentsAre(p: Program, b: Build, n: nat)
    requires n <= |p.sources| && Extents(p, b, n)
    ensures MergesRuns(p, b.mapped, n) && CoversRuns(p, b, n)
  {
  }

  /** The place of a run in the mod. */
  lemma RunIsCovered(p: Program, b: Build, f: nat, j: nat, l: nat)
    requires MergesRuns(p, b.mapped, |p.sources|) && CoversRuns(p, b, |p.sources|)
    requires f <= j <= l < |p.sources| && IsRun(p, f, j, l)
    ensures Loaded(p.sources[f]) && Loaded(p.sources[j]) && Loaded(p.sources[l])
    ensures f in b.mapped && j in b.mapped && l in b.mapped && b.mapped[f] == b.mapped[j] == b.mapped[l]
    ensures b.mapped[j] < |b.out.sections| && Covers(b.out.sections[b.mapped[j]], p.sources[f], p.sources[l])
  {
    hide Together, IsFirst, IsLast, Covers;
    TogetherLoaded(p, f, j);
    TogetherLoaded(p, j, l);
    TogetherJoins(p, f, j, l);
  }

  lemma PartIsInside(p: Program, b: Build, j: nat)
    requires MergesRuns(p, b.mapped, |p.sources|) && CoversRuns(p, b, |p.sources|) && RunsSpan(p)
    requires forall i :: 0 <= i < |p.sources| && Loaded(p.sources[i]) ==> EndsInSpace(p.sources[i])
    requires j < |p.sources| && Loaded(p.sources[j])
    ensures j in b.mapped && b.mapped[j] < |b.out.sections| && Inside(p.sources[j], b.out.sections[b.mapped[j]])
  {
    hide Together, IsFirst, IsLast, Covers, Inside, EndsInSpace, MergesRuns, CoversRuns;
    var f := FirstOf(p, j);
    var l := LastOf(p, j);
    RunIsCovered(p, b, f, j, l);
    InsideExactly(b.out.sections[b.mapped[j]], p.sources[f], p.sources[j], p.sources[l]);
  }

  lemma RunIsSpanned(p: Program, b: Build, f: nat, j: nat, l: nat)
    requires MergesRuns(p, b.mapped, |p.sources|) && CoversRuns(p, b, |p.sources|) && PartsInside(p, b)
    requires forall i :: 0 <= i < |p.sources| && Loaded(p.sources[i]) ==> EndsInSpace(p.sources[i])
    requires f <= j <= l < |p.sources| && IsRun(p, f, j, l)
    ensures p.sources[f].rom <= p.sources[j].rom
            && p.sources[j].rom + p.sources[j].size <= p.sources[l].rom + p.sources[l].size
  {
    hide IsRun, Covers, Inside, EndsInSpace, MergesRuns, CoversRuns;
    RunIsCovered(p, b, f, j, l);
    InsideExactly(b.out.sections[b.mapped[j]], p.sources[f], p.sources[j], p.sources[l]);
  }

  /** Every part lies inside its merged section exactly when in each run no section begins
      before the first or ends behind the last. */
  lemma PartsInsideExactly(p: Program)
    requires Readable(p) && BuildMod(p).Some?
    requires forall i :: 0 <= i < |p.sources| && Loaded(p.sources[i]) ==> EndsInSpace(p.sources[i])
    ensures PartsInside(p, BuildMod(p).value) <==> RunsSpan(p)
    ensures InRomOrder(p) ==> RunsSpan(p)
  {
    hide BuildMod, IsRun, Inside, EndsInSpace, MergesRuns, CoversRuns;
    RunsAreMerged(p);
    var b := BuildMod(p).value;
    if RunsSpan(p) {
      forall j | 0 <= j < |p.sources| && Loaded(p.sources[j])
        ensures j in b.mapped && b.mapped[j] < |b.out.sections| && Inside(p.sources[j], b.out.sections[b.mapped[j]])
      {
        PartIsInside(p, b, j);
      }
    }
    if PartsInside(p, b) {
      forall f, j, l | 0 <= f <= j <= l < |p.sources| && IsRun(p, f, j, l)
        ensures p.sources[f].rom <= p.sources[j].rom
                && p.sources[j].rom + p.sources[j].size <= p.sources[l].rom + p.sources[l].size
      {
        RunIsSpanned(p, b, f, j, l);
      }
    }
    if InRomOrder(p) {
      OrderedRunsSpan(p);
    }
  }

  lemma OrderedRunsSpan(p: Program)
    requires InRomOrder(p)
    ensures RunsSpan(p)
  {
    hide IsFirst, IsLast, Delta;
  }

  // ----- Sections out of order -----

  function Plain(rom: Addr): Source {
    Source(rom, Add(rom, 0x8000_0000), 0x10, Ordinary, [], [])
  }

  /** A section at 0x1000 of the file, and one at 0x800 with the same distance. */
  function Backwards(): Program {
    Program([Plain(0x1000), Plain(0x800)], [], map[], map[], [], [], [], map[], (n: nat) => 0, (n: nat) => true)
  }

  lemma BackwardsIsReadable()
    ensures Readable(Backwards()) && !InRomOrder(Backwards())
  {
    var p := Backwards();
    assert p.sources[0] == Plain(0x1000) && p.sources[1] == Plain(0x800);
  }

  lemma BackwardsPlaced()
    requires Readable(Backwards())
    ensures AddSources(Backwards(), 2).Some?
    ensures var b := AddSources(Backwards(), 2).value;
            && |b.out.sections| == 1 && b.out.sections[0].rom == 0x1000 && b.out.sections[0].size == 0xFFFF_F810
            && b.out.sections[0].relocs == [] && b.mapped == map[0 := 0, 1 := 0]
  {
    hide Readable;
    var p, s, t := Backwards(), Plain(0x1000), Plain(0x800);
    assert AddSources(p, 0) == Some(Blank(p)) && p.sources[0] == s && p.sources[1] == t;
    var one := Place(Blank(p), 0, s);
    CopiesNothing(p, one, s);
    assert AddSources(p, 1) == Some(one);
    CopiesNothing(p, Place(one, 1, t), t);
  }

  lemma CopiesNothing(p: Program, b: Build, s: Source)
    requires Opened(b) && s.role.Ordinary? && s.functions == [] && s.relocs == []
    ensures FunctionsKnown(p, s.functions) && RelocsKnown(p, s.relocs) && Copy(p, b, s) == Some(b)
  {
  }

  /** They are merged into a section of 0xFFFFF810 bytes, which does not hold the second. */
  lemma BackwardsMerges()
    ensures Readable(Backwards()) && BuildMod(Backwards()).Some? && !InRomOrder(Backwards())
    ensures var b := BuildMod(Backwards()).value;
            && |b.out.sections| == 1 && b.out.sections[0].rom == 0x1000 && b.out.sections[0].size == 0xFFFF_F810
            && !PartsInside(Backwards(), b)
  {
    hide AddSources, Readable;
    BackwardsIsReadable();
    BackwardsPlaced();
    var p := Backwards();
    var b := AddSources(p, 2).value;
    AddSourcesKnown(p, 2);
    assert RetargetAll(p, b, []) == Some([]);
    assert RetargetSections(p, b, 0) == Some([]);
    assert RetargetSections(p, b, 1).Some?;
    assert p.sources[1] == Plain(0x800) && !Inside(Plain(0x800), BuildMod(p).value.out.sections[0]);
  }

  // ----- A distance that stands for none -----

  /** The first loaded section is merged into a section that does not exist exactly when
      its distance is the one that stands for none. */
  lemma MergesIntoNothingExactly(p: Program, s: Source)
    requires Readable(p) && AddSources(p, |p.sources|).Some? && Loaded(s)
    ensures var b := AddSources(p, |p.sources|).value;
            b.layout == [] && b.delta == Delta(s) <==>
            Delta(s) == NOWHERE && forall i :: 0 <= i < |p.sources| ==> !Loaded(p.sources[i])
  {
    hide Readable, AddSources;
  }

  /** Such a section lies one byte before its place in the file. */
  lemma NowhereDistance()
    ensures var s := Source(0x1001, 0x1000, 0x10, Ordinary, [], []);
            Loaded(s) && Delta(s) == NOWHERE
  {
  }
}
