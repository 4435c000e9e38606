/** Repairing the ranges of the functions of a section: functions that end too early are
    extended, and functions that start too late are moved back. */
module RangeRepair {
  import opened Machine

  /** The section, with the words of the ROM that lie under it; a word past the end of
      the ROM cannot be read. */
  datatype Section = Section(ram: Addr, rom: Addr, size: Addr, romSize: nat, word: Addr -> Addr)

  datatype Function = Function(vram: Addr, rom: Addr, entry: Addr, words: seq<Addr>)

  predicate SectionFits(s: Section) {
    s.ram + s.size < WORD && s.rom + s.size < WORD
  }

  function Top(s: Section): nat {
    s.ram + s.size
  }

  function End(f: Function): nat {
    f.vram + 4 * |f.words|
  }

  /** `read_symbol_section_word`. */
  function ReadWord(s: Section, a: nat): Option<Addr> {
    if a < s.ram || a + 4 > Top(s) || a >= WORD || s.rom + (a - s.ram) + 4 > s.romSize then None else Some(s.word(a))
  }

  /** The ROM reaches to the end of the section. */
  predicate Covered(s: Section) {
    s.rom + s.size <= s.romSize
  }

  // ----- Instructions -----

  function Field(w: Addr, shift: nat, width: nat): nat
    requires shift > 0 && width > 0
  {
    (w / shift) % width
  }

  predicate HasDelaySlot(w: Addr) {
    var op, rs, rt, funct := Field(w, 0x400_0000, 64), Field(w, 0x20_0000, 32), Field(w, 0x1_0000, 32), w % 64;
    || op in {2, 3, 4, 5, 6, 7, 0x14, 0x15, 0x16, 0x17}
    || (op == 1 && rt in {0, 1, 2, 3, 16, 17, 18, 19})
    || (op == 0 && funct in {8, 9})
    || (op == 0x11 && rs == 8)
  }

  predicate IsJrRa(w: Addr) {
    w == 0x03E0_0008
  }

  predicate IsLwRaFromSp(w: Addr) {
    Field(w, 0x400_0000, 64) == 0x23 && Field(w, 0x20_0000, 32) == 29 && Field(w, 0x1_0000, 32) == 31
  }

  predicate IsAddiuSpPositive(w: Addr) {
    Field(w, 0x400_0000, 64) == 9 && Field(w, 0x20_0000, 32) == 29 && Field(w, 0x1_0000, 32) == 29
      && 0 < w % 0x1_0000 < 0x8000
  }

  // ----- What a table must keep -----

  /** The words of a function are those of the ROM under it. */
  predicate WordsMatch(s: Section, f: Function) {
    forall k :: 0 <= k < |f.words| ==> ReadWord(s, f.vram + 4 * k) == Some(f.words[k])
  }

  predicate Apart(f: Function, g: Function) {
    f.words == [] || g.words == [] || End(f) <= g.vram || End(g) <= f.vram
  }

  predicate MembersKnown(functions: seq<Function>, members: seq<nat>) {
    && (forall m :: m in members ==> m < |functions|)
    && (forall i :: 0 <= i < |members| ==> members[i] < |functions|)
    && (forall i, j :: 0 <= i < j < |members| ==> members[i] != members[j])
  }

  predicate Disjoint(functions: seq<Function>, members: seq<nat>)
    requires MembersKnown(functions, members)
  {
    forall a, b :: a in members && b in members && a != b ==> Apart(functions[a], functions[b])
  }

  predicate Placed(s: Section, functions: seq<Function>, members: seq<nat>)
    requires MembersKnown(functions, members)
  {
    forall m :: m in members ==>
        s.ram <= functions[m].vram && End(functions[m]) <= Top(s) && WordsMatch(s, functions[m])
  }

  // ----- Functions that end too early -----

  /** The nearest start of another function after `f`, or the end of the section. */
  ghost predicate IsBoundary(s: Section, functions: seq<Function>, members: seq<nat>, index: nat, b: nat)
    requires MembersKnown(functions, members) && index < |functions|
  {
    var f := functions[index];
    && b <= Top(s)
    && (forall m :: m in members && m != index && functions[m].words != [] && functions[m].vram > f.vram ==>
            b <= functions[m].vram)
    && (b == Top(s) || exists m :: m in members && m != index && functions[m].words != []
                         && f.vram < functions[m].vram == b)
  }

  method AppendWord(s: Section, f: Function, a: nat) returns (ok: bool, f': Function)
    ensures ok == ReadWord(s, a).Some?
    ensures f' == if ok then f.(words := f.words + [ReadWord(s, a).value]) else f
  {
    var w := ReadWord(s, a);
    if w.None? {
      return false, f;
    }
    return true, f.(words := f.words + [w.value]);
  }

  /** One function, in three cases: it ends at the reload of the return address, just
      before the return, or at a branch. An append that fails leaves what was appended
      before it. */
  method RepairTruncated(s: Section, f: Function, boundary: nat) returns (f': Function)
    requires f.words != []
    ensures f' == Repaired(s, f, boundary)
  {
    f' := f;
    var end, last := End(f), f.words[|f.words| - 1];
    var w0, w1 := ReadWord(s, end), ReadWord(s, end + 4);
    if end + 12 <= boundary && IsLwRaFromSp(last) && w0.Some? && w1.Some? && IsAddiuSpPositive(w0.value)
      && IsJrRa(w1.value) {
      var ok;
      ok, f' := AppendWord(s, f', end);
      if ok { ok, f' := AppendWord(s, f', end + 4); }
      if ok { ok, f' := AppendWord(s, f', end + 8); }
      if ok { return; }
    }
    if end + 8 <= boundary && w0.Some? && IsJrRa(w0.value) {
      var ok;
      ok, f' := AppendWord(s, f', end);
      if ok { ok, f' := AppendWord(s, f', end + 4); }
      if ok { return; }
    }
    if end + 4 <= boundary && HasDelaySlot(last) {
      var ok;
      ok, f' := AppendWord(s, f', end);
    }
  }

  function Appended(s: Section, f: Function, a: nat): Function {
    if ReadWord(s, a).Some? then f.(words := f.words + [ReadWord(s, a).value]) else f
  }

  /** What the repair leaves, failures included. */
  function Repaired(s: Section, f: Function, boundary: nat): Function
    requires f.words != []
  {
    var end, last := End(f), f.words[|f.words| - 1];
    var w0, w1, w2 := ReadWord(s, end), ReadWord(s, end + 4), ReadWord(s, end + 8);
    var reload := end + 12 <= boundary && IsLwRaFromSp(last) && w0.Some? && w1.Some? && IsAddiuSpPositive(w0.value)
      && IsJrRa(w1.value);
    var f1 := if reload then Appended(s, Appended(s, Appended(s, f, end), end + 4), end + 8) else f;
    if reload && w2.Some? then f1
    else
      var jump := end + 8 <= boundary && w0.Some? && IsJrRa(w0.value);
      var f2 := if jump then Appended(s, Appended(s, f1, end), end + 4) else f1;
      if jump && w1.Some? then f2
      else if end + 4 <= boundary && HasDelaySlot(last) then Appended(s, f2, end)
      else f2
  }

  /** The ROM ends between a return and its slot, behind a function that ends at a branch. */
  predicate RomEndsInReturn(s: Section, f: Function, boundary: nat)
    requires f.words != []
  {
    var end, last := End(f), f.words[|f.words| - 1];
    end + 8 <= boundary && ReadWord(s, end) == Some(0x03E0_0008) && ReadWord(s, end + 4).None? && HasDelaySlot(last)
  }

  lemma Exclusive(w: Addr)
    ensures IsAddiuSpPositive(w) ==> !IsJrRa(w)
    ensures IsLwRaFromSp(w) ==> !HasDelaySlot(w)
  {
  }

  lemma AppendMatches(s: Section, f: Function)
    requires WordsMatch(s, f)
    ensures WordsMatch(s, Appended(s, f, End(f)))
  {
  }

  lemma MatchesUnlessRomEnds(s: Section, f: Function, boundary: nat)
    requires f.words != [] && WordsMatch(s, f) && !RomEndsInReturn(s, f, boundary)
    ensures WordsMatch(s, Repaired(s, f, boundary))
  {
    hide WordsMatch, HasDelaySlot, IsLwRaFromSp, IsAddiuSpPositive;
    var last, w0 := f.words[|f.words| - 1], ReadWord(s, End(f));
    Exclusive(last);
    if w0.Some? {
      Exclusive(w0.value);
    }
    AppendMatches(s, f);
    var f1 := Appended(s, f, End(f));
    AppendMatches(s, f1);
    AppendMatches(s, Appended(s, f1, End(f1)));
  }

  /** The return is appended twice when its slot cannot be read. */
  lemma RomEndMismatches(s: Section, f: Function, boundary: nat)
    requires f.words != [] && RomEndsInReturn(s, f, boundary)
    ensures !WordsMatch(s, Repaired(s, f, boundary))
  {
    hide HasDelaySlot;
    Exclusive(f.words[|f.words| - 1]);
    var r, w := Repaired(s, f, boundary), ReadWord(s, End(f)).value;
    assert r.words == f.words + [w] + [w];
    var k := |f.words| + 1;
    assert k < |r.words| && ReadWord(s, r.vram + 4 * k) != Some(r.words[k]);
  }

  /** The repaired function still has the words of the ROM exactly when the ROM does not
      end in that place; the old words stay in front. */
  lemma RepairMatchesExactly(s: Section, f: Function, boundary: nat)
    requires f.words != [] && WordsMatch(s, f)
    ensures f.words <= Repaired(s, f, boundary).words && Repaired(s, f, boundary).vram == f.vram
    ensures WordsMatch(s, Repaired(s, f, boundary)) <==> !RomEndsInReturn(s, f, boundary)
  {
    hide WordsMatch, RomEndsInReturn;
    if RomEndsInReturn(s, f, boundary) {
      RomEndMismatches(s, f, boundary);
    } else {
      MatchesUnlessRomEnds(s, f, boundary);
    }
  }

  /** Such a ROM: a branch and a return, and no more. */
  lemma RomCanEndInReturn()
    ensures var s := Section(0x8000_0000, 0, 16, 8, (a: Addr) => if a == 0x8000_0000 then 0x1000_0001 else 0x03E0_0008);
            var f := Function(0x8000_0000, 0, 0x8000_0000, [0x1000_0001]);
            SectionFits(s) && WordsMatch(s, f) && RomEndsInReturn(s, f, Top(s))
  {
  }

  lemma RepairStaysBelow(s: Section, f: Function, boundary: nat)
    requires f.words != [] && End(f) <= boundary
    ensures End(Repaired(s, f, boundary)) <= boundary && Repaired(s, f, boundary).words != []
    ensures Repaired(s, f, boundary) == f.(words := Repaired(s, f, boundary).words)
  {
    var end, last := End(f), f.words[|f.words| - 1];
    Exclusive(last);
    if ReadWord(s, end).Some? {
      Exclusive(ReadWord(s, end).value);
    }
  }

  method NextBoundary(s: Section, functions: seq<Function>, members: seq<nat>, index: nat) returns (b: nat)
    requires MembersKnown(functions, members) && index < |functions|
    ensures IsBoundary(s, functions, members, index, b)
  {
    b := Top(s);
    for k := 0 to |members|
      invariant b <= Top(s)
      invariant forall j :: 0 <= j < k && members[j] != index && functions[members[j]].words != []
                  && functions[members[j]].vram > functions[index].vram
                  ==> b <= functions[members[j]].vram
      invariant b == Top(s) || exists m :: m in members && m != index && functions[m].words != []
                                 && functions[index].vram < functions[m].vram == b
    {
      var m := members[k];
      if m == index { continue; }
      if functions[m].words != [] && functions[m].vram > functions[index].vram && functions[m].vram < b {
        b := functions[m].vram;
      }
    }
    forall m | m in members && m != index && functions[m].words != [] && functions[m].vram > functions[index].vram
      ensures b <= functions[m].vram
    {
      var j :| 0 <= j < |members| && members[j] == m;
    }
  }

  /** A function ends at or before the next boundary. */
  lemma EndsBeforeBoundary(s: Section, functions: seq<Function>, members: seq<nat>, index: nat, b: nat)
    requires MembersKnown(functions, members) && Disjoint(functions, members) && index in members
    requires functions[index].words != [] && End(functions[index]) <= Top(s)
             && IsBoundary(s, functions, members, index, b)
    ensures End(functions[index]) <= b
  {
    if b != Top(s) {
      var m :| m in members && m != index && functions[m].words != [] && functions[index].vram < functions[m].vram == b;
      assert Apart(functions[index], functions[m]);
    }
  }

  /** Growing one function up to its boundary keeps the functions apart. */
  lemma GrowsApart(s: Section, functions: seq<Function>, members: seq<nat>, index: nat, b: nat, f': Function)
    requires MembersKnown(functions, members) && Disjoint(functions, members) && index in members
    requires IsBoundary(s, functions, members, index, b) && functions[index].words != []
    requires f'.vram == functions[index].vram && f'.words != [] && End(f') <= b
    ensures MembersKnown(functions[index := f'], members) && Disjoint(functions[index := f'], members)
  {
    hide SectionFits;
    var now := functions[index := f'];
    forall x, y | x in members && y in members && x != y
      ensures Apart(now[x], now[y])
    {
      assert Apart(functions[x], functions[y]);
    }
  }

  /** `functions` have only been extended since `before`. */
  predicate OnlyExtended(before: seq<Function>, functions: seq<Function>, members: seq<nat>) {
    && |functions| == |before|
    && forall m :: 0 <= m < |before| ==>
         && before[m].words <= functions[m].words && functions[m] == before[m].(words := functions[m].words)
         && (m !in members || before[m].words == [] ==> functions[m] == before[m])
  }

  /** `f` is function `m` after its repair: a boundary looks at starts only. */
  ghost predicate IsRepaired(s: Section, before: seq<Function>, members: seq<nat>, m: nat, f: Function)
    requires MembersKnown(before, members) && m < |before|
  {
    if before[m].words == [] then f == before[m]
    else exists b :: IsBoundary(s, before, members, m, b) && f == Repaired(s, before[m], b)
  }

  lemma BoundaryKept(s: Section, before: seq<Function>, functions: seq<Function>, members: seq<nat>, index: nat,
                     b: nat)
    requires MembersKnown(before, members) && MembersKnown(functions, members) && index < |functions|
    requires OnlyExtended(before, functions, members) && IsBoundary(s, functions, members, index, b)
    ensures IsBoundary(s, before, members, index, b)
  {
    assert forall m :: 0 <= m < |before| ==> functions[m].vram == before[m].vram;
    assert forall m :: m in members && before[m].words != [] ==> functions[m].words != [];
  }

  ghost predicate NoReturnAtRomEnd(s: Section) {
    forall a: nat :: ReadWord(s, a) == Some(0x03E0_0008) && a + 8 <= Top(s) ==> ReadWord(s, a + 4).Some?
  }

  /** All functions of a section, each repaired up to its boundary: they stay apart, start
      where they did, keep their words in front, and keep matching the ROM unless it ends
      within a return. */
  method RepairTruncatedRanges(s: Section, before: seq<Function>, members: seq<nat>) returns (functions: seq<Function>)
    requires SectionFits(s) && MembersKnown(before, members) && Disjoint(before, members)
    requires forall m :: m in members ==> s.ram <= before[m].vram && End(before[m]) <= Top(s)
    ensures OnlyExtended(before, functions, members) && MembersKnown(functions, members) && Disjoint(functions, members)
    ensures forall m :: m in members ==> End(functions[m]) <= Top(s) && IsRepaired(s, before, members, m, functions[m])
    ensures NoReturnAtRomEnd(s) && Placed(s, before, members) ==> Placed(s, functions, members)
  {
    hide Repaired, WordsMatch, IsBoundary, Apart, Disjoint;
    functions := before;
    for k := 0 to |members|
      invariant OnlyExtended(before, functions, members) && MembersKnown(functions, members)
                && Disjoint(functions, members)
      invariant forall m :: m in members ==> s.ram <= functions[m].vram && End(functions[m]) <= Top(s)
      invariant forall j :: 0 <= j < k ==> IsRepaired(s, before, members, members[j], functions[members[j]])
      invariant forall j :: k <= j < |members| ==> functions[members[j]] == before[members[j]]
      invariant NoReturnAtRomEnd(s) && Placed(s, before, members) ==> Placed(s, functions, members)
    {
      var index := members[k];
      if functions[index].words == [] { continue; }
      var boundary := NextBoundary(s, functions, members, index);
      var f := RepairTruncated(s, functions[index], boundary);
      BoundaryKept(s, before, functions, members, index, boundary);
      EndsBeforeBoundary(s, functions, members, index, boundary);
      RepairStaysBelow(s, functions[index], boundary);
      BoundaryInSection(s, functions, members, index, boundary);
      GrowsApart(s, functions, members, index, boundary, f);
      if NoReturnAtRomEnd(s) && Placed(s, before, members) {
        RepairMatchesExactly(s, functions[index], boundary);
        NoBadEnd(s, functions[index], boundary);
      }
      RepairExtends(s, functions[index], boundary);
      functions := functions[index := f];
    }
  }

  lemma BoundaryInSection(s: Section, functions: seq<Function>, members: seq<nat>, index: nat, b: nat)
    requires MembersKnown(functions, members) && index < |functions| && IsBoundary(s, functions, members, index, b)
    ensures b <= Top(s)
  {
  }

  lemma NoBadEnd(s: Section, f: Function, boundary: nat)
    requires SectionFits(s) && NoReturnAtRomEnd(s) && f.words != [] && boundary <= Top(s)
    ensures !RomEndsInReturn(s, f, boundary)
  {
  }

  lemma RepairExtends(s: Section, f: Function, boundary: nat)
    requires f.words != []
    ensures f.words <= Repaired(s, f, boundary).words
  {
  }

  // ----- Functions that start too late -----

  const MAX_PREFIX_GAP := 0x40

  type Index = map<Addr, seq<nat>>

  predicate Lists(byVram: Index, v: Addr, i: nat) {
    v in byVram && i in byVram[v]
  }

  /** The functions that start at each address are listed under it, and nowhere else. */
  ghost predicate IndexOk(functions: seq<Function>, byVram: Index) {
    && (forall v: Addr, i: nat :: Lists(byVram, v, i) <==> i < |functions| && functions[i].vram == v)
    && (forall v :: v in byVram ==> byVram[v] != [])
  }

  function Without(indices: seq<nat>, x: nat): (r: seq<nat>)
    ensures forall y :: y in r <==> y in indices && y != x
  {
    if indices == [] then []
    else Without(indices[..|indices| - 1], x) + if indices[|indices| - 1] == x then [] else [indices[|indices| - 1]]
  }

  predicate SortedByStart(functions: seq<Function>, order: seq<nat>)
    requires MembersKnown(functions, order)
  {
    forall i, j :: 0 <= i < j < |order| ==> functions[order[i]].vram <= functions[order[j]].vram
  }

  predicate InDelaySlot(s: Section, a: nat) {
    a >= s.ram + 4 && ReadWord(s, a - 4).Some? && HasDelaySlot(ReadWord(s, a - 4).value)
  }

  /** A function moved back: same end, old words last, words of the ROM. */
  predicate MovedBack(s: Section, f: Function, f': Function) {
    && f'.vram < f.vram && End(f') == End(f) && |f.words| <= |f'.words| && f'.words[|f'.words| - |f.words|..] == f.words
    && WordsMatch(s, f')
  }

  /** The places that are looked at in the gap before `oldStart`. */
  predicate IsPlace(prevEnd: nat, oldStart: Addr, a: nat) {
    prevEnd <= a && a + 4 <= oldStart && (a - prevEnd) % 4 == 0
  }

  /** An instruction at which a function may start: not padding, a known start or a slot. */
  predicate CanStart(s: Section, known: set<Addr>, a: nat) {
    ReadWord(s, a).Some? && ReadWord(s, a).value != 0 && a !in known && !InDelaySlot(s, a)
  }

  /** From `a`, exactly what lies up to `oldEnd` is reached. `discover` sizes the code at
      an offset. */
  predicate IsStart(s: Section, known: set<Addr>, oldEnd: nat, discover: nat -> Option<nat>, a: nat) {
    && CanStart(s, known, a) && s.ram <= a
    && var size := discover(a - s.ram);
       size.Some? && size.value % 4 == 0 && a + size.value == oldEnd
  }

  /** The search does not go on behind `a`: the ROM ends, or a whole function lies in the gap. */
  predicate EndsSearch(s: Section, known: set<Addr>, oldStart: Addr, discover: nat -> Option<nat>, a: nat) {
    || ReadWord(s, a).None?
    || (CanStart(s, known, a) && s.ram <= a
        && var size := discover(a - s.ram);
           size.Some? && size.value % 4 == 0 && a + size.value <= oldStart)
  }

  /** `start` is the first start in the gap, unless the search ends before it. */
  ghost predicate IsFirstStart(s: Section, known: set<Addr>, prevEnd: nat, oldStart: Addr, oldEnd: nat,
                               discover: nat -> Option<nat>, start: Option<Addr>) {
    match start
    case Some(first) =>
      && IsPlace(prevEnd, oldStart, first) && IsStart(s, known, oldEnd, discover, first)
      && forall a: nat :: IsPlace(prevEnd, oldStart, a) && a < first ==>
           !IsStart(s, known, oldEnd, discover, a) && !EndsSearch(s, known, oldStart, discover, a)
    case None =>
      forall a: nat :: IsPlace(prevEnd, oldStart, a) && IsStart(s, known, oldEnd, discover, a) ==>
        exists e: nat :: IsPlace(prevEnd, oldStart, e) && e < a && EndsSearch(s, known, oldStart, discover, e)
  }

  /** Looks for a start in the gap before a function, from which exactly the function
      and what precedes it is reached. */
  method FindLateStart(s: Section, byVram: Index, prevEnd: nat, oldStart: Addr, oldEnd: nat,
                       discover: nat -> Option<nat>)
    returns (start: Option<Addr>)
    requires s.ram <= prevEnd && oldStart < oldEnd
    ensures IsFirstStart(s, byVram.Keys, prevEnd, oldStart, oldEnd, discover, start)
  {
    hide ReadWord, InDelaySlot;
    var prefix := prevEnd;
    while prefix + 4 <= oldStart
      invariant prevEnd <= prefix && (prefix - prevEnd) % 4 == 0
      invariant forall a: nat :: IsPlace(prevEnd, oldStart, a) && a < prefix ==>
          !IsStart(s, byVram.Keys, oldEnd, discover, a) && !EndsSearch(s, byVram.Keys, oldStart, discover, a)
    {
      var here := prefix;
      assert IsPlace(prevEnd, oldStart, here);
      var word := ReadWord(s, here);
      if word.None? {
        return None;
      }
      NotBefore(s, here);
      prefix := prefix + 4;
      if word.value == 0 || here in byVram || InDelaySlot(s, here) { continue; }
      var size := discover(here - s.ram);
      if size.None? || size.value % 4 != 0 { continue; }
      if here + size.value <= oldStart {
        return None;
      }
      if size.value <= oldStart - here || here + size.value != oldEnd { continue; }
      return Some(here);
    }
    start := None;
  }

  lemma NotBefore(s: Section, a: nat)
    requires ReadWord(s, a).Some?
    ensures s.ram <= a
  {
  }

  method ReadRange(s: Section, start: nat, n: nat) returns (words: seq<Addr>)
    requires forall k :: 0 <= k < n ==> ReadWord(s, start + 4 * k).Some?
    ensures |words| == n && forall k :: 0 <= k < n ==> ReadWord(s, start + 4 * k) == Some(words[k])
  {
    words := [];
    for k := 0 to n
      invariant |words| == k && forall j :: 0 <= j < k ==> ReadWord(s, start + 4 * j) == Some(words[j])
    {
      words := words + [ReadWord(s, start + 4 * k).value];
    }
  }

  /** `remap_function_vram`. */
  method Remap(functions: seq<Function>, byVram: Index, index: nat, newVram: Addr) returns (r: Index)
    requires IndexOk(functions, byVram) && index < |functions| && newVram != functions[index].vram
    ensures IndexOk(functions[index := functions[index].(vram := newVram)], r)
  {
    var oldVram := functions[index].vram;
    r := byVram;
    if oldVram in r {
      var indices := Without(r[oldVram], index);
      r := if indices == [] then r - {oldVram} else r[oldVram := indices];
    }
    r := r[newVram := (if newVram in r then r[newVram] else []) + [index]];
    ListedUnderItsStart(functions, byVram, index);
    Remapped(functions, byVram, index, newVram, r);
  }

  lemma Remapped(functions: seq<Function>, byVram: Index, index: nat, newVram: Addr, r: Index)
    requires IndexOk(functions, byVram) && index < |functions| && newVram != functions[index].vram
    requires functions[index].vram in byVram
    requires var indices := Without(byVram[functions[index].vram], index);
             var less := if indices == [] then byVram - {functions[index].vram}
               else byVram[functions[index].vram := indices];
             r == less[newVram := (if newVram in less then less[newVram] else []) + [index]]
    ensures IndexOk(functions[index := functions[index].(vram := newVram)], r)
  {
    var now := functions[index := functions[index].(vram := newVram)];
    forall v: Addr, i: nat
      ensures Lists(r, v, i) <==> i < |now| && now[i].vram == v
    {
      assert Lists(byVram, v, i) <==> i < |functions| && functions[i].vram == v;
      if v == newVram {
        assert r[v][|r[v]| - 1] == index;
      }
    }
  }

  lemma ListedUnderItsStart(functions: seq<Function>, byVram: Index, index: nat)
    requires IndexOk(functions, byVram) && index < |functions|
    ensures functions[index].vram in byVram
  {
    assert Lists(byVram, functions[index].vram, index);
  }

  /** The index only looks at starts. */
  lemma IndexLooksAtStarts(functions: seq<Function>, other: seq<Function>, byVram: Index)
    requires IndexOk(functions, byVram) && |other| == |functions| && forall i :: 0 <= i < |functions| ==>
                                                                         other[i].vram == functions[i].vram
    ensures IndexOk(other, byVram)
  {
    forall v: Addr, i: nat
      ensures Lists(byVram, v, i) <==> i < |other| && other[i].vram == v
    {
      if i < |other| {
        assert other[i].vram == functions[i].vram;
      }
    }
  }

  /** Moving one function back into the gap after the previous one. */
  lemma MovesApart(s: Section, functions: seq<Function>, order: seq<nat>, i: nat, f': Function)
    requires MembersKnown(functions, order) && Disjoint(functions, order) && SortedByStart(functions, order)
             && i + 1 < |order|
    requires functions[order[i]].words != [] && functions[order[i + 1]].words != []
    requires End(functions[order[i]]) <= f'.vram < functions[order[i + 1]].vram
             && End(f') == End(functions[order[i + 1]])
    ensures var now := functions[order[i + 1] := f'];
            MembersKnown(now, order) && Disjoint(now, order) && SortedByStart(now, order)
  {
    var c := order[i + 1];
    var now := functions[c := f'];
    forall x | x in order && x != c
      ensures Apart(now[x], f')
    {
      var k :| 0 <= k < |order| && order[k] == x;
      assert Apart(functions[x], functions[c]);
      if k <= i {
        if k < i {
          assert Apart(functions[x], functions[order[i]]);
        }
      }
    }
    forall x, y | x in order && y in order && x != y
      ensures Apart(now[x], now[y])
    {
      if x != c && y != c {
        assert Apart(functions[x], functions[y]);
      }
    }
    forall j, k | 0 <= j < k < |order|
      ensures now[order[j]].vram <= now[order[k]].vram
    {
      assert functions[order[j]].vram <= functions[order[k]].vram;
      if order[k] == c && j < i {
        assert functions[order[j]].vram <= functions[order[i]].vram;
      }
    }
  }

  /** `f'` is `f` with its start moved back to `start`. */
  predicate IsMoved(s: Section, f: Function, f': Function, start: Addr) {
    && MovedBack(s, f, f') && f'.vram == start && f'.rom == s.rom + (start - s.ram)
    && f'.entry == if f.entry == f.vram then start else f.entry
  }

  /** The function that `FindLateStart` found the start of. */
  method MoveBack(s: Section, f: Function, start: Addr) returns (f': Function)
    requires SectionFits(s) && Covered(s) && WordsMatch(s, f) && End(f) <= Top(s)
    requires s.ram <= start < f.vram && (End(f) - start) % 4 == 0
    ensures IsMoved(s, f, f', start)
  {
    hide WordsMatch, ReadWord;
    var n := (End(f) - start) / 4;
    assert start + 4 * n == End(f);
    AllReadable(s, start, n);
    var words := ReadRange(s, start, n);
    f' := Function(start, s.rom + (start - s.ram), if f.entry == f.vram then start else f.entry, words);
    assert WordsMatch(s, f') by { RangeMatches(s, f'); }
    KeepsSuffix(s, f, f');
  }

  lemma AllReadable(s: Section, start: nat, n: nat)
    requires SectionFits(s) && Covered(s) && s.ram <= start && start + 4 * n <= Top(s)
    ensures forall k :: 0 <= k < n ==> ReadWord(s, start + 4 * k).Some?
  {
  }

  lemma RangeMatches(s: Section, f: Function)
    requires forall k :: 0 <= k < |f.words| ==> ReadWord(s, f.vram + 4 * k) == Some(f.words[k])
    ensures WordsMatch(s, f)
  {
  }

  lemma KeepsSuffix(s: Section, f: Function, f': Function)
    requires WordsMatch(s, f) && WordsMatch(s, f') && End(f) == End(f') && f'.vram <= f.vram
    ensures |f.words| <= |f'.words| && f'.words[|f'.words| - |f.words|..] == f.words
  {
    var d := |f'.words| - |f.words|;
    forall k | 0 <= k < |f.words|
      ensures f'.words[d + k] == f.words[k]
    {
      assert f'.vram + 4 * (d + k) == f.vram + 4 * k;
      assert ReadWord(s, f'.vram + 4 * (d + k)) == Some(f'.words[d + k]);
    }
  }

  /** A gap that is searched: neither empty nor too large. */
  predicate HasGap(prev: Function, cur: Function) {
    && prev.words != [] && cur.words != [] && prev.vram < cur.vram
    && End(prev) < cur.vram <= End(prev) + MAX_PREFIX_GAP
  }

  function Starts(functions: seq<Function>): set<Addr> {
    set f | f in functions :: f.vram
  }

  lemma IndexHasStarts(functions: seq<Function>, byVram: Index)
    requires IndexOk(functions, byVram)
    ensures byVram.Keys == Starts(functions)
  {
    forall v | v in byVram ensures v in Starts(functions) {
      assert Lists(byVram, v, byVram[v][0]);
    }
    forall f | f in functions ensures f.vram in byVram {
      var i :| 0 <= i < |functions| && functions[i] == f;
      assert Lists(byVram, f.vram, i);
    }
  }

  /** `f` is the function after the `i`-th, moved back to the first start in the gap
      between them if there is one. */
  ghost predicate GapSearched(s: Section, functions: seq<Function>, order: seq<nat>, i: nat,
                              discover: nat -> Option<nat>, f: Function)
    requires MembersKnown(functions, order) && i + 1 < |order|
  {
    var prev, cur := functions[order[i]], functions[order[i + 1]];
    if HasGap(prev, cur) then
      exists start :: IsFirstStart(s, Starts(functions), End(prev), cur.vram, End(cur), discover, start)
                      && if start.None? then f == cur else IsMoved(s, cur, f, start.value)
    else f == cur
  }

  /** The function after the `i`-th, if its start can be moved into the gap between them. */
  method RepairNext(s: Section, before: seq<Function>, order: seq<nat>, i: nat, index: Index,
                    discover: nat -> Option<nat>)
    returns (functions: seq<Function>, byVram: Index)
    requires SectionFits(s) && Covered(s) && MembersKnown(before, order) && SortedByStart(before, order)
             && i + 1 < |order|
    requires Disjoint(before, order) && Placed(s, before, order) && IndexOk(before, index)
    ensures |functions| == |before| && MembersKnown(functions, order) && SortedByStart(functions, order)
    ensures Disjoint(functions, order) && Placed(s, functions, order) && IndexOk(functions, byVram)
    ensures forall m :: 0 <= m < |before| && m != order[i + 1] ==> functions[m] == before[m]
    ensures var c := order[i + 1];
            functions[c] == before[c] || (MovedBack(s, before[c], functions[c]) && SizedAt(s, discover, functions[c]))
    ensures GapSearched(s, before, order, i, discover, functions[order[i + 1]])
  {
    hide MovedBack, WordsMatch, IndexOk, InDelaySlot, Apart, Disjoint, SortedByStart, IsFirstStart, Starts;
    functions, byVram := before, index;
    var prev, c := before[order[i]], order[i + 1];
    var cur := before[c];
    if prev.words == [] || cur.words == [] || cur.vram <= prev.vram { return; }
    assert order[i] in order && c in order;
    if End(prev) >= cur.vram || cur.vram - End(prev) > MAX_PREFIX_GAP { return; }
    IndexHasStarts(before, index);
    var start := FindLateStart(s, byVram, End(prev), cur.vram, End(cur), discover);
    if start.None? { return; }
    FirstStartFacts(s, byVram.Keys, End(prev), cur.vram, End(cur), discover, start);
    var moved := MoveBack(s, cur, start.value);
    MovedFacts(s, cur, moved);
    MovesApart(s, before, order, i, moved);
    functions := before[c := moved];
    byVram := Remap(before, index, c, start.value);
    IndexLooksAtStarts(before[c := before[c].(vram := start.value)], functions, byVram);
  }

  lemma FirstStartFacts(s: Section, known: set<Addr>, prevEnd: nat, oldStart: Addr, oldEnd: nat,
                        discover: nat -> Option<nat>, start: Option<Addr>)
    requires IsFirstStart(s, known, prevEnd, oldStart, oldEnd, discover, start) && start.Some?
    ensures prevEnd <= start.value < oldStart && s.ram <= start.value <= oldEnd && (oldEnd - start.value) % 4 == 0
    ensures discover(start.value - s.ram) == Some(oldEnd - start.value)
  {
  }

  lemma MovedFacts(s: Section, f: Function, f': Function)
    requires MovedBack(s, f, f')
    ensures f'.vram < f.vram && End(f') == End(f) && WordsMatch(s, f')
  {
  }

  /** The function is as large as `discover` says. */
  predicate SizedAt(s: Section, discover: nat -> Option<nat>, f: Function) {
    s.ram <= f.vram && discover(f.vram - s.ram) == Some(4 * |f.words|)
  }

  /** Each function is as before, or moved back to where `discover` finds its size. */
  predicate OnlyMovedBack(s: Section, before: seq<Function>, functions: seq<Function>, n: nat, order: seq<nat>,
                          discover: nat -> Option<nat>) {
    && |functions| == |before|
    && forall m :: 0 <= m < |before| ==>
         || functions[m] == before[m]
         || (m in order[..if n <= |order| then n else |order|] && MovedBack(s, before[m], functions[m])
             && SizedAt(s, discover, functions[m]))
  }

  /** The table when the gap after the `i`-th is searched: the functions up to the `i`-th
      have been repaired. */
  function Midway(before: seq<Function>, functions: seq<Function>, order: seq<nat>, i: nat): (r: seq<Function>)
    requires |functions| == |before| && i < |order|
    ensures |r| == |before|
  {
    seq(|before|, m requires 0 <= m < |before| => if m in order[..i + 1] then functions[m] else before[m])
  }

  /** The first `n` gaps have been searched. */
  ghost predicate GapsSearched(s: Section, before: seq<Function>, functions: seq<Function>, order: seq<nat>, n: nat,
                               discover: nat -> Option<nat>)
    requires |functions| == |before| && MembersKnown(before, order)
  {
    forall i :: 0 <= i < n && i + 1 < |order| ==>
      GapSearched(s, Midway(before, functions, order, i), order, i, discover, functions[order[i + 1]])
  }

  /** One more gap. */
  lemma SearchesNext(s: Section, before: seq<Function>, functions: seq<Function>, next: seq<Function>,
                     order: seq<nat>, n: nat, discover: nat -> Option<nat>)
    requires |functions| == |before| == |next| && MembersKnown(before, order) && n + 1 < |order|
    requires GapsSearched(s, before, functions, order, n, discover)
    requires forall m :: 0 <= m < |before| && m !in order[..n + 1] ==> functions[m] == before[m]
    requires forall m :: 0 <= m < |before| && m != order[n + 1] ==> next[m] == functions[m]
    requires GapSearched(s, functions, order, n, discover, next[order[n + 1]])
    ensures GapsSearched(s, before, next, order, n + 1, discover)
  {
    hide GapSearched;
    forall i | 0 <= i < n + 1 && i + 1 < |order|
      ensures GapSearched(s, Midway(before, next, order, i), order, i, discover, next[order[i + 1]])
    {
      if i == n {
        assert Midway(before, next, order, n) == functions;
      } else {
        assert Midway(before, next, order, i) == Midway(before, functions, order, i);
      }
    }
  }

  /** All functions of a section, in the order of their starts: they stay apart, in
      order and matching the ROM, ends stay fixed, each moves to the first start in the
      gap before it, and the index stays right. */
  method RepairLateStarts(s: Section, before: seq<Function>, order: seq<nat>, index: Index,
                          discover: nat -> Option<nat>)
    returns (functions: seq<Function>, byVram: Index)
    requires SectionFits(s) && MembersKnown(before, order) && SortedByStart(before, order)
    requires Disjoint(before, order) && Placed(s, before, order) && IndexOk(before, index)
    ensures |functions| == |before| && MembersKnown(functions, order) && SortedByStart(functions, order)
    ensures Disjoint(functions, order) && Placed(s, functions, order) && IndexOk(functions, byVram)
    ensures OnlyMovedBack(s, before, functions, |order|, order, discover)
    ensures if Covered(s) then GapsSearched(s, before, functions, order, |order|, discover) else functions == before
  {
    hide MovedBack, WordsMatch, IndexOk, InDelaySlot, Apart, GapSearched, Midway, Disjoint, SortedByStart, ReadWord;
    functions, byVram := before, index;
    if !Covered(s) { return; }
    var i := 0;
    while i + 1 < |order|
      invariant 0 <= i && (|order| > 0 ==> i < |order|)
      invariant |functions| == |before| && MembersKnown(functions, order) && SortedByStart(functions, order)
      invariant Disjoint(functions, order) && Placed(s, functions, order) && IndexOk(functions, byVram)
      invariant OnlyMovedBack(s, before, functions, i + 1, order, discover)
      invariant GapsSearched(s, before, functions, order, i, discover)
      invariant forall k :: i + 1 <= k < |order| ==> functions[order[k]] == before[order[k]]
    {
      ghost var earlier := functions;
      functions, byVram := RepairNext(s, functions, order, i, byVram, discover);
      SearchesNext(s, before, earlier, functions, order, i, discover);
      i := i + 1;
    }
  }
}
