/** Writing the symbol file: a byte vector that grows table by table, with the size of
    the string table patched into the header once it is known. */
module SymbolWriter {
  import opened Machine
  import opened Binary
  import opened ModSymbols

  class Writer {
    var bytes: seq<Byte>

    constructor ()
      ensures bytes == []
    {
      bytes := [];
    }

    method Append(words: seq<Addr>)
      modifies this
      ensures bytes == old(bytes) + Bin(words)
    {
      bytes := bytes + Bin(words);
    }

    method AppendText(text: Text)
      modifies this
      ensures bytes == old(bytes) + text
    {
      bytes := bytes + text;
    }

    method Patch(at: nat, w: Addr)
      requires at + 4 <= |bytes|
      modifies this
      ensures bytes == old(bytes)[..at] + Split(w) + old(bytes)[at + 4..]
    {
      bytes := bytes[..at] + Split(w) + bytes[at + 4..];
    }
  }

  lemma {:induction false} ConcatBoth(x: seq<Text>, y: seq<Text>)
    ensures Concat(x + y) == Concat(x) + Concat(y)
  {
    ConcatSplits(x + y, |x|);
    assert (x + y)[..|x|] == x && (x + y)[|x|..] == y;
  }

  /** Names appended one by one, and where each begins. */
  method AppendNames(w: Writer, names: seq<Text>, ghost before: seq<Text>, start: nat) returns (positions: seq<Addr>)
    requires start <= |w.bytes| && w.bytes[start..] == Concat(before)
    modifies w
    ensures w.bytes == old(w.bytes) + Concat(names)
    ensures |positions| == |names| && forall k :: 0 <= k < |names| ==>
                                          positions[k] == Low(Start(before + names, |before| + k))
  {
    positions := [];
    for k := 0 to |names|
      invariant w.bytes == old(w.bytes) + Concat(names[..k])
      invariant |positions| == k && forall j :: 0 <= j < k ==> positions[j] == Low(Start(before + names, |before| + j))
    {
      StartOf(before, names, k);
      positions := positions + [Low(|w.bytes| - start)];
      w.AppendText(names[k]);
      assert names[..k + 1][..k] == names[..k];
    }
    assert names[..|names|] == names;
  }

  lemma StartOf(before: seq<Text>, names: seq<Text>, k: nat)
    requires k <= |names|
    ensures Start(before + names, |before| + k) == |Concat(before)| + |Concat(names[..k])|
  {
    assert (before + names)[..|before| + k] == before + names[..k];
    ConcatBoth(before, names[..k]);
  }

  lemma StartKept(x: seq<Text>, y: seq<Text>, k: nat)
    requires k <= |x|
    ensures Start(x + y, k) == Start(x, k)
  {
    assert (x + y)[..k] == x[..k];
  }

  // ----- Tables -----

  lemma AppendMore(base: seq<Byte>, x: seq<Addr>, y: seq<Addr>)
    ensures base + Bin(x) + Bin(y) == base + Bin(x + y)
  {
    BinConcat(x, y);
  }

  method WriteFunctions(w: Writer, c: Context, s: Section, funcs: seq<nat>)
    modifies w
    ensures w.bytes == old(w.bytes) + Bin(FuncWords(c, s, funcs))
  {
    hide Bin, Low, Minus;
    assert funcs[..0] == [] && Bin([]) == [] by { EmptyBin(); }
    for j := 0 to |funcs|
      invariant w.bytes == old(w.bytes) + Bin(FuncWords(c, s, funcs[..j]))
    {
      var f := funcs[j];
      var record := if f < |c.functions| then [Minus(c.functions[f].vram, s.ram), Low(4 * c.functions[f].words)]
        else [0, 0];
      AppendMore(old(w.bytes), FuncWords(c, s, funcs[..j]), record);
      assert funcs[..j + 1][..j] == funcs[..j];
      w.Append(record);
    }
    assert funcs[..|funcs|] == funcs;
  }

  lemma EmptyBin()
    ensures Bin([]) == []
  {
  }

  predicate RelocPrintable(c: Context, r: ModReloc) {
    r.section != SECTION_ABSOLUTE
      && (r.section == SECTION_IMPORT || r.section == SECTION_EVENT || r.reference || r.section < |c.sections|)
  }

  /** Relocations; one against an absolute symbol or an unknown section stops the writing. */
  method WriteRelocs(w: Writer, c: Context, l: Layout, s: Section) returns (ok: bool)
    modifies w
    ensures ok <==> forall j :: 0 <= j < |s.relocs| ==> RelocPrintable(c, s.relocs[j])
    ensures ok ==> w.bytes == old(w.bytes) + Bin(RelocWords(l, s, s.relocs))
  {
    hide Bin, Low, Minus;
    EmptyBin();
    assert s.relocs[..0] == [];
    for j := 0 to |s.relocs|
      invariant w.bytes == old(w.bytes) + Bin(RelocWords(l, s, s.relocs[..j]))
      invariant forall k :: 0 <= k < j ==> RelocPrintable(c, s.relocs[k])
    {
      var r := s.relocs[j];
      var vrom: Addr, offset := 0, r.offset;
      if r.section == SECTION_ABSOLUTE {
        return false;
      } else if r.section == SECTION_IMPORT {
        vrom, offset := IMPORT_VROM, r.symbol;
      } else if r.section == SECTION_EVENT {
        vrom, offset := EVENT_VROM, r.symbol;
      } else if r.reference {
        vrom := l.romOf(r.section);
      } else {
        if r.section >= |c.sections| { return false; }
        vrom := Low(SECTION_SELF + r.section);
      }
      var record := [Minus(r.address, s.ram), Low(r.kind), offset, vrom];
      AppendMore(old(w.bytes), RelocWords(l, s, s.relocs[..j]), record);
      assert s.relocs[..j + 1][..j] == s.relocs[..j];
      w.Append(record);
    }
    assert s.relocs[..|s.relocs|] == s.relocs;
    ok := true;
  }

  method WriteSections(w: Writer, c: Context, l: Layout) returns (ok: bool)
    requires Printable(c, l)
    modifies w
    ensures ok <==> RelocsPrintable(c)
    ensures ok ==> w.bytes == old(w.bytes) + Bin(SectionsWords(c, l, |c.sections|))
  {
    hide Bin, Low, FuncWords, RelocWords;
    EmptyBin();
    for i := 0 to |c.sections|
      invariant w.bytes == old(w.bytes) + Bin(SectionsWords(c, l, i))
      invariant forall k, j :: 0 <= k < i && 0 <= j < |c.sections[k].relocs| ==>
                    RelocPrintable(c, c.sections[k].relocs[j])
    {
      var s := c.sections[i];
      var header: seq<Addr> := [0, s.rom, s.ram, s.size, s.bss, Low(|l.functions[i]|), Low(|s.relocs|)];
      ghost var before := w.bytes;
      w.Append(header);
      WriteFunctions(w, c, s, l.functions[i]);
      AppendMore(before, header, FuncWords(c, s, l.functions[i]));
      ok := WriteRelocs(w, c, l, s);
      if !ok { return; }
      AppendMore(before, header + FuncWords(c, s, l.functions[i]), RelocWords(l, s, s.relocs));
      AppendMore(old(w.bytes), SectionsWords(c, l, i), SectionWords(c, l, i));
    }
    ok := true;
  }

  method WriteDependencies(w: Writer, names: seq<Text>, positions: seq<Addr>, n: nat, pad: nat -> Addr)
    requires n <= |names| && |positions| == n && forall k :: 0 <= k < n ==> positions[k] == Low(Start(names, k))
    modifies w
    ensures w.bytes == old(w.bytes) + Bin(DependencyWords(names, n, pad))
  {
    hide Bin, Low, Start;
    EmptyBin();
    for i := 0 to n
      invariant w.bytes == old(w.bytes) + Bin(DependencyWords(names, i, pad))
    {
      var record := [pad(i), positions[i], Low(|names[i]|)];
      AppendMore(old(w.bytes), DependencyWords(names, i, pad), record);
      w.Append(record);
    }
  }

  method WriteNamed(w: Writer, names: seq<Text>, base: nat, positions: seq<Addr>, table: seq<Named>)
    requires base + |table| <= |names| && |positions| == |table|
    requires forall k :: 0 <= k < |table| ==> positions[k] == Low(Start(names, base + k))
    modifies w
    ensures w.bytes == old(w.bytes) + Bin(NamedWords(names, base, table, |table|))
  {
    hide Bin, Low, Start;
    EmptyBin();
    for i := 0 to |table|
      invariant w.bytes == old(w.bytes) + Bin(NamedWords(names, base, table, i))
    {
      var record := [positions[i], Low(|table[i].name|), Low(table[i].dependency)];
      AppendMore(old(w.bytes), NamedWords(names, base, table, i), record);
      w.Append(record);
    }
  }

  method WritePatches(w: Writer, patches: seq<Patch>)
    modifies w
    ensures w.bytes == old(w.bytes) + Bin(PatchWords(patches))
  {
    hide Bin;
    EmptyBin();
    assert patches[..0] == [];
    for i := 0 to |patches|
      invariant w.bytes == old(w.bytes) + Bin(PatchWords(patches[..i]))
    {
      var p := patches[i];
      var flags: Addr := 0;
      if p.flags % 2 == 1 {
        flags := 1;
      }
      var record := [p.func, p.vrom, p.vram, flags];
      AppendMore(old(w.bytes), PatchWords(patches[..i]), record);
      assert patches[..i + 1][..i] == patches[..i];
      w.Append(record);
    }
    assert patches[..|patches|] == patches;
  }

  method WriteExports(w: Writer, names: seq<Text>, base: nat, positions: seq<Addr>, c: Context)
    requires ExportsKnown(c) && base + |c.exports| <= |names| && |positions| == |c.exports|
    requires forall k :: 0 <= k < |c.exports| ==>
                 positions[k] == Low(Start(names, base + k)) && names[base + k] == c.functions[c.exports[k]].name
    modifies w
    ensures w.bytes == old(w.bytes) + Bin(ExportWords(names, base, c.exports, |c.exports|))
  {
    hide Bin, Low, Start;
    EmptyBin();
    for i := 0 to |c.exports|
      invariant w.bytes == old(w.bytes) + Bin(ExportWords(names, base, c.exports, i))
    {
      var f := c.exports[i];
      var record := [Low(f), positions[i], Low(|c.functions[f].name|)];
      AppendMore(old(w.bytes), ExportWords(names, base, c.exports, i), record);
      w.Append(record);
    }
  }

  method WriteCallbacks(w: Writer, callbacks: seq<Callback>)
    modifies w
    ensures w.bytes == old(w.bytes) + Bin(CallbackWords(callbacks))
  {
    hide Bin, Low;
    EmptyBin();
    assert callbacks[..0] == [];
    for i := 0 to |callbacks|
      invariant w.bytes == old(w.bytes) + Bin(CallbackWords(callbacks[..i]))
    {
      var record := [Low(callbacks[i].event), Low(callbacks[i].func)];
      AppendMore(old(w.bytes), CallbackWords(callbacks[..i]), record);
      assert callbacks[..i + 1][..i] == callbacks[..i];
      w.Append(record);
    }
    assert callbacks[..|callbacks|] == callbacks;
  }

  method WriteProvided(w: Writer, names: seq<Text>, base: nat, positions: seq<Addr>, events: seq<Text>)
    requires base + |events| <= |names| && |positions| == |events|
    requires forall k :: 0 <= k < |events| ==>
                 positions[k] == Low(Start(names, base + k)) && names[base + k] == events[k]
    modifies w
    ensures w.bytes == old(w.bytes) + Bin(ProvidedWords(names, base, |events|))
  {
    hide Bin, Low, Start;
    EmptyBin();
    for i := 0 to |events|
      invariant w.bytes == old(w.bytes) + Bin(ProvidedWords(names, base, i))
    {
      var record := [positions[i], Low(|events[i]|)];
      AppendMore(old(w.bytes), ProvidedWords(names, base, i), record);
      w.Append(record);
    }
  }

  // ----- The file -----

  /** The positions of all groups of names. */
  datatype Positions = Positions(dependencies: seq<Addr>, imports: seq<Addr>, depended: seq<Addr>, exports: seq<Addr>,
                                 events: seq<Addr>)

  ghost predicate PositionsAre(positions: seq<Addr>, names: seq<Text>, base: nat, n: nat) {
    && base + n <= |names| && |positions| == n
    && forall k :: 0 <= k < n ==> positions[k] == Low(Start(names, base + k))
  }

  lemma PositionsKept(positions: seq<Addr>, x: seq<Text>, y: seq<Text>, base: nat, n: nat)
    requires PositionsAre(positions, x, base, n)
    ensures PositionsAre(positions, x + y, base, n)
  {
    hide Start, Low;
    forall k | 0 <= k < n
      ensures positions[k] == Low(Start(x + y, base + k))
    {
      StartKept(x, y, base + k);
    }
  }

  ghost predicate AllPositions(p: Positions, c: Context)
    requires ExportsKnown(c)
  {
    var names := AllNames(c);
    && PositionsAre(p.dependencies, names, 0, |c.dependencies|)
      && PositionsAre(p.imports, names, ImportBase(c), |c.imports|)
    && PositionsAre(p.depended, names, EventBase(c), |c.dependencyEvents|)
      && PositionsAre(p.exports, names, ExportBase(c), |c.exports|)
    && PositionsAre(p.events, names, ProvidedBase(c), |c.events|)
  }

  /** One more group of names. */
  method WriteGroup(w: Writer, names: seq<Text>, ghost before: seq<Text>, start: nat) returns (positions: seq<Addr>)
    requires start <= |w.bytes| && w.bytes[start..] == Concat(before)
    modifies w
    ensures start <= |w.bytes| && w.bytes[start..] == Concat(before + names)
            && w.bytes[..start] == old(w.bytes)[..start]
    ensures PositionsAre(positions, before + names, |before|, |names|)
  {
    hide Start, Low, Concat;
    positions := AppendNames(w, names, before, start);
    ConcatBoth(before, names);
    assert w.bytes[start..] == old(w.bytes)[start..] + Concat(names);
  }

  method WriteStrings(w: Writer, c: Context) returns (p: Positions)
    requires ExportsKnown(c)
    modifies w
    ensures w.bytes == old(w.bytes) + Concat(AllNames(c)) && AllPositions(p, c)
  {
    hide Concat, PositionsAre;
    var start := |w.bytes|;
    assert w.bytes[start..] == [] == Concat([]) by { EmptyConcat(); }
    var g1, g2, g3, g4, g5 := c.dependencies, NamesOf(c.imports), NamesOf(c.dependencyEvents), ExportNames(c), c.events;
    assert [] + g1 == g1;
    var p1 := WriteGroup(w, g1, [], start);
    var p2 := WriteGroup(w, g2, g1, start);
    var p3 := WriteGroup(w, g3, g1 + g2, start);
    var p4 := WriteGroup(w, g4, g1 + g2 + g3, start);
    var p5 := WriteGroup(w, g5, g1 + g2 + g3 + g4, start);
    PositionsKept(p1, g1, g2, 0, |g1|);
    PositionsKept(p1, g1 + g2, g3, 0, |g1|);
    PositionsKept(p1, g1 + g2 + g3, g4, 0, |g1|);
    PositionsKept(p1, g1 + g2 + g3 + g4, g5, 0, |g1|);
    PositionsKept(p2, g1 + g2, g3, |g1|, |g2|);
    PositionsKept(p2, g1 + g2 + g3, g4, |g1|, |g2|);
    PositionsKept(p2, g1 + g2 + g3 + g4, g5, |g1|, |g2|);
    PositionsKept(p3, g1 + g2 + g3, g4, |g1 + g2|, |g3|);
    PositionsKept(p3, g1 + g2 + g3 + g4, g5, |g1 + g2|, |g3|);
    PositionsKept(p4, g1 + g2 + g3 + g4, g5, |g1 + g2 + g3|, |g4|);
    p := Positions(p1, p2, p3, p4, p5);
    assert w.bytes == w.bytes[..start] + w.bytes[start..];
  }

  lemma EmptyConcat()
    ensures Concat([]) == []
  {
  }

  /** The header, with the size of the string table to come. */
  function Unsized(c: Context): (r: seq<Addr>)
    ensures |r| == 10
  {
    [Low(|c.sections|), Low(|c.dependencies|), Low(|c.imports|), Low(|c.dependencyEvents|), Low(|c.replacements|),
     Low(|c.exports|), Low(|c.callbacks|), Low(|c.events|), Low(|c.hooks|), 0]
  }

  /** Patching the last word of a header that was appended. */
  lemma PatchLast(pre: seq<Byte>, words: seq<Addr>, x: Addr, y: Addr, post: seq<Byte>)
    ensures var data, at := pre + Bin(words + [x]) + post, |pre| + 4 * |words|;
            at + 4 <= |data| && data[..at] + Split(y) + data[at + 4..] == pre + Bin(words + [y]) + post
  {
    hide Bin, Split;
    BinConcat(words, [x]);
    BinConcat(words, [y]);
    BinOne(x);
    BinOne(y);
    var data, at := pre + Bin(words + [x]) + post, |pre| + 4 * |words|;
    assert data == (pre + Bin(words)) + Split(x) + post;
    assert data[..at] == pre + Bin(words) && data[at + 4..] == post;
    assert pre + Bin(words) + Split(y) == pre + Bin(words + [y]);
  }

  lemma BinOne(x: Addr)
    ensures Bin([x]) == Split(x)
  {
    EmptyBin();
  }

  /** The headers and the string table. */
  method WriteHead(w: Writer, c: Context) returns (p: Positions)
    requires ExportsKnown(c) && w.bytes == []
    modifies w
    ensures w.bytes == MAGIC + Bin([1]) + Bin(SubHeader(c)) + StringTable(AllNames(c)) && AllPositions(p, c)
  {
    hide Bin, Concat, AllNames, AllPositions, Split, Low;
    w.AppendText(MAGIC);
    w.Append([1]);
    var subHeader := |w.bytes|;
    w.Append(Unsized(c));
    var start := |w.bytes|;
    p := WriteStrings(w, c);
    var padding := AlignUp(|w.bytes| - start) - (|w.bytes| - start);
    w.AppendText(Zeros(padding));
    assert w.bytes == (MAGIC + Bin([1])) + Bin(Unsized(c)) + StringTable(AllNames(c));
    var size := Low(|w.bytes| - start);
    SizePatched(c, MAGIC + Bin([1]), StringTable(AllNames(c)));
    w.Patch(subHeader + 36, size);
  }

  lemma SizePatched(c: Context, pre: seq<Byte>, strings: seq<Byte>)
    requires ExportsKnown(c) && strings == StringTable(AllNames(c))
    ensures var data, at := pre + Bin(Unsized(c)) + strings, |pre| + 36;
            at + 4 <= |data| && data[..at] + Split(Low(|strings|)) + data[at + 4..] == pre + Bin(SubHeader(c)) + strings
  {
    hide Bin, Split, Low, AllNames, StringTable;
    var words := Unsized(c)[..9];
    assert Unsized(c) == words + [0] && SubHeader(c) == words + [Low(|strings|)];
    PatchLast(pre, words, 0, Low(|strings|), strings);
  }

  /** `symbols_to_bin_v1`. */
  method SymbolsToBin(c: Context, l: Layout, pad: nat -> Addr) returns (bytes: seq<Byte>)
    requires Printable(c, l)
    ensures bytes == Print(c, l, pad)
  {
    hide Bin, AllNames, SubHeader, StringTable, AllPositions, SectionsWords, DependencyWords, NamedWords, PatchWords,
         ExportWords, CallbackWords, ProvidedWords, RelocsPrintable;
    var w := new Writer();
    var p := WriteHead(w, c);
    ghost var head := w.bytes;
    var ok := WriteSections(w, c, l);
    if !ok {
      return [];
    }
    WriteTables(w, c, l, p, pad, head);
    bytes := w.bytes;
  }

  /** The tables after the sections. */
  method WriteTables(w: Writer, c: Context, l: Layout, p: Positions, pad: nat -> Addr, ghost head: seq<Byte>)
    requires Printable(c, l) && AllPositions(p, c) && w.bytes == head + Bin(SectionsWords(c, l, |c.sections|))
    modifies w
    ensures w.bytes == head + Bin(Tables(c, l, pad))
  {
    hide Bin, AllNames, SectionsWords, DependencyWords, NamedWords, PatchWords, ExportWords, CallbackWords,
         ProvidedWords, Start, Low;
    var names := AllNames(c);
    GroupsListed(c);
    ghost var t0 := SectionsWords(c, l, |c.sections|);
    WriteDependencies(w, names, p.dependencies, |c.dependencies|, pad);
    ghost var t1 := t0 + DependencyWords(names, |c.dependencies|, pad);
    AppendMore(head, t0, DependencyWords(names, |c.dependencies|, pad));
    WriteNamed(w, names, ImportBase(c), p.imports, c.imports);
    ghost var t2 := t1 + NamedWords(names, ImportBase(c), c.imports, |c.imports|);
    AppendMore(head, t1, NamedWords(names, ImportBase(c), c.imports, |c.imports|));
    WriteNamed(w, names, EventBase(c), p.depended, c.dependencyEvents);
    ghost var t3 := t2 + NamedWords(names, EventBase(c), c.dependencyEvents, |c.dependencyEvents|);
    AppendMore(head, t2, NamedWords(names, EventBase(c), c.dependencyEvents, |c.dependencyEvents|));
    WritePatches(w, c.replacements);
    ghost var t4 := t3 + PatchWords(c.replacements);
    AppendMore(head, t3, PatchWords(c.replacements));
    WriteExports(w, names, ExportBase(c), p.exports, c);
    ghost var t5 := t4 + ExportWords(names, ExportBase(c), c.exports, |c.exports|);
    AppendMore(head, t4, ExportWords(names, ExportBase(c), c.exports, |c.exports|));
    WriteCallbacks(w, c.callbacks);
    ghost var t6 := t5 + CallbackWords(c.callbacks);
    AppendMore(head, t5, CallbackWords(c.callbacks));
    WriteProvided(w, names, ProvidedBase(c), p.events, c.events);
    ghost var t7 := t6 + ProvidedWords(names, ProvidedBase(c), |c.events|);
    AppendMore(head, t6, ProvidedWords(names, ProvidedBase(c), |c.events|));
    WritePatches(w, c.hooks);
    AppendMore(head, t7, PatchWords(c.hooks));
  }

  lemma GroupsListed(c: Context)
    requires ExportsKnown(c)
    ensures var names := AllNames(c);
            && |names| == ProvidedBase(c) + |c.events|
            && (forall k :: 0 <= k < |c.exports| ==> names[ExportBase(c) + k] == c.functions[c.exports[k]].name)
            && (forall k :: 0 <= k < |c.events| ==> names[ProvidedBase(c) + k] == c.events[k])
  {
  }
}
