/** The relocation table of a compressed fragment, from its bytes to the sorted list that
    the translator walks, and the pass that points word relocations at other sections. */
module FragmentTable {
  import opened Machine
  import opened Halves
  import opened FragmentRelocs

  /** The bytes `FRAGMENT`. */
  const MAGIC: seq<Byte> := [0x46, 0x52, 0x41, 0x47, 0x4D, 0x45, 0x4E, 0x54]

  function KindOf(kind: nat): Option<Kind> {
    match kind
    case 2 => Some(Word32)
    case 4 => Some(Jump26)
    case 5 => Some(Hi16)
    case 6 => Some(Lo16)
    case _ => None
  }

  /** A table entry, unless its kind is unknown or it lies outside the `ram` bytes of code. */
  function Kept(body: seq<Byte>, ram: nat, entry: Addr): Option<Raw>
    requires ram <= |body|
  {
    var kind, at := KindOf((entry / 0x100_0000) % 0x80), entry % 0x100_0000;
    if kind.None? || at + 4 > ram then None else Some(Raw(kind.value, at, BigWordAt(body, at)))
  }

  /** The first `n` entries of the table at `at` that are kept, in order. */
  function RawsOf(body: seq<Byte>, ram: nat, at: nat, n: nat): (r: seq<Raw>)
    requires ram <= |body| && at + 4 * n <= |body|
    ensures |r| <= n && forall k :: 0 <= k < |r| ==> r[k].at + 4 <= ram
  {
    if n == 0 then []
    else
      var before := RawsOf(body, ram, at, n - 1);
      match Kept(body, ram, BigWordAt(body, at + 4 * (n - 1)))
      case None => before
      case Some(raw) => before + [raw]
  }

  /** What the second pass emits. */
  function Emitted(raws: seq<Raw>, vram: Addr): (r: seq<FragmentReloc>)
    ensures |r| == |raws|
    ensures forall i :: 0 <= i < |raws| ==>
                r[i] == FragmentReloc(Add(vram, raws[i].at), raws[i].kind, OffsetOf(raws, i, vram))
  {
    seq(|raws|, i requires 0 <= i < |raws| => FragmentReloc(Add(vram, raws[i].at), raws[i].kind,
                                                            OffsetOf(raws, i, vram)))
  }

  // ----- The order of the list -----

  predicate InOrder(relocs: seq<FragmentReloc>) {
    forall i, j :: 0 <= i < j < |relocs| ==> relocs[i].address <= relocs[j].address
  }

  /** `sorted` is `relocs` by address, those at one address in any order. */
  predicate IsSorting(relocs: seq<FragmentReloc>, sorted: seq<FragmentReloc>) {
    InOrder(sorted) && multiset(sorted) == multiset(relocs)
  }

  method Sort(relocs: seq<FragmentReloc>) returns (sorted: seq<FragmentReloc>)
    ensures IsSorting(relocs, sorted)
  {
    sorted := [];
    for i := 0 to |relocs|
      invariant IsSorting(relocs[..i], sorted)
    {
      var k := |sorted|;
      while k > 0 && relocs[i].address < sorted[k - 1].address
        invariant 0 <= k <= |sorted| && forall m :: k <= m < |sorted| ==> relocs[i].address < sorted[m].address
      {
        k := k - 1;
      }
      assert relocs[..i + 1] == relocs[..i] + [relocs[i]];
      InsertedIsSorting(relocs[..i], sorted, relocs[i], k);
      sorted := sorted[..k] + [relocs[i]] + sorted[k..];
    }
    assert relocs[..|relocs|] == relocs;
  }

  lemma InsertedIsSorting(relocs: seq<FragmentReloc>, sorted: seq<FragmentReloc>, r: FragmentReloc, k: nat)
    requires IsSorting(relocs, sorted) && k <= |sorted| && (k > 0 ==> sorted[k - 1].address <= r.address)
    requires forall m :: k <= m < |sorted| ==> r.address < sorted[m].address
    ensures IsSorting(relocs + [r], sorted[..k] + [r] + sorted[k..])
  {
    hide InOrder;
    InsertedInOrder(sorted, r, k);
    InsertedHolds(relocs, sorted, r, k);
  }

  lemma InsertedHolds<T>(s: seq<T>, t: seq<T>, r: T, k: nat)
    requires multiset(s) == multiset(t) && k <= |t|
    ensures multiset(t[..k] + [r] + t[k..]) == multiset(s + [r])
  {
    assert t == t[..k] + t[k..];
    calc {
      multiset(t[..k] + [r] + t[k..]);
      multiset(t[..k]) + multiset{r} + multiset(t[k..]);
      multiset(t) + multiset{r};
      multiset(s + [r]);
    }
  }

  lemma InsertedInOrder(sorted: seq<FragmentReloc>, r: FragmentReloc, k: nat)
    requires InOrder(sorted) && k <= |sorted| && (k > 0 ==> sorted[k - 1].address <= r.address)
    requires forall m :: k <= m < |sorted| ==> r.address < sorted[m].address
    ensures InOrder(sorted[..k] + [r] + sorted[k..])
  {
    var s := sorted[..k] + [r] + sorted[k..];
    forall i, j | 0 <= i < j < |s|
      ensures s[i].address <= s[j].address
    {
      assert s[i] == (if i < k then sorted[i] else if i == k then r else sorted[i - 1]);
      assert s[j] == (if j < k then sorted[j] else if j == k then r else sorted[j - 1]);
      assert k > 0 && i < k ==> sorted[i].address <= sorted[k - 1].address;
    }
  }

  lemma SortingKeeps(relocs: seq<FragmentReloc>, sorted: seq<FragmentReloc>, r: FragmentReloc)
    requires IsSorting(relocs, sorted)
    ensures r in sorted <==> r in relocs
  {
    assert r in multiset(sorted) <==> r in multiset(relocs);
  }

  /** Parses the header and the table: what it returns is exactly the kept entries,
      paired in the order of the table, then sorted. */
  method ParseFragmentRelocs(body: seq<Byte>, vram: Addr) returns (relocs: Option<seq<FragmentReloc>>)
    requires |body| <= WORD - 4
    ensures relocs.Some? <==> IsFragment(body)
    ensures relocs.Some? ==> IsSorting(Emitted(TableOf(body), vram), relocs.value)
  {
    hide BigWordAt, OffsetOf;
    if |body| < 0x20 || body[8..16] != MAGIC { return None; }
    var at: nat, ram: nat := BigWordAt(body, 0x14), BigWordAt(body, 0x1C);
    if at > |body| || ram > |body| || at + 4 > |body| { return None; }
    var n: nat := BigWordAt(body, at);
    if at + 4 + 4 * n > |body| { return None; }
    var raws: seq<Raw> := [];
    for i := 0 to n
      invariant raws == RawsOf(body, ram, at + 4, i)
    {
      var raw := Kept(body, ram, BigWordAt(body, at + 4 + 4 * i));
      if raw.Some? {
        raws := raws + [raw.value];
      }
    }
    var emitted := EmitRelocs(raws, vram);
    assert emitted == Emitted(raws, vram);
    var sorted := Sort(emitted);
    relocs := Some(sorted);
  }

  predicate IsFragment(body: seq<Byte>) {
    && 0x20 <= |body| && body[8..16] == MAGIC
    && BigWordAt(body, 0x1C) <= |body| && BigWordAt(body, 0x14) + 4 <= |body|
    && BigWordAt(body, 0x14) + 4 + 4 * BigWordAt(body, BigWordAt(body, 0x14)) <= |body|
  }

  function TableOf(body: seq<Byte>): seq<Raw>
    requires IsFragment(body)
  {
    var at := BigWordAt(body, 0x14);
    RawsOf(body, BigWordAt(body, 0x1C), at + 4, BigWordAt(body, at))
  }

  /** From the table to the sorted list: a HI16 and the LO16 that the table puts after it
      are both in the list, wherever their addresses put them, with the offset of the one
      place they name; loaded anywhere they rebuild that place. */
  lemma PairsSurviveSorting(raws: seq<Raw>, sorted: seq<FragmentReloc>, i: nat, vram: Addr, base: Addr)
    requires IsSorting(Emitted(raws, vram), sorted)
    requires i < |raws| && raws[i].kind.Hi16? && NextLow(raws, i + 1) < |raws|
    requires forall k :: i <= k < NextLow(raws, i + 1) && raws[k].kind.Hi16? ==> ImmOf(raws[k]) == ImmOf(raws[i])
    ensures var high, low := raws[i], raws[NextLow(raws, i + 1)];
            var offset := Minus(Joined(ImmOf(high), ImmOf(low)), vram);
            && FragmentReloc(Add(vram, high.at), Hi16, offset) in sorted
            && FragmentReloc(Add(vram, low.at), Lo16, offset) in sorted
            && Loaded(base, offset, offset) == Add(base, offset)
  {
    hide Joined, Minus, Loaded, Add, InOrder, NextLow, OffsetOf;
    PairsRelocate(raws, i, vram, base);
    var relocs, j := Emitted(raws, vram), NextLow(raws, i + 1);
    assert relocs[i] in relocs && relocs[j] in relocs;
    SortingKeeps(relocs, sorted, relocs[i]);
    SortingKeeps(relocs, sorted, relocs[j]);
  }

  // ----- Targets in other sections -----

  datatype Placed = Placed(ram: Addr, size: Addr)

  /** A relocation with the section it refers to. */
  datatype Targeted = Targeted(reloc: FragmentReloc, section: nat)

  /** The place is in the section; the end of the section is computed in 32 bits. */
  predicate Contains(s: Placed, a: Addr) {
    s.size != 0 && s.ram <= a < Add(s.ram, s.size)
  }

  predicate SectionsOk(t: Targeted, sections: seq<Placed>) {
    t.section < |sections|
  }

  /** The address a relocation refers to with every section at its link address. */
  function TargetOf(t: Targeted, sections: seq<Placed>): Addr
    requires SectionsOk(t, sections)
  {
    Add(sections[t.section].ram, t.reloc.offset)
  }

  /** `r` is `t` with the first section that contains its target, if it is a word
      relocation and there is one. */
  ghost predicate IsRetargeted(t: Targeted, r: Targeted, sections: seq<Placed>)
    requires SectionsOk(t, sections)
  {
    var a := TargetOf(t, sections);
    if t.reloc.kind.Word32? && exists k :: 0 <= k < |sections| && Contains(sections[k], a) then
      && r.section < |sections| && Contains(sections[r.section], a)
      && (forall k :: 0 <= k < r.section ==> !Contains(sections[k], a))
      && r.reloc == t.reloc.(offset := Minus(a, sections[r.section].ram))
    else r == t
  }

  /** The pass over one section, whose relocations all refer to itself before it. */
  method ResolveTargets(relocs: array<Targeted>, sections: seq<Placed>)
    requires forall i :: 0 <= i < relocs.Length ==> SectionsOk(relocs[i], sections)
    modifies relocs
    ensures forall i :: 0 <= i < relocs.Length ==> IsRetargeted(old(relocs[i]), relocs[i], sections)
  {
    hide Contains, Minus;
    for i := 0 to relocs.Length
      invariant forall k :: 0 <= k < i ==> IsRetargeted(old(relocs[k]), relocs[k], sections)
      invariant forall k :: i <= k < relocs.Length ==> relocs[k] == old(relocs[k])
    {
      if relocs[i].reloc.kind.Word32? {
        var a := TargetOf(relocs[i], sections);
        var k := 0;
        while k < |sections| && !Contains(sections[k], a)
          invariant k <= |sections| && forall m :: 0 <= m < k ==> !Contains(sections[m], a)
        {
          k := k + 1;
        }
        if k < |sections| {
          relocs[i] := Targeted(relocs[i].reloc.(offset := Minus(a, sections[k].ram)), k);
        }
      }
    }
  }

  /** The pass keeps every address and every target, and leaves a word relocation with an
      offset inside the section it names, so that it moves with that section. */
  lemma RetargetedKeepsTarget(t: Targeted, r: Targeted, sections: seq<Placed>)
    requires SectionsOk(t, sections) && IsRetargeted(t, r, sections)
    ensures SectionsOk(r, sections) && TargetOf(r, sections) == TargetOf(t, sections)
    ensures r.reloc.address == t.reloc.address && r.reloc.kind == t.reloc.kind
    ensures t.reloc.kind.Word32?
            && (exists k :: 0 <= k < |sections| && Contains(sections[k], TargetOf(t, sections))) ==>
              r.reloc.offset < sections[r.section].size
  {
    hide Minus;
    if r != t {
      AddMinus(TargetOf(t, sections), sections[r.section].ram);
    }
    if t.reloc.kind.Word32? && exists k :: 0 <= k < |sections| && Contains(sections[k], TargetOf(t, sections)) {
      OffsetInside(sections[r.section], TargetOf(t, sections));
    }
  }

  lemma OffsetInside(s: Placed, a: Addr)
    requires Contains(s, a)
    ensures Minus(a, s.ram) < s.size
  {
  }
}
