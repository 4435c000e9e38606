/** The cursors of the second pass refine plain lookups: the label iterator drops
    exactly the label of the current word, the forward-only relocation cursor shows
    every instruction and every copied delay slot the relocation at its own address,
    and the emitted text is the statements of `Lines`. */
module WalkFacts {
  import opened Machine
  import opened Emitted
  import opened Translator
  import opened Points
  import opened LabelWalk

  // ----- Relocations -----

  /** Everything the cursor has passed lies before `a`. */
  ghost predicate CursorAt(f: Func, cursor: nat, a: Addr) {
    forall j :: 0 <= j < cursor && j < |f.relocs| ==> f.relocs[j].address < a
  }

  lemma {:induction false} AdvanceStops(f: Func, cursor: nat, a: Addr)
    requires CursorAt(f, cursor, a)
    ensures CursorAt(f, Advance(f, cursor, a), a)
    ensures var r := Advance(f, cursor, a); r + 1 < |f.relocs| ==> a <= f.relocs[r].address
    decreases |f.relocs| - cursor
  {
    if cursor + 1 < |f.relocs| && f.relocs[cursor].address < a {
      AdvanceStops(f, cursor + 1, a);
    }
  }

  lemma LookupIs(f: Func, j: nat)
    requires RelocsSorted(f) && j < |f.relocs|
    ensures RelocLookup(f, f.relocs[j].address) == Some(f.relocs[j])
  {
    var a := f.relocs[j].address;
    var k :| 0 <= k < |f.relocs| && f.relocs[k].address == a && RelocLookup(f, a) == Some(f.relocs[k]);
    assert k == j;
  }

  /** An instruction sees the relocation at its own address, or none. */
  lemma InstructionSeesItsReloc(f: Func, cursor: nat, a: Addr)
    requires RelocsSorted(f) && CursorAt(f, cursor, a)
    requires cursor + 1 < |f.relocs| ==> a <= f.relocs[cursor].address
    ensures RelocSeen(f, cursor, a) == RelocLookup(f, a)
  {
    if exists j :: 0 <= j < |f.relocs| && f.relocs[j].address == a {
      var j :| 0 <= j < |f.relocs| && f.relocs[j].address == a;
      LookupIs(f, j);
      assert j <= cursor;
    }
  }

  /** The copy of a delay slot sees the relocation at the slot's address, or none. */
  lemma SlotSeesItsReloc(f: Func, cursor: nat, a: Addr)
    requires a + 4 < WORD && RelocsOk(f) && Aligned(f, a) && CursorAt(f, cursor, a)
    requires cursor + 1 < |f.relocs| ==> a <= f.relocs[cursor].address
    ensures RelocSeen(f, SlotCursor(f, cursor, a + 4), a + 4) == RelocLookup(f, a + 4)
  {
    var next := SlotCursor(f, cursor, a + 4);
    if next == cursor {
      assert cursor + 1 < |f.relocs| ==> a + 4 <= f.relocs[cursor].address;
      InstructionSeesItsReloc(f, cursor, a + 4);
    } else {
      assert f.relocs[cursor].address == a by {
        assert (f.relocs[cursor].address - f.vram) % 4 == 0;
      }
      assert f.relocs[next].address > a && (f.relocs[next].address - f.vram) % 4 == 0;
      assert a + 4 <= f.relocs[next].address;
      assert CursorAt(f, next, a + 4);
      InstructionSeesItsReloc(f, next, a + 4);
    }
  }

  lemma {:induction false} CursorFollows(f: Func, i: nat)
    requires Fits(f) && i <= |f.instrs|
    ensures CursorAt(f, WalkAt(f, i).cursor, AddrAt(f, i))
    decreases i
  {
    hide WalkEmission, DropsLabel;
    if i > 0 {
      CursorFollows(f, i - 1);
      AdvanceStops(f, WalkAt(f, i - 1).cursor, AddrAt(f, i - 1));
    }
  }

  /** The cursor at which the second pass translates instruction `i`. */
  ghost function CursorFor(f: Func, i: nat): nat
    requires Fits(f) && i < |f.instrs|
  {
    Advance(f, WalkAt(f, i).cursor, AddrAt(f, i))
  }

  /** Relocations being in order, every instruction of the second pass sees the one at its
      own address, or none. */
  lemma WalkSeesItsReloc(f: Func, i: nat)
    requires Fits(f) && RelocsSorted(f) && i < |f.instrs|
    ensures RelocSeen(f, CursorFor(f, i), AddrAt(f, i)) == RelocLookup(f, AddrAt(f, i))
  {
    hide WalkAt;
    CursorFollows(f, i);
    AdvanceStops(f, WalkAt(f, i).cursor, AddrAt(f, i));
    InstructionSeesItsReloc(f, CursorFor(f, i), AddrAt(f, i));
  }

  /** The copy of its delay slot does exactly if no two relocations lie on the instruction
      before a slot that has one: the cursor moves by one at most. */
  lemma SlotSeesItsRelocExactly(f: Func, i: nat)
    requires Fits(f) && RelocsSorted(f) && i + 1 < |f.instrs|
    ensures var slot := AddrAt(f, i + 1);
            RelocSeen(f, SlotCursor(f, CursorFor(f, i), slot), slot) == RelocLookup(f, slot)
            <==> forall j :: 2 <= j < |f.relocs| && f.relocs[j].address == slot ==>
                   f.relocs[j - 2].address < AddrAt(f, i)
  {
    hide WalkAt, Advance, RelocLookup;
    CursorFollows(f, i);
    AdvanceStops(f, WalkAt(f, i).cursor, AddrAt(f, i));
    var c, slot := CursorFor(f, i), AddrAt(f, i + 1);
    var next := SlotCursor(f, c, slot);
    if exists j :: 0 <= j < |f.relocs| && f.relocs[j].address == slot {
      var j :| 0 <= j < |f.relocs| && f.relocs[j].address == slot;
      LookupIs(f, j);
      assert j >= c;
      assert forall k :: 0 <= k < |f.relocs| && f.relocs[k].address == slot ==> k == j;
      if j >= c + 2 {
        assert f.relocs[j - 2].address >= f.relocs[c].address >= AddrAt(f, i);
        assert f.relocs[c + 1].address < slot && f.relocs[c].address < slot;
      } else if j == c + 1 {
        assert f.relocs[c].address < slot;
      }
    } else {
      NoReloc(f, slot);
    }
  }

  /** A jump and its slot, with relocations at the jump, within it, and at the slot. */
  function TwoRelocsOnJump(): Func {
    Func(0x8000_0000, 0x8000_0000, [Jump(0x8000_0000), Plain((reloc: Option<Reloc>, g: Guest) => g)], {}, [], false,
         [Reloc(0x8000_0000, 0, 0), Reloc(0x8000_0002, 0, 0), Reloc(0x8000_0004, 0, 0)], 0x8000_0000, 8, {}, {}, false)
  }

  /** The copy of that slot does not see the relocation at its address. */
  lemma SlotMissesItsReloc()
    ensures var f := TwoRelocsOnJump();
            && Fits(f) && RelocsSorted(f) && AddrAt(f, 1) == 0x8000_0004
            && RelocLookup(f, 0x8000_0004) == Some(Reloc(0x8000_0004, 0, 0))
            && RelocSeen(f, SlotCursor(f, CursorFor(f, 0), 0x8000_0004), 0x8000_0004) == None
  {
    hide WalkAt, Advance, RelocSeen;
    var f := TwoRelocsOnJump();
    assert f.relocs[2].address == AddrAt(f, 1) && f.relocs[0].address == AddrAt(f, 0);
    LookupIs(f, 2);
    SlotSeesItsRelocExactly(f, 0);
    SeesOwnOrNone(f, SlotCursor(f, CursorFor(f, 0), 0x8000_0004), 0x8000_0004);
  }

  lemma SeesOwnOrNone(f: Func, cursor: nat, a: Addr)
    requires RelocsSorted(f)
    ensures RelocSeen(f, cursor, a) == None || RelocSeen(f, cursor, a) == RelocLookup(f, a)
  {
    hide RelocLookup;
    if cursor < |f.relocs| {
      LookupIs(f, cursor);
    }
  }

  lemma NoReloc(f: Func, a: Addr)
    requires forall j :: 0 <= j < |f.relocs| ==> f.relocs[j].address != a
    ensures RelocLookup(f, a) == None
  {
  }

  /** The cursor handed down to a copy `depth` delay slots on. */
  ghost function CopyCursor(f: Func, i: nat, depth: nat): nat
    requires Fits(f) && i + depth < |f.instrs|
  {
    if depth == 0 then CursorFor(f, i) else SlotCursor(f, CopyCursor(f, i, depth - 1), AddrAt(f, i + depth))
  }

  /** With relocations on whole words, every copy sees its own, however deeply delay slots
      are nested. */
  lemma {:induction false} CopySeesItsReloc(f: Func, i: nat, depth: nat)
    requires Fits(f) && RelocsOk(f) && i + depth < |f.instrs|
    ensures Settled(f, i + depth, CopyCursor(f, i, depth))
    ensures RelocSeen(f, CopyCursor(f, i, depth), AddrAt(f, i + depth)) == RelocLookup(f, AddrAt(f, i + depth))
  {
    hide WalkAt, Advance, RelocLookup;
    if depth == 0 {
      CursorFollows(f, i);
      AdvanceStops(f, WalkAt(f, i).cursor, AddrAt(f, i));
    } else {
      CopySeesItsReloc(f, i, depth - 1);
      StaysSettled(f, i + depth - 1, CopyCursor(f, i, depth - 1));
    }
    InstructionSeesItsReloc(f, CopyCursor(f, i, depth), AddrAt(f, i + depth));
  }

  lemma StaysSettled(f: Func, i: nat, cursor: nat)
    requires Fits(f) && RelocsOk(f) && i + 1 < |f.instrs| && Settled(f, i, cursor)
    ensures Settled(f, i + 1, SlotCursor(f, cursor, AddrAt(f, i + 1)))
  {
    var next, a := SlotCursor(f, cursor, AddrAt(f, i + 1)), AddrAt(f, i);
    if next != cursor {
      assert (f.relocs[cursor].address - f.vram) % 4 == 0;
      assert f.relocs[cursor].address == a;
      assert (f.relocs[next].address - f.vram) % 4 == 0;
    }
  }

  // ----- One instruction -----

  ghost predicate Settled(f: Func, i: nat, cursor: nat)
    requires Fits(f) && i < |f.instrs|
  {
    && CursorAt(f, cursor, AddrAt(f, i))
    && (cursor + 1 < |f.relocs| ==> AddrAt(f, i) <= f.relocs[cursor].address)
  }

  /** The emission of the copied delay slot of `i`. */
  ghost function SlotCopy(f: Func, i: nat): Emission
    requires Fits(f) && i < |f.instrs| && HasSlot(f, i)
  {
    var a := AddrAt(f, i + 1);
    Emission(true, [Comment(a), Do(SlotEffect(f, i), RelocLookup(f, a))], false, false)
  }

  lemma SlotTextIs(f: Func, i: nat, links: nat, cursor: nat)
    requires Fits(f) && RelocsOk(f) && i < |f.instrs| && HasSlot(f, i) && Settled(f, i, cursor)
    ensures SlotText(f, i, links, cursor) == SlotCopy(f, i)
  {
    assert Aligned(f, AddrAt(f, i));
    SlotSeesItsReloc(f, cursor, AddrAt(f, i));
    assert AddrAt(f, i + 1) == AddrAt(f, i) + 4;
  }

  lemma StmtsConcat(x: seq<Line>, y: seq<Line>)
    ensures Stmts(x + y) == Stmts(x) + Stmts(y)
  {
  }

  lemma SlotLinesThen(f: Func, i: nat, at: Point, rest: seq<Line>)
    requires Fits(f) && i < |f.instrs| && HasSlot(f, i)
    ensures Stmts(SlotLines(f, i, at) + rest) == SlotCopy(f, i).text + Stmts(rest)
  {
    StmtsConcat(SlotLines(f, i, at), rest);
    assert Stmts(SlotLines(f, i, at)) == SlotCopy(f, i).text;
  }

  lemma TreeTextIs(f: Func, i: nat, target: Addr)
    requires Fits(f) && i < |f.instrs| && HasSlot(f, i)
    ensures var e := BranchTree(f, i, SlotCopy(f, i), target);
            e.ok && !e.needsLink && !e.likely && e.text == Stmts(TreeLines(f, i, target))
  {
    SlotLinesThen(f, i, Point(Slot(AddrAt(f, i) + 4, Const(target)), None), TreeTail(f, i, target));
    assert Stmts(TreeTail(f, i, target)) == BranchText(f, i, target);
  }

  lemma CallTextIs(f: Func, i: nat, links: nat, dest: Dest)
    requires Fits(f) && i < |f.instrs| && HasSlot(f, i)
    ensures var e := CallTo(f, i, links, SlotCopy(f, i), dest);
            e.ok && !e.likely && e.text == Stmts(CallLines(f, i, links, dest))
            && e.needsLink == !(dest.Const? && dest.addr !in f.callResolves)
  {
    SlotLinesThen(f, i, Point(Slot(AddrAt(f, i) + 4, dest), Some(AddrAt(f, i) + 8)), CallTail(f, i, links, dest));
  }

  lemma TailcallTextIs(f: Func, i: nat, rs: Reg)
    requires Fits(f) && i < |f.instrs| && HasSlot(f, i)
    ensures var e := TailcallTo(SlotCopy(f, i), rs);
            e.ok && !e.needsLink && !e.likely && e.text == Stmts(TailcallLines(f, i, rs))
  {
  }

  lemma JumpToRaTextIs(f: Func, i: nat)
    requires Fits(f) && i < |f.instrs| && HasSlot(f, i)
    ensures var e := JumpToRa(f, SlotCopy(f, i));
            e.ok && !e.needsLink && !e.likely && e.text == Stmts(JumpToRaLines(f, i))
  {
    var a := AddrAt(f, i);
    var slot := SlotLines(f, i, Point(Captured(a + 4), None));
    assert Stmts(RaTail(f)) == ReturnText(f);
    SlotLinesThen(f, i, Point(Captured(a + 4), None), RaTail(f));
    StmtsConcat([Line(CaptureRa, Seq(a))], slot + RaTail(f));
  }

  lemma BlockTextIs(f: Func, i: nat, links: nat)
    requires Fits(f) && i < |f.instrs| && HasSlot(f, i) && f.instrs[i].Branch?
    ensures var b := f.instrs[i];
            var e := GuardedBlock(f, i, links, SlotCopy(f, i), b.target, b.link);
            e.ok && e.needsLink == NeedsLink(f, i) && e.text + [EndIf] == Stmts(BlockLines(f, i, links))
  {
    var b := f.instrs[i];
    if b.link && !Inside(f, b.target) {
      CallTextIs(f, i, links, Const(b.target));
      StmtsConcat(CallLines(f, i, links, Const(b.target)), [Line(EndIf, BodyExit(f, i))]);
    } else {
      TreeTextIs(f, i, b.target);
      StmtsConcat(TreeLines(f, i, b.target), [Line(EndIf, BodyExit(f, i))]);
    }
  }

  lemma TestTextIs(f: Func, i: nat, links: nat)
    requires Fits(f) && i < |f.instrs| && HasSlot(f, i) && f.instrs[i].Branch?
    ensures var b := f.instrs[i];
            Stmts(BranchLines(f, i, links))
            == (if b.link then [SetLink(RA, AddrAt(f, i) + 8)] else [])
              + ([If(b.cond)] + Stmts(BlockLines(f, i, links)))
  {
    hide BlockLines, Labels;
    var a, b := AddrAt(f, i), f.instrs[i];
    var block := BlockLines(f, i, links);
    var test := [Line(If(b.cond), if b.link then Point(Linked(a), None) else Seq(a))];
    StmtsConcat(test, block);
    StmtsConcat([Line(SetLink(RA, a + 8), Seq(a))], test + block);
  }

  lemma BranchTextIs(f: Func, i: nat, links: nat)
    requires Fits(f) && i < |f.instrs| && HasSlot(f, i) && f.instrs[i].Branch?
    ensures var b := f.instrs[i];
            var e := ConditionalBranch(f, i, links, SlotCopy(f, i), b.cond, b.target, b.likely, b.link);
            e.ok && e.needsLink == NeedsLink(f, i) && e.likely == b.likely && e.text == Stmts(BranchLines(f, i, links))
  {
    BlockTextIs(f, i, links);
    TestTextIs(f, i, links);
  }

  lemma LocalJalTextIs(f: Func, i: nat, target: Addr)
    requires Fits(f) && i < |f.instrs| && HasSlot(f, i)
    ensures var at := Point(Slot(AddrAt(f, i) + 4, Const(target)), None);
            SlotCopy(f, i).text + [Goto(Loc(target))]
              == Stmts(SlotLines(f, i, at) + [Line(Goto(Loc(target)), Seq(target))])
  {
    SlotLinesThen(f, i, Point(Slot(AddrAt(f, i) + 4, Const(target)), None), [Line(Goto(Loc(target)), Seq(target))]);
  }

  lemma JalTextIs(f: Func, i: nat, links: nat)
    requires Fits(f) && i < |f.instrs| && HasSlot(f, i) && f.instrs[i].Jal?
    ensures var e := JumpAndLink(f, i, links, SlotCopy(f, i), f.instrs[i].target);
            e.ok && e.needsLink == NeedsLink(f, i) && !e.likely && e.text == Stmts(BodyLines(f, i, links))
  {
    var a, target := AddrAt(f, i), f.instrs[i].target;
    var head := [Line(SetLink(RA, a + 8), Seq(a))];
    var rest;
    if Inside(f, target) {
      LocalJalTextIs(f, i, target);
      rest := SlotLines(f, i, Point(Slot(a + 4, Const(target)), None)) + [Line(Goto(Loc(target)), Seq(target))];
    } else {
      CallTextIs(f, i, links, Const(target));
      rest := CallLines(f, i, links, Const(target));
    }
    assert BodyLines(f, i, links) == head + rest;
    StmtsConcat(head, rest);
  }

  lemma JalrTextIs(f: Func, i: nat, links: nat)
    requires Fits(f) && i < |f.instrs| && HasSlot(f, i) && f.instrs[i].Jalr?
    ensures var e := JumpAndLinkRegister(f, i, links, SlotCopy(f, i), f.instrs[i].rd, f.instrs[i].rs);
            e.ok && e.needsLink == NeedsLink(f, i) && !e.likely && e.text == Stmts(BodyLines(f, i, links))
  {
    var a, rd, rs := AddrAt(f, i), f.instrs[i].rd, f.instrs[i].rs;
    var head := if rd != 0 then [Line(SetLink(rd, a + 8), Seq(a))] else [];
    if rd == RA {
      CallTextIs(f, i, links, FromReg(rs));
      StmtsConcat(head, CallLines(f, i, links, FromReg(rs)));
    } else {
      TailcallTextIs(f, i, rs);
      StmtsConcat(head, TailcallLines(f, i, rs));
    }
  }

  lemma TableTextIs(f: Func, i: nat, links: nat)
    requires Fits(f) && i < |f.instrs| && HasSlot(f, i) && f.instrs[i].TableJr?
    ensures var e := JumpThroughTable(SlotCopy(f, i), AddrAt(f, i), f.instrs[i].entries);
            e.ok && !e.needsLink && !e.likely && e.text == Stmts(BodyLines(f, i, links))
  {
    var a, entries := AddrAt(f, i), f.instrs[i].entries;
    SlotLinesThen(f, i, Point(Tabled(a + 4, a), None), [Line(Switch(a, entries), Point(Chosen(a, entries), None))]);
  }

  /** The body of an instruction, its slot being copied, is that of its lines. */
  lemma BodyTextIs(f: Func, i: nat, links: nat, cursor: nat, slot: Emission)
    requires Fits(f) && i < |f.instrs|
    requires IsControl(f.instrs[i]) ==> HasSlot(f, i) && slot == SlotCopy(f, i)
    requires RelocSeen(f, cursor, AddrAt(f, i)) == RelocLookup(f, AddrAt(f, i))
    ensures var e := InstructionBody(f, i, links, cursor, slot);
            e.ok && e.needsLink == NeedsLink(f, i) && e.likely == IsLikely(f, i)
            && e.text == Stmts(BodyLines(f, i, links))
  {
    match f.instrs[i]
    case Jump(target) =>
      if target != AddrAt(f, i) {
        TreeTextIs(f, i, target);
      }
    case Jal(_) => JalTextIs(f, i, links);
    case Jalr(_, _) => JalrTextIs(f, i, links);
    case Jr(rs) =>
      if rs == RA {
        JumpToRaTextIs(f, i);
      } else {
        TailcallTextIs(f, i, rs);
      }
    case TableJr(_, _) => TableTextIs(f, i, links);
    case Branch(_, _, _, _) => BranchTextIs(f, i, links);
    case _ =>
  }

  /** With no control transfer in its delay slot an instruction translates, and its
      text is that of its lines. */
  lemma InstructionTextIs(f: Func, i: nat, links: nat, cursor: nat)
    requires Fits(f) && SlotsOk(f) && RelocsOk(f) && i < |f.instrs| && Settled(f, i, cursor)
    ensures var e := Instruction(f, i, links, cursor);
            e.ok && e.needsLink == NeedsLink(f, i) && e.likely == IsLikely(f, i)
            && e.text == Stmts(CoreLines(f, i, links))
  {
    var slot := SlotText(f, i, links, cursor);
    if IsControl(f.instrs[i]) {
      SlotTextIs(f, i, links, cursor);
    }
    InstructionSeesItsReloc(f, cursor, AddrAt(f, i));
    BodyTextIs(f, i, links, cursor, slot);
    var note := Line(Comment(AddrAt(f, i)), Seq(AddrAt(f, i)));
    StmtsConcat([note], BodyLines(f, i, links));
  }

  // ----- The walk -----

  ghost predicate TextOk(f: Func) {
    && Fits(f) && SlotsOk(f) && RelocsOk(f)
    && forall l :: l in Labels(f) ==> Aligned(f, l)
  }

  /** Where the cursors stand when the walk reaches instruction `i`. */
  ghost predicate WalkIs(f: Func, i: nat)
    requires Fits(f) && SlotsOk(f) && i <= |f.instrs|
  {
    var w := WalkAt(f, i);
    && w.needsLink == (i > 0 && NeedsLink(f, i - 1))
    && w.inLikely == (i > 0 && IsLikely(f, i - 1))
    && w.links == CallsBefore(f, i) && w.likelies == LikeliesBefore(f, i)
    && LabelsLeftAre(f, i, w.labels)
    && CursorAt(f, w.cursor, AddrAt(f, i))
  }

  lemma EmissionIs(f: Func, i: nat)
    requires TextOk(f) && i < |f.instrs| && WalkIs(f, i)
    ensures var e := WalkEmission(f, i, WalkAt(f, i));
            && e.ok && e.needsLink == NeedsLink(f, i) && e.likely == IsLikely(f, i)
            && e.text == Stmts(CoreLines(f, i, CallsBefore(f, i)))
  {
    var w := WalkAt(f, i);
    AdvanceStops(f, w.cursor, AddrAt(f, i));
    InstructionTextIs(f, i, w.links, Advance(f, w.cursor, AddrAt(f, i)));
  }

  lemma WalkStep(f: Func, i: nat)
    requires TextOk(f) && i < |f.instrs| && WalkIs(f, i)
    ensures var w, a := WalkAt(f, i), AddrAt(f, i);
            WalkAt(f, i + 1) == Walk(
              if a in Labels(f) then w.labels - {a} else w.labels,
              Advance(f, w.cursor, a),
              NeedsLink(f, i),
              if w.needsLink then w.links + 1 else w.links,
              IsLikely(f, i),
              if w.inLikely then w.likelies + 1 else w.likelies)
  {
    EmissionIs(f, i);
    DropsItsLabel(f, i, WalkAt(f, i).labels);
  }

  lemma {:induction false} WalkFollows(f: Func, i: nat)
    requires TextOk(f) && i <= |f.instrs|
    ensures WalkIs(f, i)
    decreases i
  {
    if i == 0 {
      AllLabelsLeft(f);
    } else {
      WalkFollows(f, i - 1);
      WalkStep(f, i - 1);
      LabelsLeft(f, i - 1, WalkAt(f, i - 1).labels);
      AdvanceStops(f, WalkAt(f, i - 1).cursor, AddrAt(f, i - 1));
    }
  }

  lemma LabelLineIs(f: Func, i: nat)
    requires TextOk(f) && i < |f.instrs| && WalkIs(f, i)
    ensures LabelLine(WalkAt(f, i).labels, AddrAt(f, i)) == if AddrAt(f, i) in Labels(f)
            then [LabelHere(Loc(AddrAt(f, i)))] else []
  {
    DropsItsLabel(f, i, WalkAt(f, i).labels);
  }

  lemma GotoTextIs(f: Func, i: nat)
    requires TextOk(f) && i < |f.instrs|
    ensures var w := WalkAt(f, i); Stmts(GotoLines(f, i)) == if w.inLikely then [Goto(Skip(w.likelies))] else []
  {
    WalkFollows(f, i);
  }

  lemma MarkTextIs(f: Func, i: nat)
    requires TextOk(f) && i < |f.instrs|
    ensures Stmts(MarkLines(f, i)) == LabelLine(WalkAt(f, i).labels, AddrAt(f, i))
  {
    WalkFollows(f, i);
    LabelLineIs(f, i);
  }

  lemma TrailTextIs(f: Func, i: nat)
    requires TextOk(f) && i < |f.instrs|
    ensures var w := WalkAt(f, i);
            Stmts(TrailLines(f, i)) ==
            (if w.needsLink then [LabelHere(After(w.links))] else [])
              + (if w.inLikely then [LabelHere(Skip(w.likelies))] else [])
  {
    WalkFollows(f, i);
  }

  lemma UnreachableKeeps(lines: seq<Line>)
    ensures Stmts(Unreachable(lines)) == Stmts(lines)
  {
  }

  lemma Regroup<T>(goto: seq<T>, mark: seq<T>, core: seq<T>, after: seq<T>, skip: seq<T>)
    ensures goto + mark + core + after + skip == goto + (mark + (core + (after + skip)))
  {
  }

  /** The text emitted for an instruction is the statements of its lines. */
  lemma ChunkIsLines(f: Func, i: nat)
    requires TextOk(f) && i < |f.instrs|
    ensures Chunk(f, i) == Stmts(InstrLines(f, i))
  {
    var w := WalkAt(f, i);
    var a := AddrAt(f, i);
    var core, trail := CoreLines(f, i, CallsBefore(f, i)), TrailLines(f, i);
    assert WalkEmission(f, i, w).text == Stmts(core) by {
      WalkFollows(f, i);
      EmissionIs(f, i);
    }
    GotoTextIs(f, i);
    MarkTextIs(f, i);
    TrailTextIs(f, i);
    StmtsConcat(core, trail);
    StmtsConcat(MarkLines(f, i), core + trail);
    StmtsConcat(GotoLines(f, i), MarkLines(f, i) + (core + trail));
    UnreachableKeeps(GotoLines(f, i) + (MarkLines(f, i) + (core + trail)));
    Regroup(Stmts(GotoLines(f, i)), Stmts(MarkLines(f, i)), Stmts(core),
            if w.needsLink then [LabelHere(After(w.links))] else [],
              if w.inLikely then [LabelHere(Skip(w.likelies))] else []);
  }

  /** Every such function translates. */
  lemma {:induction false} AlwaysTranslates(f: Func, n: nat)
    requires TextOk(f) && n <= |f.instrs|
    ensures TranslatesUpTo(f, n)
    decreases n
  {
    if n > 0 {
      AlwaysTranslates(f, n - 1);
      WalkFollows(f, n - 1);
      EmissionIs(f, n - 1);
    }
  }

  lemma PrologueIsLines(f: Func)
    requires Fits(f)
    ensures Stmts(PrologueLines(f)) == Prologue(f)
  {
  }

  lemma EpilogueIsLines(f: Func)
    requires Fits(f)
    ensures Stmts(EpilogueLines(f)) == Epilogue(f)
  {
  }

  lemma ShapeAt(f: Func, i: nat)
    requires Fits(f) && i < |f.instrs|
    ensures |Translation(f)| == |f.instrs| + 2 && Translation(f)[i + 1] == Chunk(f, i)
  {
    var chunks := Chunks(f, |f.instrs|);
    ChunkOf(f, |f.instrs|, i);
    assert Translation(f)[i + 1] == chunks[i];
  }

  lemma InnerLines(f: Func, i: nat)
    requires Fits(f) && SlotsOk(f) && i < |f.instrs|
    ensures Lines(f, i + 1) == InstrLines(f, i)
  {
  }

  lemma InnerChunk(f: Func, i: nat)
    requires Fits(f) && SlotsOk(f) && i < |f.instrs|
    requires Chunk(f, i) == Stmts(InstrLines(f, i))
    ensures |Translation(f)| == |f.instrs| + 2 && Translation(f)[i + 1] == Stmts(Lines(f, i + 1))
  {
    ShapeAt(f, i);
    InnerLines(f, i);
  }

  lemma OuterChunks(f: Func)
    requires Fits(f) && SlotsOk(f)
    ensures |Translation(f)| == |f.instrs| + 2
    ensures Translation(f)[0] == Stmts(Lines(f, 0))
    ensures Translation(f)[|f.instrs| + 1] == Stmts(Lines(f, |f.instrs| + 1))
  {
    PrologueIsLines(f);
    EpilogueIsLines(f);
  }

  /** The whole text, chunk by chunk. */
  lemma TranslationIsLines(f: Func, c: nat)
    requires TextOk(f) && c < |f.instrs| + 2
    ensures |Translation(f)| == |f.instrs| + 2
    ensures Translation(f)[c] == Stmts(Lines(f, c))
  {
    if 0 < c <= |f.instrs| {
      ChunkIsLines(f, c - 1);
      InnerChunk(f, c - 1);
    } else {
      OuterChunks(f);
    }
  }
}
