/** Labels: every jump of a translated function, in whatever form, names a label that the
    text emits exactly once. Nothing is asked of the instructions but that their jump
    tables stay inside: delay slots may hold transfers and write any register. */
module LabelWalk {
  import opened Machine
  import opened Emitted
  import opened Translator
  import opened Points

  // ----- Where labels come from -----

  /** `x` is the start of the function or one of its inner labels. */
  ghost predicate IsTarget(f: Func, x: Addr)
    requires Fits(f)
  {
    x == f.vram || x in Labels(f)
  }

  lemma {:induction false} LabelsCollected(f: Func, i: nat, n: nat)
    requires Fits(f) && i < n <= |f.instrs|
    ensures LabelsOf(f, i) <= LabelsBefore(f, n)
    decreases n
  {
    if i + 1 < n {
      LabelsCollected(f, i, n - 1);
    }
  }

  lemma AskedForIsTarget(f: Func, i: nat, x: Addr)
    requires Fits(f) && i < |f.instrs| && x in LabelsOf(f, i) && Inside(f, x)
    ensures IsTarget(f, x)
  {
    LabelsCollected(f, i, |f.instrs|);
  }

  lemma {:induction false} RequestedAreInside(f: Func, n: nat)
    requires Fits(f) && n <= |f.requested|
    ensures forall a :: a in RequestedInside(f, n) ==> StrictlyInside(f, a)
    decreases n
  {
    if n > 0 {
      RequestedAreInside(f, n - 1);
    }
  }

  lemma OtherTargets(f: Func)
    requires Fits(f)
    ensures LocalTailcalls(f) <= Labels(f) && DispatchEntries(f) <= Labels(f)
    ensures Inside(f, Entry(f)) ==> IsTarget(f, Entry(f))
  {
    RequestedAreInside(f, |f.requested|);
  }

  // ----- The label iterator -----

  ghost predicate LabelsAligned(f: Func)
    requires Fits(f)
  {
    forall l :: l in Labels(f) ==> Aligned(f, l)
  }

  /** The labels not emitted yet are those at or after word `i`. */
  ghost predicate LabelsLeftAre(f: Func, i: nat, labels: set<Addr>)
    requires Fits(f) && i <= |f.instrs|
  {
    forall l :: l in labels <==> l in Labels(f) && AddrAt(f, i) <= l
  }

  /** The label iterator drops a label exactly at a labelled word, and it is that
      word's label. */
  lemma DropsItsLabel(f: Func, i: nat, labels: set<Addr>)
    requires Fits(f) && i < |f.instrs| && LabelsLeftAre(f, i, labels)
    ensures DropsLabel(labels, AddrAt(f, i)) <==> AddrAt(f, i) in Labels(f)
    ensures DropsLabel(labels, AddrAt(f, i)) ==> Least(labels) == AddrAt(f, i)
  {
    if labels != {} {
      assert IsLeast(labels, Least(labels));
    }
  }

  /** After the label of word `i`, the next one is at least a word further. */
  lemma LabelsLeft(f: Func, i: nat, labels: set<Addr>)
    requires Fits(f) && LabelsAligned(f) && i < |f.instrs| && LabelsLeftAre(f, i, labels)
    ensures LabelsLeftAre(f, i + 1, if AddrAt(f, i) in Labels(f) then labels - {AddrAt(f, i)} else labels)
  {
    hide Labels;
    forall l | l in Labels(f) && AddrAt(f, i) <= l && l != AddrAt(f, i)
      ensures AddrAt(f, i + 1) <= l
    {
      assert Aligned(f, l);
      NextWord(f, i, l);
    }
  }

  lemma NextWord(f: Func, i: nat, l: Addr)
    requires Fits(f) && i < |f.instrs| && Aligned(f, l) && AddrAt(f, i) < l
    ensures AddrAt(f, i + 1) <= l
  {
  }

  lemma {:induction false} LabelsLeftAt(f: Func, i: nat)
    requires Fits(f) && LabelsAligned(f) && i <= |f.instrs|
    ensures LabelsLeftAre(f, i, WalkAt(f, i).labels)
    decreases i
  {
    if i == 0 {
      AllLabelsLeft(f);
    } else {
      LabelsLeftAt(f, i - 1);
      DropsItsLabel(f, i - 1, WalkAt(f, i - 1).labels);
      LabelsLeft(f, i - 1, WalkAt(f, i - 1).labels);
    }
  }

  lemma AllLabelsLeft(f: Func)
    requires Fits(f)
    ensures LabelsLeftAre(f, 0, Labels(f))
  {
  }

  // ----- What an instruction mentions -----

  /** The labels a statement can jump to. */
  function References(s: Stmt): set<Label> {
    match s
    case Goto(l) => {l}
    case DispatchRa(labels) => set x | x in labels :: Loc(x)
    case Switch(_, entries) => set x | x in entries :: Loc(x)
    case EnterSwitch(starts) => set x | x in starts :: Loc(x)
    case Call(_, locals, back) => (set x | x in locals :: Loc(x)) + if back == 0 then {} else {Loc(back)}
    case _ => {}
  }

  /** Tables of the function stay inside. */
  predicate TablesInside(f: Func)
    requires Fits(f)
  {
    forall i :: 0 <= i < |f.instrs| && f.instrs[i].TableJr? ==> EntriesInside(f, f.instrs[i].entries)
  }

  predicate EntriesInside(f: Func, entries: seq<Addr>)
    requires Fits(f)
  {
    forall e :: e in entries ==> Inside(f, e)
  }

  /** An instruction emits no label and jumps only to targets of the function, if its
      tables stay inside, or to the label after a call. */
  ghost predicate BodyStmt(f: Func, links: nat, s: Stmt)
    requires Fits(f)
  {
    && !s.LabelHere?
    && forall l :: l in References(s) ==>
         if l.Loc? then TablesInside(f) || !s.Switch? ==> IsTarget(f, l.addr) else s == Goto(After(links))
  }

  ghost predicate BodyText(f: Func, links: nat, text: seq<Stmt>)
    requires Fits(f)
  {
    forall k :: 0 <= k < |text| ==> BodyStmt(f, links, text[k])
  }

  lemma TextConcat(f: Func, links: nat, x: seq<Stmt>, y: seq<Stmt>)
    requires Fits(f) && BodyText(f, links, x) && BodyText(f, links, y)
    ensures BodyText(f, links, x + y)
  {
    hide BodyStmt;
  }

  lemma BranchOnly(f: Func, i: nat, links: nat, target: Addr)
    requires Fits(f) && i < |f.instrs| && target in LabelsOf(f, i)
    ensures BodyText(f, links, BranchText(f, i, target))
  {
    if Inside(f, target) {
      AskedForIsTarget(f, i, target);
    }
  }

  lemma CallOnly(f: Func, i: nat, links: nat, dest: Dest)
    requires Fits(f) && i < |f.instrs|
    ensures BodyText(f, links, [Call(dest, LocalTailcalls(f), ReturnLabel(f, i)), Goto(After(links))])
  {
    hide Labels, LocalTailcalls, TablesInside;
    OtherTargets(f);
    var call := Call(dest, LocalTailcalls(f), ReturnLabel(f, i));
    forall l | l in References(call) ensures l.Loc? && IsTarget(f, l.addr) {
    }
    assert BodyStmt(f, links, call);
  }

  lemma ReturnOnly(f: Func, links: nat)
    requires Fits(f)
    ensures BodyText(f, links, ReturnText(f))
  {
    hide Labels;
    DispatchOnly(f, links);
  }

  lemma DispatchOnly(f: Func, links: nat)
    requires Fits(f)
    ensures BodyStmt(f, links, DispatchRa(Labels(f)))
  {
    hide Labels;
  }

  lemma SwitchOnly(f: Func, i: nat, links: nat, jr: Addr, entries: seq<Addr>)
    requires Fits(f) && i < |f.instrs| && forall e :: e in entries ==> e in LabelsOf(f, i)
    requires TablesInside(f) ==> EntriesInside(f, entries)
    ensures BodyText(f, links, [Switch(jr, entries)])
  {
    hide Labels, LabelsOf, TablesInside;
    forall e | e in entries && EntriesInside(f, entries) ensures IsTarget(f, e) {
      AskedForIsTarget(f, i, e);
    }
  }

  lemma CallToOnly(f: Func, i: nat, links: nat, slot: Emission, dest: Dest)
    requires Fits(f) && i < |f.instrs| && BodyText(f, links, slot.text)
    ensures BodyText(f, links, CallTo(f, i, links, slot, dest).text)
  {
    hide BodyText, Labels, LocalTailcalls, ReturnLabel;
    var tail := [Call(dest, LocalTailcalls(f), ReturnLabel(f, i)), Goto(After(links))];
    CallOnly(f, i, links, dest);
    TextConcat(f, links, slot.text, tail);
    if dest.Const? {
      PlainOnly(f, links, UnhandledCall(dest.addr));
    }
  }

  lemma PlainOnly(f: Func, links: nat, s: Stmt)
    requires Fits(f) && !s.LabelHere? && References(s) == {}
    ensures BodyText(f, links, [s])
  {
  }

  lemma GotoOnly(f: Func, i: nat, links: nat, target: Addr)
    requires Fits(f) && i < |f.instrs| && Inside(f, target) && target in LabelsOf(f, i)
    ensures BodyText(f, links, [Goto(Loc(target))])
  {
    AskedForIsTarget(f, i, target);
  }

  lemma TreeOnly(f: Func, i: nat, links: nat, slot: Emission, target: Addr)
    requires Fits(f) && i < |f.instrs| && BodyText(f, links, slot.text) && target in LabelsOf(f, i)
    ensures BodyText(f, links, BranchTree(f, i, slot, target).text)
  {
    hide BodyText, BranchText, LabelsOf;
    BranchOnly(f, i, links, target);
    TextConcat(f, links, slot.text, BranchText(f, i, target));
  }

  lemma BlockOnly(f: Func, i: nat, links: nat, slot: Emission)
    requires Fits(f) && i < |f.instrs| && BodyText(f, links, slot.text) && f.instrs[i].Branch?
    ensures var b := f.instrs[i];
            BodyText(f, links, ConditionalBranch(f, i, links, slot, b.cond, b.target, b.likely, b.link).text)
  {
    hide BodyText, CallTo, BranchTree, Labels;
    var b := f.instrs[i];
    CallToOnly(f, i, links, slot, Const(b.target));
    TreeOnly(f, i, links, slot, b.target);
    var block := GuardedBlock(f, i, links, slot, b.target, b.link).text;
    PlainOnly(f, links, If(b.cond));
    PlainOnly(f, links, EndIf);
    PlainOnly(f, links, SetLink(RA, AddrAt(f, i) + 8));
    NoText(f, links);
    TextConcat(f, links, block, [EndIf]);
    TextConcat(f, links, [If(b.cond)], block);
    TextConcat(f, links, [If(b.cond)], block + [EndIf]);
    var head := if b.link then [SetLink(RA, AddrAt(f, i) + 8)] else [];
    TextConcat(f, links, head, [If(b.cond)] + block);
    TextConcat(f, links, head, [If(b.cond)] + (block + [EndIf]));
  }

  lemma NoText(f: Func, links: nat)
    requires Fits(f)
    ensures BodyText(f, links, [])
  {
  }

  lemma TailOnly(f: Func, links: nat, slot: Emission, rs: Reg)
    requires Fits(f) && BodyText(f, links, slot.text)
    ensures BodyText(f, links, TailcallTo(slot, rs).text)
  {
    assert BodyText(f, links, [RequestTailcall(FromReg(rs)), Return]);
    TextConcat(f, links, slot.text, [RequestTailcall(FromReg(rs)), Return]);
  }

  lemma JalOnly(f: Func, i: nat, links: nat, slot: Emission, target: Addr)
    requires Fits(f) && i < |f.instrs| && BodyText(f, links, slot.text) && f.instrs[i] == Jal(target)
    ensures BodyText(f, links, JumpAndLink(f, i, links, slot, target).text)
  {
    hide BodyText, CallTo, Labels;
    CallToOnly(f, i, links, slot, Const(target));
    PlainOnly(f, links, SetLink(RA, AddrAt(f, i) + 8));
    var link := [SetLink(RA, AddrAt(f, i) + 8)];
    if Inside(f, target) {
      GotoOnly(f, i, links, target);
      TextConcat(f, links, slot.text, [Goto(Loc(target))]);
      TextConcat(f, links, link, slot.text);
      TextConcat(f, links, link, slot.text + [Goto(Loc(target))]);
    } else {
      TextConcat(f, links, link, CallTo(f, i, links, slot, Const(target)).text);
    }
  }

  lemma JalrOnly(f: Func, i: nat, links: nat, slot: Emission, rd: Reg, rs: Reg)
    requires Fits(f) && i < |f.instrs| && BodyText(f, links, slot.text)
    ensures BodyText(f, links, JumpAndLinkRegister(f, i, links, slot, rd, rs).text)
  {
    hide BodyText, CallTo, TailcallTo;
    var head := if rd != 0 then [SetLink(rd, AddrAt(f, i) + 8)] else [];
    NoText(f, links);
    PlainOnly(f, links, SetLink(rd, AddrAt(f, i) + 8));
    CallToOnly(f, i, links, slot, FromReg(rs));
    TailOnly(f, links, slot, rs);
    TextConcat(f, links, head, if rd == RA then CallTo(f, i, links, slot, FromReg(rs)).text
               else TailcallTo(slot, rs).text);
  }

  lemma RaOnly(f: Func, links: nat, slot: Emission)
    requires Fits(f) && BodyText(f, links, slot.text)
    ensures BodyText(f, links, JumpToRa(f, slot).text)
  {
    hide BodyText, ReturnText;
    ReturnOnly(f, links);
    PlainOnly(f, links, CaptureRa);
    TextConcat(f, links, slot.text, ReturnText(f));
    TextConcat(f, links, [CaptureRa], slot.text);
    TextConcat(f, links, [CaptureRa], slot.text + ReturnText(f));
  }

  lemma OrdinaryOnly(f: Func, links: nat, instr: Instr, reloc: Option<Reloc>)
    requires Fits(f) && !IsControl(instr)
    ensures BodyText(f, links, OrdinaryText(instr, reloc))
  {
  }

  lemma BodyIsOnly(f: Func, i: nat, links: nat, cursor: nat, slot: Emission)
    requires Fits(f) && i < |f.instrs| && BodyText(f, links, slot.text)
    ensures BodyText(f, links, InstructionBody(f, i, links, cursor, slot).text)
  {
    hide BodyText, BranchTree, JumpAndLink, JumpAndLinkRegister, JumpToRa, TailcallTo, ConditionalBranch, Labels;
    match f.instrs[i] {
      case Jump(target) =>
        PlainOnly(f, links, PauseSelf);
        TreeOnly(f, i, links, slot, target);
      case Jal(target) => JalOnly(f, i, links, slot, target);
      case Jalr(rd, rs) => JalrOnly(f, i, links, slot, rd, rs);
      case Jr(rs) =>
        RaOnly(f, links, slot);
        TailOnly(f, links, slot, rs);
      case TableJr(_, entries) =>
        SwitchOnly(f, i, links, AddrAt(f, i), entries);
        TextConcat(f, links, slot.text, [Switch(AddrAt(f, i), entries)]);
      case Branch(_, _, _, _) => BlockOnly(f, i, links, slot);
      case _ => OrdinaryOnly(f, links, f.instrs[i], RelocSeen(f, cursor, AddrAt(f, i)));
    }
  }

  /** The text of an instruction, with its delay slot and what that holds in turn. */
  lemma {:induction false} InstructionOnly(f: Func, i: nat, links: nat, cursor: nat)
    requires Fits(f) && i < |f.instrs|
    ensures BodyText(f, links, Instruction(f, i, links, cursor).text)
    decreases |f.instrs| - i
  {
    hide BodyText, InstructionBody;
    var slot := SlotText(f, i, links, cursor);
    if i + 1 < |f.instrs| {
      InstructionOnly(f, i + 1, links, SlotCursor(f, cursor, AddrAt(f, i + 1)));
    } else {
      NoText(f, links);
    }
    BodyIsOnly(f, i, links, cursor, slot);
    PlainOnly(f, links, Comment(AddrAt(f, i)));
    TextConcat(f, links, [Comment(AddrAt(f, i))], InstructionBody(f, i, links, cursor, slot).text);
  }

  // ----- The labels after calls -----

  /** Whether instruction `i` asks for a label after its delay slot, and whether it translates. */
  function Calls(f: Func, i: nat): bool
    requires Fits(f) && i < |f.instrs|
  {
    Instruction(f, i, 0, 0).needsLink
  }

  /** Neither depends on the numbering or on relocations. */
  lemma {:induction false} FlagsAreFixed(f: Func, i: nat, links: nat, cursor: nat)
    requires Fits(f) && i < |f.instrs|
    ensures var e, e0 := Instruction(f, i, links, cursor), Instruction(f, i, 0, 0);
            e.ok == e0.ok && e.needsLink == e0.needsLink && e.likely == e0.likely
    decreases |f.instrs| - i
  {
    if i + 1 < |f.instrs| {
      FlagsAreFixed(f, i + 1, links, SlotCursor(f, cursor, AddrAt(f, i + 1)));
      FlagsAreFixed(f, i + 1, 0, SlotCursor(f, 0, AddrAt(f, i + 1)));
    }
    BodyFlags(f, i, links, cursor, SlotText(f, i, links, cursor), SlotText(f, i, 0, 0));
  }

  predicate SameFlags(x: Emission, y: Emission) {
    x.ok == y.ok && x.needsLink == y.needsLink && x.likely == y.likely
  }

  lemma BodyFlags(f: Func, i: nat, links: nat, cursor: nat, slot: Emission, slot0: Emission)
    requires Fits(f) && i < |f.instrs| && SameFlags(slot, slot0)
    ensures SameFlags(InstructionBody(f, i, links, cursor, slot), InstructionBody(f, i, 0, 0, slot0))
  {
    hide ReturnText, BranchText, CallTo, BranchTree, TailcallTo, JumpToRa;
    RestFlags(f, i, slot, slot0);
    match f.instrs[i] {
      case Jal(target) => CallFlags(f, i, links, slot, slot0, Const(target));
      case Jalr(_, rs) => CallFlags(f, i, links, slot, slot0, FromReg(rs));
      case Branch(_, target, _, _) => CallFlags(f, i, links, slot, slot0, Const(target));
      case _ =>
    }
  }

  lemma CallFlags(f: Func, i: nat, links: nat, slot: Emission, slot0: Emission, dest: Dest)
    requires Fits(f) && i < |f.instrs| && SameFlags(slot, slot0)
    ensures SameFlags(CallTo(f, i, links, slot, dest), CallTo(f, i, 0, slot0, dest))
  {
  }

  lemma RestFlags(f: Func, i: nat, slot: Emission, slot0: Emission)
    requires Fits(f) && i < |f.instrs| && SameFlags(slot, slot0)
    ensures forall target: Addr :: SameFlags(BranchTree(f, i, slot, target), BranchTree(f, i, slot0, target))
    ensures forall rs: Reg :: SameFlags(TailcallTo(slot, rs), TailcallTo(slot0, rs))
    ensures SameFlags(JumpToRa(f, slot), JumpToRa(f, slot0))
  {
    hide ReturnText, BranchText;
  }

  lemma InConcat(g: Stmt, x: seq<Stmt>, y: seq<Stmt>)
    requires g in x + y
    ensures g in x || g in y
  {
  }

  lemma CallToCalls(f: Func, i: nat, links: nat, slot: Emission, dest: Dest)
    requires Fits(f) && i < |f.instrs| && Goto(After(links)) in CallTo(f, i, links, slot, dest).text
    ensures Goto(After(links)) in slot.text
            || (slot.ok && CallTo(f, i, links, slot, dest).ok && CallTo(f, i, links, slot, dest).needsLink)
  {
    hide LocalTailcalls, ReturnLabel;
  }

  lemma TreeCalls(f: Func, i: nat, links: nat, slot: Emission, target: Addr)
    requires Fits(f) && i < |f.instrs| && Goto(After(links)) in BranchTree(f, i, slot, target).text
    ensures Goto(After(links)) in slot.text
  {
    hide BranchText;
    BranchHasNone(f, i, links);
  }

  lemma BranchCalls(f: Func, i: nat, links: nat, slot: Emission)
    requires Fits(f) && i < |f.instrs| && f.instrs[i].Branch?
    requires var b := f.instrs[i];
             Goto(After(links)) in ConditionalBranch(f, i, links, slot, b.cond, b.target, b.likely, b.link).text
    ensures var b := f.instrs[i];
            Goto(After(links)) in slot.text
            || (slot.ok && ConditionalBranch(f, i, links, slot, b.cond, b.target, b.likely, b.link).needsLink)
  {
    hide CallTo, BranchTree;
    var b, g := f.instrs[i], Goto(After(links));
    var block := GuardedBlock(f, i, links, slot, b.target, b.link);
    var head := if b.link then [SetLink(RA, AddrAt(f, i) + 8)] else [];
    var rest := if !block.ok then block.text else block.text + [EndIf];
    InConcat(g, head, [If(b.cond)] + rest);
    InConcat(g, [If(b.cond)], rest);
    assert g in block.text;
    if b.link && !Inside(f, b.target) {
      CallToCalls(f, i, links, slot, Const(b.target));
    } else {
      TreeCalls(f, i, links, slot, b.target);
    }
  }

  lemma LinkCalls(f: Func, i: nat, links: nat, slot: Emission)
    requires Fits(f) && i < |f.instrs|
    ensures forall target: Addr :: Goto(After(links)) in JumpAndLink(f, i, links, slot, target).text ==>
              Goto(After(links)) in slot.text || (slot.ok && JumpAndLink(f, i, links, slot, target).needsLink)
    ensures forall rd: Reg, rs: Reg :: Goto(After(links)) in JumpAndLinkRegister(f, i, links, slot, rd, rs).text ==>
              Goto(After(links)) in slot.text || (slot.ok && JumpAndLinkRegister(f, i, links, slot, rd, rs).needsLink)
  {
    hide CallTo;
    var g := Goto(After(links));
    forall target: Addr | g in JumpAndLink(f, i, links, slot, target).text
      ensures g in slot.text || (slot.ok && JumpAndLink(f, i, links, slot, target).needsLink)
    {
      if g in CallTo(f, i, links, slot, Const(target)).text {
        CallToCalls(f, i, links, slot, Const(target));
      }
    }
    forall rd: Reg, rs: Reg | g in JumpAndLinkRegister(f, i, links, slot, rd, rs).text
      ensures g in slot.text || (slot.ok && JumpAndLinkRegister(f, i, links, slot, rd, rs).needsLink)
    {
      if g in CallTo(f, i, links, slot, FromReg(rs)).text {
        CallToCalls(f, i, links, slot, FromReg(rs));
      }
    }
  }

  /** A goto to the label after a call comes from a call that translates, here or further
      down in the delay slots. */
  lemma BodyCalls(f: Func, i: nat, links: nat, cursor: nat, slot: Emission)
    requires Fits(f) && i < |f.instrs| && Goto(After(links)) in InstructionBody(f, i, links, cursor, slot).text
    ensures Goto(After(links)) in slot.text || (slot.ok && InstructionBody(f, i, links, cursor, slot).needsLink)
  {
    hide ReturnText, BranchTree, JumpAndLink, JumpAndLinkRegister, ConditionalBranch;
    ReturnHasNone(f, links);
    LinkCalls(f, i, links, slot);
    match f.instrs[i] {
      case Jump(target) =>
        if target != AddrAt(f, i) {
          TreeCalls(f, i, links, slot, target);
        }
      case Branch(_, _, _, _) => BranchCalls(f, i, links, slot);
      case _ =>
    }
  }

  lemma ReturnHasNone(f: Func, links: nat)
    requires Fits(f)
    ensures Goto(After(links)) !in ReturnText(f)
  {
  }

  lemma BranchHasNone(f: Func, i: nat, links: nat)
    requires Fits(f) && i < |f.instrs|
    ensures forall target: Addr :: Goto(After(links)) !in BranchText(f, i, target)
  {
  }

  lemma {:induction false} CallAhead(f: Func, i: nat, links: nat, cursor: nat) returns (j: nat)
    requires Fits(f) && i < |f.instrs| && Goto(After(links)) in Instruction(f, i, links, cursor).text
    ensures i <= j && j + 1 < |f.instrs| && Calls(f, j)
    decreases |f.instrs| - i
  {
    hide InstructionBody;
    var slot := SlotText(f, i, links, cursor);
    var e := InstructionBody(f, i, links, cursor, slot);
    InConcat(Goto(After(links)), [Comment(AddrAt(f, i))], e.text);
    BodyCalls(f, i, links, cursor, slot);
    if Goto(After(links)) in slot.text {
      j := CallAhead(f, i + 1, links, SlotCursor(f, cursor, AddrAt(f, i + 1)));
    } else {
      FlagsAreFixed(f, i, links, cursor);
      j := i;
    }
  }

  // ----- Which chunk emits a label -----

  /** Chunk `c` emits label `l`. */
  ghost predicate EmittedBy(f: Func, c: nat, l: Label)
    requires Fits(f)
  {
    if c == 0 then l == Loc(f.vram) else c <= |f.instrs| && Closes(WalkAt(f, c - 1), AddrAt(f, c - 1), l)
  }

  /** The labels emitted at the instruction at `a` from state `w`. */
  ghost predicate Closes(w: Walk, a: Addr, l: Label) {
    match l
    case Loc(x) => DropsLabel(w.labels, a) && x == Least(w.labels)
    case After(n) => w.needsLink && n == w.links
    case Skip(n) => w.inLikely && n == w.likelies
  }

  lemma {:induction false} WalkGoesOn(f: Func, i: nat, j: nat)
    requires Fits(f) && i <= j <= |f.instrs|
    ensures WalkAt(f, j).labels <= WalkAt(f, i).labels <= Labels(f)
    ensures WalkAt(f, i).links <= WalkAt(f, j).links && WalkAt(f, i).likelies <= WalkAt(f, j).likelies
    decreases j
  {
    hide WalkEmission, DropsLabel;
    if i < j {
      WalkGoesOn(f, i, j - 1);
    } else if i > 0 {
      WalkGoesOn(f, i - 1, i - 1);
    }
  }

  lemma LabelInside(f: Func, x: Addr)
    requires Fits(f) && x in Labels(f)
    ensures StrictlyInside(f, x)
  {
  }

  /** No label is emitted by two chunks. */
  lemma EmittedOnce(f: Func, c: nat, d: nat, l: Label)
    requires Fits(f) && c < d && EmittedBy(f, c, l)
    ensures !EmittedBy(f, d, l)
  {
    hide WalkEmission, WalkAt, DropsLabel;
    if d <= |f.instrs| {
      EmittedIn(f, d, l);
      if c == 0 {
        if f.vram in Labels(f) {
          LabelInside(f, f.vram);
        }
      } else {
        EmittedAndGone(f, c, l);
        WalkGoesOn(f, c, d - 1);
      }
    }
  }

  lemma EmittedIn(f: Func, d: nat, l: Label)
    requires Fits(f) && 0 < d <= |f.instrs|
    ensures EmittedBy(f, d, l) && l.Loc? ==> l.addr in WalkAt(f, d - 1).labels && l.addr in Labels(f)
  {
    hide WalkEmission, WalkAt;
    WalkGoesOn(f, d - 1, d - 1);
    if DropsLabel(WalkAt(f, d - 1).labels, AddrAt(f, d - 1)) {
      assert IsLeast(WalkAt(f, d - 1).labels, Least(WalkAt(f, d - 1).labels));
    }
  }

  /** After chunk `c` its label is not left, and the numbers have gone on. */
  lemma EmittedAndGone(f: Func, c: nat, l: Label)
    requires Fits(f) && 0 < c <= |f.instrs| && EmittedBy(f, c, l)
    ensures l.Loc? ==> l.addr !in WalkAt(f, c).labels
    ensures l.After? ==> WalkAt(f, c).links > l.n
    ensures l.Skip? ==> WalkAt(f, c).likelies > l.n
  {
    hide WalkEmission, DropsLabel;
  }

  // ----- Counting labels -----

  function CountIn(chunk: seq<Stmt>, l: Label): nat {
    if chunk == [] then 0 else (if chunk[0] == LabelHere(l) then 1 else 0) + CountIn(chunk[1..], l)
  }

  function LabelCount(text: Text, l: Label): nat {
    if text == [] then 0 else LabelCount(text[..|text| - 1], l) + CountIn(text[|text| - 1], l)
  }

  lemma {:induction false} CountConcat(x: seq<Stmt>, y: seq<Stmt>, l: Label)
    ensures CountIn(x + y, l) == CountIn(x, l) + CountIn(y, l)
    decreases |x|
  {
    if x == [] {
      assert x + y == y;
    } else {
      CountConcat(x[1..], y, l);
      assert (x + y)[1..] == x[1..] + y;
    }
  }

  lemma {:induction false} CountNone(chunk: seq<Stmt>, l: Label)
    requires forall k :: 0 <= k < |chunk| ==> chunk[k] != LabelHere(l)
    ensures CountIn(chunk, l) == 0
    decreases |chunk|
  {
    if chunk != [] {
      CountNone(chunk[1..], l);
    }
  }

  lemma {:induction false} CountFinds(chunk: seq<Stmt>, l: Label) returns (k: nat)
    requires CountIn(chunk, l) > 0
    ensures k < |chunk| && chunk[k] == LabelHere(l)
    decreases |chunk|
  {
    if chunk[0] == LabelHere(l) {
      k := 0;
    } else {
      k := CountFinds(chunk[1..], l);
      k := k + 1;
    }
  }

  lemma CountOne(s: Stmt, l: Label)
    ensures CountIn([s], l) == if s == LabelHere(l) then 1 else 0
  {
    assert [s][1..] == [];
  }

  /** No label stands within an instruction. */
  lemma NoLabelWithin(f: Func, i: nat, links: nat, cursor: nat, l: Label)
    requires Fits(f) && i < |f.instrs|
    ensures CountIn(Instruction(f, i, links, cursor).text, l) == 0
  {
    hide Instruction, CountIn;
    InstructionOnly(f, i, links, cursor);
    forall k | 0 <= k < |Instruction(f, i, links, cursor).text| ensures Instruction(f, i, links, cursor).text[k]
      != LabelHere(l) {
      assert BodyStmt(f, links, Instruction(f, i, links, cursor).text[k]);
    }
    CountNone(Instruction(f, i, links, cursor).text, l);
  }

  lemma CountChunkOf(f: Func, i: nat, l: Label)
    requires Fits(f) && i < |f.instrs|
    ensures CountIn(Chunk(f, i), l) == if EmittedBy(f, i + 1, l) then 1 else 0
  {
    hide CountIn, Instruction;
    var w, a := WalkAt(f, i), AddrAt(f, i);
    var goto := if w.inLikely then [Goto(Skip(w.likelies))] else [];
    var mark, core := LabelLine(w.labels, a), WalkEmission(f, i, w).text;
    var after := if w.needsLink then [LabelHere(After(w.links))] else [];
    var skip := if w.inLikely then [LabelHere(Skip(w.likelies))] else [];
    CountConcat(goto, mark, l);
    CountConcat(goto + mark, core, l);
    CountConcat(goto + mark + core, after, l);
    CountConcat(goto + mark + core + after, skip, l);
    NoLabelWithin(f, i, w.links, Advance(f, w.cursor, a), l);
    CountNone([], l);
    CountOne(Goto(Skip(w.likelies)), l);
    CountOne(LabelHere(Loc(if DropsLabel(w.labels, a) then Least(w.labels) else 0)), l);
    CountOne(LabelHere(After(w.links)), l);
    CountOne(LabelHere(Skip(w.likelies)), l);
  }

  lemma CountPrologue(f: Func, l: Label)
    requires Fits(f)
    ensures CountIn(Prologue(f), l) == if EmittedBy(f, 0, l) then 1 else 0
  {
    hide CountIn, DispatchEntries;
    var enter := if f.dispatch != {} then [EnterSwitch(DispatchEntries(f))] else [];
    var goto := if EntryLabel(f) != {} then [Goto(Loc(f.entry))] else [];
    CountConcat(enter, goto, l);
    CountConcat(enter + goto, [LabelHere(Loc(f.vram))], l);
    CountNone(enter, l);
    CountNone(goto, l);
    CountOne(LabelHere(Loc(f.vram)), l);
  }

  lemma TextShape(f: Func, c: nat)
    requires Fits(f) && c < |f.instrs| + 2
    ensures |Translation(f)| == |f.instrs| + 2
    ensures Translation(f)[c] == if c == 0 then Prologue(f) else if c <= |f.instrs| then Chunk(f, c - 1)
            else Epilogue(f)
  {
    hide Chunk, Prologue, Epilogue;
    if 0 < c <= |f.instrs| {
      ChunkOf(f, |f.instrs|, c - 1);
    }
  }

  lemma CountChunk(f: Func, c: nat, l: Label)
    requires Fits(f) && c < |f.instrs| + 2
    ensures |Translation(f)| == |f.instrs| + 2
    ensures CountIn(Translation(f)[c], l) == if EmittedBy(f, c, l) then 1 else 0
  {
    hide CountIn, Chunk, Prologue, Translation;
    TextShape(f, c);
    if c == 0 {
      CountPrologue(f, l);
    } else if c <= |f.instrs| {
      CountChunkOf(f, c - 1, l);
    } else {
      CountNone(Epilogue(f), l);
    }
  }

  /** Some chunk before `n` emits `l`. */
  ghost predicate EmittedBefore(f: Func, n: nat, l: Label)
    requires Fits(f)
  {
    exists c :: 0 <= c < n && EmittedBy(f, c, l)
  }

  lemma EmittedBeforeStep(f: Func, n: nat, l: Label)
    requires Fits(f)
    ensures EmittedBefore(f, n + 1, l) == (EmittedBefore(f, n, l) || EmittedBy(f, n, l))
    ensures !(EmittedBefore(f, n, l) && EmittedBy(f, n, l))
  {
    hide EmittedBy;
    if EmittedBefore(f, n, l) {
      var c :| 0 <= c < n && EmittedBy(f, c, l);
      EmittedOnce(f, c, n, l);
    }
  }

  lemma {:induction false} CountUpTo(f: Func, text: Text, l: Label, n: nat)
    requires Fits(f) && text == Translation(f) && n <= |f.instrs| + 2 == |text|
    ensures LabelCount(text[..n], l) == if EmittedBefore(f, n, l) then 1 else 0
    decreases n
  {
    hide EmittedBy, EmittedBefore, Translation;
    if n > 0 {
      CountUpTo(f, text, l, n - 1);
      CountChunk(f, n - 1, l);
      assert text[..n][..n - 1] == text[..n - 1];
      EmittedBeforeStep(f, n - 1, l);
    } else {
      NoneBefore(f, l);
    }
  }

  lemma NoneBefore(f: Func, l: Label)
    requires Fits(f)
    ensures !EmittedBefore(f, 0, l)
  {
  }

  lemma WholeCount(f: Func, l: Label)
    requires Fits(f)
    ensures LabelCount(Translation(f), l) == if EmittedBefore(f, |f.instrs| + 2, l) then 1 else 0
  {
    hide EmittedBefore, Translation;
    TextShape(f, 0);
    var text := Translation(f);
    CountUpTo(f, text, l, |text|);
    assert text[..|text|] == text;
  }

  // ----- The theorems -----

  lemma TargetEmitted(f: Func, x: Addr) returns (c: nat)
    requires Fits(f) && LabelsAligned(f) && IsTarget(f, x)
    ensures c < |f.instrs| + 2 && EmittedBy(f, c, Loc(x))
  {
    hide Labels, Least, IsLeast, WalkAt;
    if x == f.vram {
      c := 0;
    } else {
      LabelInside(f, x);
      assert Aligned(f, x);
      c := (x - f.vram) / 4 + 1;
      assert AddrAt(f, c - 1) == x;
      LabelsLeftAt(f, c - 1);
      DropsItsLabel(f, c - 1, WalkAt(f, c - 1).labels);
    }
  }

  /** From a pending call on, its number is emitted. */
  lemma {:induction false} LinkEmitted(f: Func, i: nat, t: nat) returns (c: nat)
    requires Fits(f) && i <= t < |f.instrs| && WalkAt(f, t).needsLink
    ensures c <= |f.instrs| && EmittedBy(f, c, After(WalkAt(f, i).links))
    decreases t - i
  {
    hide WalkEmission, DropsLabel, Least;
    if WalkAt(f, i).needsLink {
      c := i + 1;
    } else {
      c := LinkEmitted(f, i + 1, t);
    }
  }

  lemma CallEmitted(f: Func, i: nat) returns (c: nat)
    requires Fits(f) && i < |f.instrs|
    requires Goto(After(WalkAt(f, i).links)) in WalkEmission(f, i, WalkAt(f, i)).text
    ensures c <= |f.instrs| && EmittedBy(f, c, After(WalkAt(f, i).links))
  {
    hide EmittedBy, Instruction;
    var w := WalkAt(f, i);
    var j := CallAhead(f, i, w.links, Advance(f, w.cursor, AddrAt(f, i)));
    FlagsAreFixed(f, j, WalkAt(f, j).links, Advance(f, WalkAt(f, j).cursor, AddrAt(f, j)));
    c := LinkEmitted(f, i, j + 1);
  }

  lemma InstrReference(f: Func, i: nat, k: nat, l: Label) returns (c: nat)
    requires Fits(f) && LabelsAligned(f) && TablesInside(f) && i < |f.instrs|
    requires k < |Chunk(f, i)| && l in References(Chunk(f, i)[k])
    ensures c < |f.instrs| + 2 && EmittedBy(f, c, l)
  {
    hide Instruction, LabelsAligned, TablesInside, IsTarget;
    var w, a := WalkAt(f, i), AddrAt(f, i);
    var goto := if w.inLikely then [Goto(Skip(w.likelies))] else [];
    var mark, core := LabelLine(w.labels, a), WalkEmission(f, i, w).text;
    if k < |goto| {
      c := i + 1;
    } else {
      var j := k - |goto| - |mark|;
      assert 0 <= j < |core| && Chunk(f, i)[k] == core[j];
      InstructionOnly(f, i, w.links, Advance(f, w.cursor, a));
      assert BodyStmt(f, w.links, core[j]);
      if l.Loc? {
        c := TargetEmitted(f, l.addr);
      } else {
        assert core[j] in core;
        c := CallEmitted(f, i);
      }
    }
  }

  lemma PrologueReference(f: Func, k: nat, l: Label)
    requires Fits(f) && Inside(f, Entry(f)) && k < |Prologue(f)| && l in References(Prologue(f)[k])
    ensures l.Loc? && IsTarget(f, l.addr)
  {
    hide DispatchEntries, Labels;
    OtherTargets(f);
  }

  /** No dangling label: whatever label a statement of a function can jump to, the text
      emits it exactly once. */
  lemma NoDanglingLabels(f: Func, q: Pos, l: Label)
    requires Fits(f) && LabelsAligned(f) && TablesInside(f) && Inside(f, Entry(f))
    requires ValidPos(Translation(f), q) && l in References(At(Translation(f), q))
    ensures LabelCount(Translation(f), l) == 1
  {
    hide Chunk, Prologue, Translation, LabelCount, EmittedBy, LabelsAligned, TablesInside, Labels;
    TextShape(f, 0);
    TextShape(f, q.chunk);
    var c;
    if 0 < q.chunk <= |f.instrs| {
      c := InstrReference(f, q.chunk - 1, q.line, l);
    } else {
      assert q.chunk == 0;
      PrologueReference(f, q.line, l);
      c := TargetEmitted(f, l.addr);
    }
    WholeCount(f, l);
  }

  /** No duplicate label. */
  lemma NoDuplicateLabels(f: Func, l: Label)
    requires Fits(f)
    ensures LabelCount(Translation(f), l) <= 1
  {
    hide Translation, LabelCount, EmittedBefore;
    WholeCount(f, l);
  }
}
