/** The translator in the form the program gives it: an emitter that appends to the
    output and a walk that carries label, relocation and numbering cursors. */
module Recompiler {
  import opened Machine
  import opened Emitted
  import opened Translator

  /** The code generator writing C text. `chunk` is the text of the instruction being
      translated, `text` everything before it. */
  class Generator {
    var text: Text
    var chunk: seq<Stmt>

    constructor ()
      ensures text == [] && chunk == []
    {
      text, chunk := [], [];
    }

    method Emit(s: Stmt)
      modifies this
      ensures text == old(text) && chunk == old(chunk) + [s]
    {
      chunk := chunk + [s];
    }

    method EndChunk()
      modifies this
      ensures text == old(text) + [old(chunk)] && chunk == []
    {
      text, chunk := text + [chunk], [];
    }
  }

  // ----- Pass one -----

  method PassOne(f: Func) returns (all: set<Addr>)
    requires Fits(f)
    ensures all == DispatchEntries(f) + EntryLabel(f) + LabelsBefore(f, |f.instrs|)
  {
    all := DispatchEntries(f) + EntryLabel(f);
    var i := 0;
    while i < |f.instrs|
      invariant 0 <= i <= |f.instrs|
      invariant all == DispatchEntries(f) + EntryLabel(f) + LabelsBefore(f, i)
    {
      all := all + LabelsOf(f, i);
      i := i + 1;
    }
  }

  method CollectLabels(f: Func) returns (labels: set<Addr>, locals: set<Addr>)
    requires Fits(f)
    ensures labels == Labels(f)
    ensures locals == LocalTailcalls(f)
  {
    var all := PassOne(f);
    locals := {};
    if !f.isStatic && 4 * |f.instrs| <= MAX_LOCAL_TAILCALL_SIZE {
      locals := CollectRequested(f);
    }
    labels := OnlyInside(f, all + locals);
  }

  /** Stops, with nothing collected, as soon as there are too many. */
  method CollectRequested(f: Func) returns (locals: set<Addr>)
    requires Fits(f)
    ensures locals == if |RequestedInside(f, |f.requested|)| > MAX_LOCAL_TAILCALL_LABELS then {}
            else RequestedInside(f, |f.requested|)
  {
    locals := {};
    var i := 0;
    while i < |f.requested|
      invariant 0 <= i <= |f.requested|
      invariant locals == RequestedInside(f, i)
      invariant |locals| <= MAX_LOCAL_TAILCALL_LABELS
    {
      var a := f.requested[i];
      if StrictlyInside(f, a) {
        locals := locals + {a};
        if |locals| > MAX_LOCAL_TAILCALL_LABELS {
          RequestedGrows(f, i + 1, |f.requested|);
          SubsetSize(locals, RequestedInside(f, |f.requested|));
          locals := {};
          return;
        }
      }
      i := i + 1;
    }
  }

  lemma {:induction false} RequestedGrows(f: Func, m: nat, n: nat)
    requires Fits(f) && m <= n <= |f.requested|
    ensures RequestedInside(f, m) <= RequestedInside(f, n)
    decreases n
  {
    if m < n {
      RequestedGrows(f, m, n - 1);
    }
  }

  lemma {:induction false} SubsetSize<T>(s: set<T>, t: set<T>)
    requires s <= t
    ensures |s| <= |t|
    decreases s
  {
    if s != {} {
      var x :| x in s;
      SubsetSize(s - {x}, t - {x});
    }
  }

  // ----- Pass two -----

  /** Emits the delay slot of instruction `i`; fails if it lies outside the function. */
  method EmitDelaySlot(f: Func, labels: set<Addr>, locals: set<Addr>, i: nat, links: nat, cursor: nat, gen: Generator)
    returns (ok: bool)
    requires Fits(f) && i < |f.instrs| && labels == Labels(f) && locals == LocalTailcalls(f)
    modifies gen
    ensures gen.text == old(gen.text)
    ensures ok == SlotText(f, i, links, cursor).ok && gen.chunk == old(gen.chunk) + SlotText(f, i, links, cursor).text
    decreases |f.instrs| - i, 0
  {
    if i + 1 >= |f.instrs| {
      return false;
    }
    var next := cursor;
    if cursor + 1 < |f.relocs| && AddrAt(f, i + 1) > f.relocs[cursor].address {
      next := next + 1;
    }
    var needsLink, likely;
    ok, needsLink, likely := ProcessInstruction(f, labels, locals, i + 1, links, next, gen);
  }

  method EmitBranchTree(f: Func, labels: set<Addr>, locals: set<Addr>, i: nat, links: nat, cursor: nat, target: Addr,
                        gen: Generator)
    returns (ok: bool)
    requires Fits(f) && i < |f.instrs| && labels == Labels(f) && locals == LocalTailcalls(f)
    modifies gen
    ensures gen.text == old(gen.text)
    ensures var e := BranchTree(f, i, SlotText(f, i, links, cursor), target);
            ok == e.ok && gen.chunk == old(gen.chunk) + e.text
    decreases |f.instrs| - i, 1
  {
    ghost var start := gen.chunk;
    ok := EmitDelaySlot(f, labels, locals, i, links, cursor, gen);
    if ok {
      EmitTarget(f, i, target, gen);
      Append2(start, SlotText(f, i, links, cursor).text, BranchText(f, i, target));
    }
  }

  method EmitTarget(f: Func, i: nat, target: Addr, gen: Generator)
    requires Fits(f) && i < |f.instrs|
    modifies gen
    ensures gen.text == old(gen.text)
    ensures gen.chunk == old(gen.chunk) + BranchText(f, i, target)
  {
    if !Inside(f, target) {
      if target in f.branchResolves {
        gen.Emit(ReturnIfHome(target));
        gen.Emit(RequestTailcall(Const(target)));
      } else {
        gen.Emit(UnhandledBranch(target));
      }
      gen.Emit(Return);
    } else {
      if target <= AddrAt(f, i) {
        gen.Emit(Checkpoint(AddrAt(f, i)));
      }
      gen.Emit(Goto(Loc(target)));
    }
  }

  method EmitCall(f: Func, labels: set<Addr>, locals: set<Addr>, i: nat, links: nat, cursor: nat, dest: Dest,
                  gen: Generator)
    returns (ok: bool, needsLink: bool)
    requires Fits(f) && i < |f.instrs| && labels == Labels(f) && locals == LocalTailcalls(f)
    modifies gen
    ensures gen.text == old(gen.text)
    ensures var e := CallTo(f, i, links, SlotText(f, i, links, cursor), dest);
            ok == e.ok && gen.chunk == old(gen.chunk) + e.text && (ok ==> needsLink == e.needsLink)
    decreases |f.instrs| - i, 1
  {
    needsLink := false;
    if dest.Const? && dest.addr !in f.callResolves {
      gen.Emit(UnhandledCall(dest.addr));
      return true, false;
    }
    needsLink := true;
    ghost var start, slot := gen.chunk, SlotText(f, i, links, cursor);
    ok := EmitDelaySlot(f, labels, locals, i, links, cursor, gen);
    if !ok {
      return;
    }
    var back := AddrAt(f, i) + 8;
    var call := Call(dest, locals, if back in labels then back else 0);
    gen.Emit(call);
    gen.Emit(Goto(After(links)));
    Append3(start, slot.text, [call], [Goto(After(links))]);
  }

  method EmitTailcall(f: Func, labels: set<Addr>, locals: set<Addr>, i: nat, links: nat, cursor: nat, rs: Reg,
                      gen: Generator)
    returns (ok: bool)
    requires Fits(f) && i < |f.instrs| && labels == Labels(f) && locals == LocalTailcalls(f)
    modifies gen
    ensures gen.text == old(gen.text)
    ensures var e := TailcallTo(SlotText(f, i, links, cursor), rs);
            ok == e.ok && gen.chunk == old(gen.chunk) + e.text
    decreases |f.instrs| - i, 1
  {
    ok := EmitDelaySlot(f, labels, locals, i, links, cursor, gen);
    if ok {
      gen.Emit(RequestTailcall(FromReg(rs)));
      gen.Emit(Return);
    }
  }

  method EmitJal(f: Func, labels: set<Addr>, locals: set<Addr>, i: nat, links: nat, cursor: nat, target: Addr,
                 gen: Generator)
    returns (ok: bool, needsLink: bool)
    requires Fits(f) && i < |f.instrs| && labels == Labels(f) && locals == LocalTailcalls(f)
    modifies gen
    ensures gen.text == old(gen.text)
    ensures var e := JumpAndLink(f, i, links, SlotText(f, i, links, cursor), target);
            ok == e.ok && gen.chunk == old(gen.chunk) + e.text && (ok ==> needsLink == e.needsLink)
    decreases |f.instrs| - i, 2
  {
    needsLink := false;
    ghost var start, slot := gen.chunk, SlotText(f, i, links, cursor);
    var link := SetLink(RA, AddrAt(f, i) + 8);
    gen.Emit(link);
    if Inside(f, target) {
      ok := EmitDelaySlot(f, labels, locals, i, links, cursor, gen);
      Append2(start, [link], slot.text);
      if ok {
        gen.Emit(Goto(Loc(target)));
        Append3(start, [link], slot.text, [Goto(Loc(target))]);
      }
    } else {
      ok, needsLink := EmitCall(f, labels, locals, i, links, cursor, Const(target), gen);
      Append2(start, [link], CallTo(f, i, links, slot, Const(target)).text);
    }
  }

  method EmitJalr(f: Func, labels: set<Addr>, locals: set<Addr>, i: nat, links: nat, cursor: nat, rd: Reg, rs: Reg,
                  gen: Generator)
    returns (ok: bool, needsLink: bool)
    requires Fits(f) && i < |f.instrs| && labels == Labels(f) && locals == LocalTailcalls(f)
    modifies gen
    ensures gen.text == old(gen.text)
    ensures var e := JumpAndLinkRegister(f, i, links, SlotText(f, i, links, cursor), rd, rs);
            ok == e.ok && gen.chunk == old(gen.chunk) + e.text && (ok ==> needsLink == e.needsLink)
    decreases |f.instrs| - i, 2
  {
    needsLink := false;
    ghost var start, slot := gen.chunk, SlotText(f, i, links, cursor);
    ghost var head := if rd != 0 then [SetLink(rd, AddrAt(f, i) + 8)] else [];
    if rd != 0 {
      gen.Emit(SetLink(rd, AddrAt(f, i) + 8));
    }
    assert gen.chunk == start + head;
    if rd == RA {
      ok, needsLink := EmitCall(f, labels, locals, i, links, cursor, FromReg(rs), gen);
      Append2(start, head, CallTo(f, i, links, slot, FromReg(rs)).text);
    } else {
      ok := EmitTailcall(f, labels, locals, i, links, cursor, rs, gen);
      Append2(start, head, TailcallTo(slot, rs).text);
    }
  }

  method EmitJrRaReturn(f: Func, labels: set<Addr>, locals: set<Addr>, i: nat, links: nat, cursor: nat, gen: Generator)
    returns (ok: bool)
    requires Fits(f) && i < |f.instrs| && labels == Labels(f) && locals == LocalTailcalls(f)
    modifies gen
    ensures gen.text == old(gen.text)
    ensures var e := JumpToRa(f, SlotText(f, i, links, cursor));
            ok == e.ok && gen.chunk == old(gen.chunk) + e.text
    decreases |f.instrs| - i, 1
  {
    ghost var start, slot := gen.chunk, SlotText(f, i, links, cursor);
    gen.Emit(CaptureRa);
    ok := EmitDelaySlot(f, labels, locals, i, links, cursor, gen);
    Append2(start, [CaptureRa], slot.text);
    if ok {
      EmitReturn(f, labels, gen);
      Append3(start, [CaptureRa], slot.text, ReturnText(f));
    }
  }

  method EmitReturn(f: Func, labels: set<Addr>, gen: Generator)
    requires Fits(f) && labels == Labels(f)
    modifies gen
    ensures gen.text == old(gen.text)
    ensures gen.chunk == old(gen.chunk) + ReturnText(f)
  {
    gen.Emit(RebaseRa(f.sectionRam, f.sectionSize));
    if labels != {} {
      gen.Emit(DispatchRa(labels));
    }
    gen.Emit(TailcallUnlessHome);
    gen.Emit(Return);
  }

  method EmitSwitch(f: Func, labels: set<Addr>, locals: set<Addr>, i: nat, links: nat, cursor: nat,
                    entries: seq<Addr>, gen: Generator)
    returns (ok: bool)
    requires Fits(f) && i < |f.instrs| && labels == Labels(f) && locals == LocalTailcalls(f)
    modifies gen
    ensures gen.text == old(gen.text)
    ensures var e := JumpThroughTable(SlotText(f, i, links, cursor), AddrAt(f, i), entries);
            ok == e.ok && gen.chunk == old(gen.chunk) + e.text
    decreases |f.instrs| - i, 1
  {
    ok := EmitDelaySlot(f, labels, locals, i, links, cursor, gen);
    if ok {
      gen.Emit(Switch(AddrAt(f, i), entries));
    }
  }

  method EmitGuardedBlock(f: Func, labels: set<Addr>, locals: set<Addr>, i: nat, links: nat, cursor: nat, target: Addr,
                          link: bool, gen: Generator)
    returns (ok: bool, needsLink: bool)
    requires Fits(f) && i < |f.instrs| && labels == Labels(f) && locals == LocalTailcalls(f)
    modifies gen
    ensures gen.text == old(gen.text)
    ensures var e := GuardedBlock(f, i, links, SlotText(f, i, links, cursor), target, link);
            ok == e.ok && gen.chunk == old(gen.chunk) + e.text && (ok ==> needsLink == e.needsLink)
    decreases |f.instrs| - i, 2
  {
    needsLink := false;
    if link && !Inside(f, target) {
      ok, needsLink := EmitCall(f, labels, locals, i, links, cursor, Const(target), gen);
    } else {
      ok := EmitBranchTree(f, labels, locals, i, links, cursor, target, gen);
    }
  }

  method EmitConditionalBranch(f: Func, labels: set<Addr>, locals: set<Addr>, i: nat, links: nat, cursor: nat,
                               cond: Guest -> bool, target: Addr, likely: bool, link: bool, gen: Generator)
    returns (ok: bool, needsLink: bool)
    requires Fits(f) && i < |f.instrs| && labels == Labels(f) && locals == LocalTailcalls(f)
    modifies gen
    ensures gen.text == old(gen.text)
    ensures var e := ConditionalBranch(f, i, links, SlotText(f, i, links, cursor), cond, target, likely, link);
            ok == e.ok && gen.chunk == old(gen.chunk) + e.text && (ok ==> needsLink == e.needsLink)
    decreases |f.instrs| - i, 3
  {
    ghost var start := gen.chunk;
    if link {
      gen.Emit(SetLink(RA, AddrAt(f, i) + 8));
    }
    ghost var set_ := if link then [SetLink(RA, AddrAt(f, i) + 8)] else [];
    assert gen.chunk == start + set_;
    gen.Emit(If(cond));
    ok, needsLink := EmitGuardedBlock(f, labels, locals, i, links, cursor, target, link, gen);
    ghost var block := GuardedBlock(f, i, links, SlotText(f, i, links, cursor), target, link);
    Append3(start, set_, [If(cond)], block.text);
    Append4(start, set_, [If(cond)], block.text, [EndIf]);
    if ok {
      gen.Emit(EndIf);
    }
  }

  method EmitBody(f: Func, labels: set<Addr>, locals: set<Addr>, i: nat, links: nat, cursor: nat, gen: Generator)
    returns (ok: bool, needsLink: bool, likely: bool)
    requires Fits(f) && i < |f.instrs| && labels == Labels(f) && locals == LocalTailcalls(f)
    modifies gen
    ensures gen.text == old(gen.text)
    ensures var e := InstructionBody(f, i, links, cursor, SlotText(f, i, links, cursor));
            ok == e.ok && gen.chunk == old(gen.chunk) + e.text && (ok ==> needsLink == e.needsLink)
              && (ok ==> likely == e.likely)
    decreases |f.instrs| - i, 4
  {
    hide SlotText, Instruction, BranchText, OrdinaryText, Labels, LocalTailcalls;
    ok, needsLink, likely := true, false, false;
    var a := AddrAt(f, i);
    match f.instrs[i] {
      case Jump(target) =>
        if target == a {
          gen.Emit(PauseSelf);
        } else {
          ok := EmitBranchTree(f, labels, locals, i, links, cursor, target, gen);
        }
      case Jal(target) =>
        ok, needsLink := EmitJal(f, labels, locals, i, links, cursor, target, gen);
      case Jalr(rd, rs) =>
        ok, needsLink := EmitJalr(f, labels, locals, i, links, cursor, rd, rs, gen);
      case Jr(rs) =>
        if rs == RA {
          ok := EmitJrRaReturn(f, labels, locals, i, links, cursor, gen);
        } else {
          // The result is dropped.
          var emitted := EmitTailcall(f, labels, locals, i, links, cursor, rs, gen);
        }
      case TableJr(_, entries) =>
        ok := EmitSwitch(f, labels, locals, i, links, cursor, entries, gen);
      case Branch(cond, target, isLikely, link) =>
        ok, needsLink := EmitConditionalBranch(f, labels, locals, i, links, cursor, cond, target, isLikely, link, gen);
        likely := isLikely;
      case _ =>
        EmitOrdinary(f.instrs[i], RelocSeen(f, cursor, a), gen);
    }
  }

  method EmitOrdinary(instr: Instr, reloc: Option<Reloc>, gen: Generator)
    requires !IsControl(instr)
    modifies gen
    ensures gen.text == old(gen.text) && gen.chunk == old(gen.chunk) + OrdinaryText(instr, reloc)
  {
    match instr {
      case Plain(effect) =>
        gen.Emit(Do(effect, reloc));
      case TableAddu(effect, index, jr) =>
        gen.Emit(SaveAddend(jr, index));
        gen.Emit(Do(effect, reloc));
      case TableLw(rt, address, load, jr) =>
        gen.Emit(EntryAddress(rt, address, load, jr, reloc));
    }
  }

  /** Translates instruction `i`, copying its delay slot into its body. */
  method ProcessInstruction(f: Func, labels: set<Addr>, locals: set<Addr>, i: nat, links: nat, cursor: nat,
                            gen: Generator)
    returns (ok: bool, needsLink: bool, likely: bool)
    requires Fits(f) && i < |f.instrs| && labels == Labels(f) && locals == LocalTailcalls(f)
    modifies gen
    ensures gen.text == old(gen.text)
    ensures var e := Instruction(f, i, links, cursor);
            ok == e.ok && gen.chunk == old(gen.chunk) + e.text && (ok ==> needsLink == e.needsLink)
              && (ok ==> likely == e.likely)
    decreases |f.instrs| - i, 5
  {
    ghost var start := gen.chunk;
    gen.Emit(Comment(AddrAt(f, i)));
    ok, needsLink, likely := EmitBody(f, labels, locals, i, links, cursor, gen);
    Append2(start, [Comment(AddrAt(f, i))], InstructionBody(f, i, links, cursor, SlotText(f, i, links, cursor)).text);
  }

  method FindLeast(s: set<Addr>) returns (m: Addr)
    requires s != {}
    ensures m == Least(s)
  {
    m :| m in s;
    var rest := s - {m};
    while rest != {}
      invariant rest <= s && m in s
      invariant forall x: Addr :: x in s && x !in rest ==> m <= x
      decreases rest
    {
      var x :| x in rest;
      if x < m {
        m := x;
      }
      rest := rest - {x};
    }
    assert IsLeast(s, m);
  }

  /** One round of the second pass: the label and relocation cursors move up to the
      instruction, it is translated, and the labels its delay slot closes follow. */
  method EmitChunk(f: Func, labels: set<Addr>, locals: set<Addr>, i: nat, w: Walk, gen: Generator)
    returns (ok: bool, next: Walk)
    requires Fits(f) && i < |f.instrs| && labels == Labels(f) && locals == LocalTailcalls(f)
    requires gen.chunk == []
    modifies gen
    ensures gen.text == old(gen.text)
    ensures ok == WalkEmission(f, i, w).ok
    ensures ok ==> gen.chunk == ChunkText(f, i, w) && next == NextWalk(f, i, w)
  {
    next := w;
    var vram := AddrAt(f, i);
    if w.inLikely {
      gen.Emit(Goto(Skip(w.likelies)));
    }
    if w.labels != {} {
      var label0 := FindLeast(w.labels);
      if vram >= label0 {
        gen.Emit(LabelHere(Loc(label0)));
        next := next.(labels := w.labels - {label0});
      }
    }
    var cursor := w.cursor;
    while cursor + 1 < |f.relocs| && f.relocs[cursor].address < vram
      invariant Advance(f, cursor, vram) == Advance(f, w.cursor, vram)
      decreases |f.relocs| - cursor
    {
      cursor := cursor + 1;
    }
    ghost var before := gen.chunk;
    assert before == (if w.inLikely then [Goto(Skip(w.likelies))] else []) + LabelLine(w.labels, vram);
    var needsLink, isLikely;
    ok, needsLink, isLikely := ProcessInstruction(f, labels, locals, i, w.links, cursor, gen);
    if !ok {
      return;
    }
    EmitClosingLabels(w, gen);
    next := Walk(next.labels, cursor, needsLink,
                 if w.needsLink then w.links + 1 else w.links, isLikely,
                 if w.inLikely then w.likelies + 1 else w.likelies);
  }

  /** The labels after a call's or a likely branch's delay slot. */
  method EmitClosingLabels(w: Walk, gen: Generator)
    modifies gen
    ensures gen.text == old(gen.text)
    ensures gen.chunk == old(gen.chunk) + (if w.needsLink then [LabelHere(After(w.links))] else [])
                       + (if w.inLikely then [LabelHere(Skip(w.likelies))] else [])
  {
    if w.needsLink {
      gen.Emit(LabelHere(After(w.links)));
    }
    if w.inLikely {
      gen.Emit(LabelHere(Skip(w.likelies)));
    }
  }

  /** The second pass: stops at the first instruction that does not translate. */
  method PassTwo(f: Func, labels: set<Addr>, locals: set<Addr>, gen: Generator) returns (ok: bool)
    requires Fits(f) && labels == Labels(f) && locals == LocalTailcalls(f) && gen.chunk == []
    modifies gen
    ensures ok == TranslatesUpTo(f, |f.instrs|)
    ensures ok ==> gen.text == old(gen.text) + Chunks(f, |f.instrs|) && gen.chunk == []
  {
    ghost var before := gen.text;
    assert before == before + Chunks(f, 0);
    var w := Walk(labels, 0, false, 0, false, 0);
    var i := 0;
    while i < |f.instrs|
      invariant 0 <= i <= |f.instrs|
      invariant w == WalkAt(f, i)
      invariant TranslatesUpTo(f, i)
      invariant gen.chunk == [] && gen.text == before + Chunks(f, i)
    {
      var next;
      ok, next := EmitChunk(f, labels, locals, i, w, gen);
      if !ok {
        NotTranslated(f, i, |f.instrs|);
        return;
      }
      gen.EndChunk();
      ChunksGrow(f, i, before);
      w := next;
      i := i + 1;
    }
    ok := true;
  }

  lemma {:induction false} NotTranslated(f: Func, i: nat, n: nat)
    requires Fits(f) && i < n <= |f.instrs| && !WalkEmission(f, i, WalkAt(f, i)).ok
    ensures !TranslatesUpTo(f, n)
    decreases n
  {
    if i + 1 < n {
      NotTranslated(f, i, n - 1);
    }
  }

  /** The whole translation. It succeeds exactly when every instruction does, and
      then leaves the text of the function in the generator. */
  method RecompileFunction(f: Func, gen: Generator) returns (ok: bool)
    requires Fits(f) && gen.text == [] && gen.chunk == []
    modifies gen
    ensures ok <==> Translates(f)
    ensures ok ==> gen.text == Translation(f)
  {
    var labels, locals := CollectLabels(f);
    EmitPrologue(f, gen);
    assert gen.text == [Prologue(f)];
    ok := PassTwo(f, labels, locals, gen);
    if ok {
      EmitEpilogue(f, gen);
    }
  }

  lemma ChunksGrow(f: Func, i: nat, before: Text)
    requires Fits(f) && i < |f.instrs|
    ensures before + Chunks(f, i) + [Chunk(f, i)] == before + Chunks(f, i + 1)
  {
  }

  method EmitPrologue(f: Func, gen: Generator)
    requires Fits(f) && gen.chunk == []
    modifies gen
    ensures gen.text == old(gen.text) + [Prologue(f)] && gen.chunk == []
  {
    if f.dispatch != {} {
      gen.Emit(EnterSwitch(DispatchEntries(f)));
    }
    if EntryLabel(f) != {} {
      gen.Emit(Goto(Loc(f.entry)));
    }
    gen.Emit(LabelHere(Loc(f.vram)));
    assert gen.chunk == Prologue(f);
    gen.EndChunk();
  }

  method EmitEpilogue(f: Func, gen: Generator)
    requires Fits(f) && gen.chunk == []
    modifies gen
    ensures gen.text == old(gen.text) + [Epilogue(f)] && gen.chunk == []
  {
    if EmitsTail(f) {
      gen.Emit(ReturnIfHome(End(f)));
      gen.Emit(RequestTailcall(Const(End(f))));
      gen.Emit(Return);
    }
    gen.Emit(CloseFunction);
    assert gen.chunk == Epilogue(f);
    gen.EndChunk();
  }
}
