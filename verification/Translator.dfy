/** The two-pass translation of one function into label/goto code. */
module Translator {
  import opened Machine
  import opened Emitted

  /** A function of the input program with what the translator looks up about it.
      `requested` lists the static entry points already asked for in its section;
      `callResolves` and `branchResolves` say which outside targets can be named or
      looked up; `tail` holds if another callable function starts at its end. */
  datatype Func = Func(
    vram: Addr,
    entry: Addr,
    instrs: seq<Instr>,
    dispatch: set<Addr>,
    requested: seq<Addr>,
    isStatic: bool,
    relocs: seq<Reloc>,
    sectionRam: Addr,
    sectionSize: nat,
    callResolves: set<Addr>,
    branchResolves: set<Addr>,
    tail: bool)

  const MAX_LOCAL_TAILCALL_SIZE := 0x2000
  const MAX_LOCAL_TAILCALL_LABELS := 256

  /** The function does not wrap around the 32-bit address space. */
  predicate Fits(f: Func) {
    f.vram + 4 * |f.instrs| + 8 < WORD
  }

  function End(f: Func): Addr
    requires Fits(f)
  {
    f.vram + 4 * |f.instrs|
  }

  function AddrAt(f: Func, i: nat): Addr
    requires Fits(f) && i <= |f.instrs|
  {
    f.vram + 4 * i
  }

  predicate Inside(f: Func, a: Addr)
    requires Fits(f)
  {
    f.vram <= a < End(f)
  }

  predicate StrictlyInside(f: Func, a: Addr)
    requires Fits(f)
  {
    f.vram < a < End(f)
  }

  // ----- Pass one: labels -----

  /** The labels one instruction asks for. */
  function LabelsOf(f: Func, i: nat): (r: set<Addr>)
    requires Fits(f) && i < |f.instrs|
  {
    var back := AddrAt(f, i) + 8;
    var resume := if Inside(f, back) then {back} else {};
    match f.instrs[i]
    case Plain(_) => {}
    case Branch(_, target, _, link) => {target} + (if link then resume else {})
    case Jump(target) => {target}
    case Jal(target) => (if Inside(f, target) then {target} else {}) + resume
    case Jalr(rd, _) => if rd == RA then resume else {}
    case Jr(_) => {}
    case TableAddu(_, _, _) => {}
    case TableLw(_, _, _, _) => {}
    case TableJr(_, entries) => set e | e in entries
  }

  function LabelsBefore(f: Func, i: nat): set<Addr>
    requires Fits(f) && i <= |f.instrs|
  {
    if i == 0 then {} else LabelsBefore(f, i - 1) + LabelsOf(f, i - 1)
  }

  function RequestedInside(f: Func, n: nat): set<Addr>
    requires Fits(f) && n <= |f.requested|
  {
    if n == 0 then {}
    else RequestedInside(f, n - 1) + if StrictlyInside(f, f.requested[n - 1]) then {f.requested[n - 1]} else {}
  }

  /** The requested static entries inside the function, unless it is too large, is
      itself synthesised, or there are too many of them. */
  function LocalTailcalls(f: Func): set<Addr>
    requires Fits(f)
  {
    var inside := RequestedInside(f, |f.requested|);
    if f.isStatic || 4 * |f.instrs| > MAX_LOCAL_TAILCALL_SIZE
      || |inside| > MAX_LOCAL_TAILCALL_LABELS then {} else inside
  }

  function DispatchEntries(f: Func): set<Addr>
    requires Fits(f)
  {
    set a | a in f.dispatch && StrictlyInside(f, a)
  }

  function EntryLabel(f: Func): set<Addr> {
    if f.entry != 0 && f.entry != f.vram then {f.entry} else {}
  }

  function OnlyInside(f: Func, all: set<Addr>): set<Addr>
    requires Fits(f)
  {
    set a | a in all && StrictlyInside(f, a)
  }

  /** The labels emitted inside the function; the one at its start is separate. */
  function Labels(f: Func): set<Addr>
    requires Fits(f)
  {
    OnlyInside(f, DispatchEntries(f) + EntryLabel(f) + LabelsBefore(f, |f.instrs|) + LocalTailcalls(f))
  }

  // ----- Pass two: one instruction -----

  /** What translating an instruction produced. When `ok` is false the translation
      of the function is abandoned. */
  datatype Emission = Emission(ok: bool, text: seq<Stmt>, needsLink: bool, likely: bool)

  /** The relocation an instruction picks up when the cursor stands at `cursor`. */
  function RelocSeen(f: Func, cursor: nat, a: Addr): Option<Reloc> {
    if cursor < |f.relocs| && f.relocs[cursor].address == a then Some(f.relocs[cursor]) else None
  }

  /** The cursor handed to the copy of a delay slot. */
  function SlotCursor(f: Func, cursor: nat, slot: Addr): nat {
    if cursor + 1 < |f.relocs| && slot > f.relocs[cursor].address then cursor + 1 else cursor
  }

  /** The cursor moved forward to the first relocation at or after `a`. */
  function Advance(f: Func, cursor: nat, a: Addr): (r: nat)
    ensures cursor < |f.relocs| ==> r < |f.relocs|
    decreases |f.relocs| - cursor
  {
    if cursor + 1 < |f.relocs| && f.relocs[cursor].address < a then Advance(f, cursor + 1, a) else cursor
  }

  function ReturnLabel(f: Func, i: nat): Addr
    requires Fits(f) && i < |f.instrs|
  {
    var back := AddrAt(f, i) + 8;
    if back in Labels(f) then back else 0
  }

  function Prefixed(text: seq<Stmt>, e: Emission): Emission {
    e.(text := text + e.text)
  }

  function Failed(e: Emission): Emission {
    e.(needsLink := false, likely := false)
  }

  // In the forms below `slot` is the emission of the delay slot's copy.

  /** The body of a branch or jump: tail call when the target is outside the
      function, checkpoint and goto otherwise. */
  function BranchTree(f: Func, i: nat, slot: Emission, target: Addr): Emission
    requires Fits(f) && i < |f.instrs|
  {
    if !slot.ok then Failed(slot) else Emission(true, slot.text + BranchText(f, i, target), false, false)
  }

  function BranchText(f: Func, i: nat, target: Addr): seq<Stmt>
    requires Fits(f) && i < |f.instrs|
  {
    if !Inside(f, target) then
      if target in f.branchResolves then [ReturnIfHome(target), RequestTailcall(Const(target)), Return]
      else [UnhandledBranch(target), Return]
    else if target <= AddrAt(f, i) then [Checkpoint(AddrAt(f, i)), Goto(Loc(target))]
    else [Goto(Loc(target))]
  }

  /** A call to a destination outside the function, resumed at `after_<n>`. */
  function CallTo(f: Func, i: nat, links: nat, slot: Emission, dest: Dest): Emission
    requires Fits(f) && i < |f.instrs|
  {
    if dest.Const? && dest.addr !in f.callResolves then Emission(true, [UnhandledCall(dest.addr)], false, false)
    else if !slot.ok then slot.(needsLink := true, likely := false)
    else Emission(true, slot.text + [Call(dest, LocalTailcalls(f), ReturnLabel(f, i)), Goto(After(links))], true, false)
  }

  /** A tail call through a register. */
  function TailcallTo(slot: Emission, rs: Reg): Emission {
    if !slot.ok then Failed(slot)
    else Emission(true, slot.text + [RequestTailcall(FromReg(rs)), Return], false, false)
  }

  /** `jal`: a goto within the function, a call elsewhere. */
  function JumpAndLink(f: Func, i: nat, links: nat, slot: Emission, target: Addr): Emission
    requires Fits(f) && i < |f.instrs|
  {
    Prefixed([SetLink(RA, AddrAt(f, i) + 8)],
             if !Inside(f, target) then CallTo(f, i, links, slot, Const(target))
             else if !slot.ok then Failed(slot)
             else Emission(true, slot.text + [Goto(Loc(target))], false, false))
  }

  /** `jalr`: a call if it links `$ra`, a tail call otherwise. */
  function JumpAndLinkRegister(f: Func, i: nat, links: nat, slot: Emission, rd: Reg, rs: Reg): Emission
    requires Fits(f) && i < |f.instrs|
  {
    Prefixed(if rd != 0 then [SetLink(rd, AddrAt(f, i) + 8)] else [],
             if rd == RA then CallTo(f, i, links, slot, FromReg(rs)) else TailcallTo(slot, rs))
  }

  /** What follows the delay slot of a `jr $ra`. */
  function ReturnText(f: Func): seq<Stmt>
    requires Fits(f)
  {
    [RebaseRa(f.sectionRam, f.sectionSize)]
    + ((if Labels(f) != {} then [DispatchRa(Labels(f))] else []) + [TailcallUnlessHome, Return])
  }

  /** `jr $ra`. */
  function JumpToRa(f: Func, slot: Emission): Emission
    requires Fits(f)
  {
    Prefixed([CaptureRa], if !slot.ok then Failed(slot) else Emission(true, slot.text + ReturnText(f), false, false))
  }

  function JumpThroughTable(slot: Emission, jr: Addr, entries: seq<Addr>): Emission {
    if !slot.ok then Failed(slot) else Emission(true, slot.text + [Switch(jr, entries)], false, false)
  }

  /** The block run when a branch is taken. */
  function GuardedBlock(f: Func, i: nat, links: nat, slot: Emission, target: Addr, link: bool): Emission
    requires Fits(f) && i < |f.instrs|
  {
    if link && !Inside(f, target) then CallTo(f, i, links, slot, Const(target)) else BranchTree(f, i, slot, target)
  }

  /** A conditional branch: the link write comes first, on both paths. */
  function ConditionalBranch(f: Func, i: nat, links: nat, slot: Emission, cond: Guest -> bool, target: Addr,
                             likely: bool, link: bool): Emission
    requires Fits(f) && i < |f.instrs|
  {
    var block := GuardedBlock(f, i, links, slot, target, link);
    Prefixed(if link then [SetLink(RA, AddrAt(f, i) + 8)] else [],
             Prefixed([If(cond)],
                      if !block.ok then block else Emission(true, block.text + [EndIf], block.needsLink, likely)))
  }

  predicate IsControl(instr: Instr) {
    !instr.Plain? && !instr.TableAddu? && !instr.TableLw?
  }

  /** An ordinary instruction. The index of a table jump is saved before it is added, and
      the load of the entry becomes the addition of its address. */
  function OrdinaryText(instr: Instr, reloc: Option<Reloc>): (r: seq<Stmt>)
    requires !IsControl(instr)
    ensures r != []
  {
    match instr
    case Plain(effect) => [Do(effect, reloc)]
    case TableAddu(effect, index, jr) => [SaveAddend(jr, index), Do(effect, reloc)]
    case TableLw(rt, address, load, jr) => [EntryAddress(rt, address, load, jr, reloc)]
  }

  /** A plain `jr` through a register reports success even when its delay slot lies
      outside the function. */
  function InstructionBody(f: Func, i: nat, links: nat, cursor: nat, slot: Emission): Emission
    requires Fits(f) && i < |f.instrs|
  {
    var a := AddrAt(f, i);
    match f.instrs[i]
    case Jump(target) =>
      if target == a then Emission(true, [PauseSelf], false, false) else BranchTree(f, i, slot, target)
    case Jal(target) => JumpAndLink(f, i, links, slot, target)
    case Jalr(rd, rs) => JumpAndLinkRegister(f, i, links, slot, rd, rs)
    case Jr(rs) => if rs == RA then JumpToRa(f, slot) else TailcallTo(slot, rs).(ok := true)
    case TableJr(_, entries) => JumpThroughTable(slot, a, entries)
    case Branch(cond, target, likely, link) => ConditionalBranch(f, i, links, slot, cond, target, likely, link)
    case _ => Emission(true, OrdinaryText(f.instrs[i], RelocSeen(f, cursor, a)), false, false)
  }

  /** The translation of instruction `i`. The delay slot is translated as an
      instruction of its own; there is none after the last word. */
  function Instruction(f: Func, i: nat, links: nat, cursor: nat): Emission
    requires Fits(f) && i < |f.instrs|
    decreases |f.instrs| - i
  {
    var slot := if i + 1 >= |f.instrs| then Emission(false, [], false, false)
                else Instruction(f, i + 1, links, SlotCursor(f, cursor, AddrAt(f, i + 1)));
    Prefixed([Comment(AddrAt(f, i))], InstructionBody(f, i, links, cursor, slot))
  }

  function SlotText(f: Func, i: nat, links: nat, cursor: nat): Emission
    requires Fits(f) && i < |f.instrs|
  {
    if i + 1 >= |f.instrs| then Emission(false, [], false, false)
    else Instruction(f, i + 1, links, SlotCursor(f, cursor, AddrAt(f, i + 1)))
  }

  lemma Append2<T>(s: seq<T>, a: seq<T>, b: seq<T>)
    ensures s + a + b == s + (a + b)
  {
  }

  lemma Append3<T>(s: seq<T>, a: seq<T>, b: seq<T>, c: seq<T>)
    ensures s + a + b + c == s + (a + (b + c))
  {
  }

  lemma Append4<T>(s: seq<T>, a: seq<T>, b: seq<T>, c: seq<T>, d: seq<T>)
    ensures s + a + b + c + d == s + (a + (b + (c + d)))
  {
  }

  lemma SnocAt<T>(s: seq<T>, x: T, i: nat)
    requires i <= |s|
    ensures (s + [x])[i] == if i < |s| then s[i] else x
  {
  }

  // ----- Pass two: the walk -----

  /** The state the second pass carries from one instruction to the next. `labels`
      are those not emitted yet. */
  datatype Walk = Walk(labels: set<Addr>, cursor: nat, needsLink: bool, links: nat, inLikely: bool, likelies: nat)

  predicate IsLeast(s: set<Addr>, m: Addr) {
    m in s && forall x :: x in s ==> m <= x
  }

  ghost function Least(s: set<Addr>): (m: Addr)
    requires s != {}
    ensures IsLeast(s, m)
  {
    LeastExists(s);
    var m: Addr :| IsLeast(s, m);
    m
  }

  lemma {:induction false} LeastExists(s: set<Addr>)
    requires s != {}
    ensures exists m: Addr :: IsLeast(s, m)
    decreases s
  {
    var x :| x in s;
    if s == {x} {
      assert IsLeast(s, x);
    } else {
      LeastExists(s - {x});
      var m: Addr :| IsLeast(s - {x}, m);
      var least: Addr := if x < m then x else m;
      forall y | y in s
        ensures least <= y
      {
        assert y == x || y in s - {x};
      }
      assert IsLeast(s, least);
    }
  }

  /** Whether the label iterator drops a label at the instruction at `a`. */
  ghost predicate DropsLabel(labels: set<Addr>, a: Addr) {
    labels != {} && a >= Least(labels)
  }

  ghost function LabelLine(labels: set<Addr>, a: Addr): seq<Stmt> {
    if DropsLabel(labels, a) then [LabelHere(Loc(Least(labels)))] else []
  }

  ghost function WalkEmission(f: Func, i: nat, w: Walk): Emission
    requires Fits(f) && i < |f.instrs|
  {
    Instruction(f, i, w.links, Advance(f, w.cursor, AddrAt(f, i)))
  }

  ghost function ChunkText(f: Func, i: nat, w: Walk): seq<Stmt>
    requires Fits(f) && i < |f.instrs|
  {
    (if w.inLikely then [Goto(Skip(w.likelies))] else [])
    + LabelLine(w.labels, AddrAt(f, i))
    + WalkEmission(f, i, w).text
    + (if w.needsLink then [LabelHere(After(w.links))] else [])
    + (if w.inLikely then [LabelHere(Skip(w.likelies))] else [])
  }

  ghost function NextWalk(f: Func, i: nat, w: Walk): Walk
    requires Fits(f) && i < |f.instrs|
  {
    var a := AddrAt(f, i);
    var e := WalkEmission(f, i, w);
    Walk(
      if DropsLabel(w.labels, a) then w.labels - {Least(w.labels)} else w.labels,
      Advance(f, w.cursor, a),
      e.needsLink,
      if w.needsLink then w.links + 1 else w.links,
      e.likely,
      if w.inLikely then w.likelies + 1 else w.likelies)
  }

  ghost function WalkAt(f: Func, i: nat): Walk
    requires Fits(f) && i <= |f.instrs|
  {
    if i == 0 then Walk(Labels(f), 0, false, 0, false, 0) else NextWalk(f, i - 1, WalkAt(f, i - 1))
  }

  ghost function Chunk(f: Func, i: nat): seq<Stmt>
    requires Fits(f) && i < |f.instrs|
  {
    ChunkText(f, i, WalkAt(f, i))
  }

  ghost predicate TranslatesUpTo(f: Func, n: nat)
    requires Fits(f) && n <= |f.instrs|
  {
    n > 0 ==> TranslatesUpTo(f, n - 1) && WalkEmission(f, n - 1, WalkAt(f, n - 1)).ok
  }

  /** Every instruction translates. */
  ghost predicate Translates(f: Func)
    requires Fits(f)
  {
    TranslatesUpTo(f, |f.instrs|)
  }

  function Prologue(f: Func): seq<Stmt>
    requires Fits(f)
  {
    (if f.dispatch != {} then [EnterSwitch(DispatchEntries(f))] else [])
    + (if EntryLabel(f) != {} then [Goto(Loc(f.entry))] else [])
    + [LabelHere(Loc(f.vram))]
  }

  // ----- The end of the function -----

  predicate ControlFallsThrough(instr: Instr) {
    match instr
    case Jump(_) => false
    case Jr(_) => false
    case TableJr(_, _) => false
    case Jalr(rd, _) => rd == RA
    case _ => true
  }

  predicate EndFallsThrough(f: Func) {
    var n := |f.instrs|;
    if n == 0 then false
    else if n >= 2 && IsControl(f.instrs[n - 2]) then ControlFallsThrough(f.instrs[n - 2])
    else ControlFallsThrough(f.instrs[n - 1])
  }

  predicate EmitsTail(f: Func) {
    EndFallsThrough(f) && f.tail
  }

  function Epilogue(f: Func): seq<Stmt>
    requires Fits(f)
  {
    (if EmitsTail(f) then [ReturnIfHome(End(f)), RequestTailcall(Const(End(f))), Return] else []) + [CloseFunction]
  }

  ghost function Chunks(f: Func, n: nat): (t: Text)
    requires Fits(f) && n <= |f.instrs|
    ensures |t| == n
  {
    if n == 0 then [] else Chunks(f, n - 1) + [Chunk(f, n - 1)]
  }

  lemma {:induction false} ChunkOf(f: Func, n: nat, i: nat)
    requires Fits(f) && i < n <= |f.instrs|
    ensures Chunks(f, n)[i] == Chunk(f, i)
    decreases n
  {
    hide Chunk;
    SnocAt(Chunks(f, n - 1), Chunk(f, n - 1), i);
    if i < n - 1 {
      ChunkOf(f, n - 1, i);
    }
  }

  /** The text of the translated function. */
  ghost function Translation(f: Func): Text
    requires Fits(f)
  {
    [Prologue(f)] + Chunks(f, |f.instrs|) + [Epilogue(f)]
  }
}
