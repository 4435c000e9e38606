/** The guest program point of every emitted line.

    `Lines(f, i)` pairs the statements emitted for instruction `i` with the state the
    processor is in when the host is about to run them. */
module Points {
  import opened Machine
  import opened Emitted
  import opened Translator
  import opened Host

  datatype Where =
      /** The next guest instruction is the one `dest` names, in sequence. */
    | Goes(dest: Dest)
      /** As `Goes(Const(pc))`, but the host has already written `$ra`. */
    | Linked(pc: Addr)
      /** In the delay slot at `pc`, `dest` names what follows. */
    | Slot(pc: Addr, dest: Dest)
      /** In the delay slot at `pc`, what follows was captured from `$ra`. */
    | Captured(pc: Addr)
    | Returning
      /** In the delay slot at `pc` of the table jump `jr`: what follows is the word that
          was loaded for it. */
    | Tabled(pc: Addr, jr: Addr)
      /** The next guest instruction is that word, if it is one of the entries. */
    | Chosen(jr: Addr, entries: seq<Addr>)
      /** The next guest instruction is the pending tail call target. */
    | Pending
      /** The next guest instruction is the host return target. */
    | Home
      /** At the top of the function, before the dispatch switch. */
    | Entering
      /** Control never gets here. */
    | Never

  /** `ra`, if present, is the value `$ra` holds. */
  datatype Point = Point(at: Where, ra: Option<Addr>)

  datatype Line = Line(stmt: Stmt, at: Point)

  function Seq(a: Addr): Point {
    Point(Goes(Const(a)), None)
  }

  function Entry(f: Func): Addr {
    if EntryLabel(f) != {} then f.entry else f.vram
  }

  // ----- What the program must satisfy -----

  /** What may be stale at a point; where a register names the destination it may not. */
  function StaleOf(k: Slack, at: Where): Stale {
    match at
    case Goes(Const(a)) => StaleAt(k, a)
    case Goes(FromReg(r)) => Temps(k) - {r}
    case Linked(a) => StaleAt(k, a)
    case Slot(pc, _) => StaleAt(k, Minus(pc, 4))
    case Captured(pc) => StaleAt(k, Minus(pc, 4))
    case Tabled(pc, _) => StaleAt(k, Minus(pc, 4))
    case _ => Temps(k)
  }

  /** The effect takes states that agree up to `s` to states that agree up to `t`. */
  ghost predicate Carries(k: Slack, s: Stale, t: Stale, e: Effect) {
    forall words, reloc, x, y {:trigger Same(k, s, words, x, y), e(reloc, x)} ::
      Same(k, s, words, x, y) ==> Same(k, t, words, e(reloc, x), e(reloc, y))
  }

  /** The test sees nothing that is stale. */
  ghost predicate Sees(k: Slack, s: Stale, c: Guest -> bool) {
    forall words, x, y {:trigger Same(k, s, words, x, y)} :: Same(k, s, words, x, y) ==> c(x) == c(y)
  }

  ghost predicate SeesLoad(k: Slack, s: Stale, load: (Option<Reloc>, Guest) -> Addr) {
    forall words, reloc, x, y {:trigger Same(k, s, words, x, y), load(reloc, x)} ::
      Same(k, s, words, x, y) ==> load(reloc, x) == load(reloc, y)
  }

  /** After a rewritten load for the table jump `jr` the register `rt` is stale, and
      nothing else carries the word of `jr`. */
  predicate LoadLeaves(s: Stale, t: Stale, rt: Reg, jr: Addr) {
    && rt != 0 && rt in t && (t[rt].None? || t[rt] == Some(jr)) && Weaker(s - {rt}, t - {rt})
    && forall r :: r in t && r != rt ==> t[r] != Some(jr)
  }

  ghost predicate IgnoresRa(c: Guest -> bool) {
    forall g: Guest, v: nat {:trigger Put(g, RA, v)} :: c(Put(g, RA, v)) == c(g)
  }

  ghost predicate Keeps(e: Effect, r: Reg) {
    forall reloc, g {:trigger e(reloc, g)} :: Low(Get(e(reloc, g), r)) == Low(Get(g, r))
  }

  /** The delay slot of `i` is an ordinary instruction of the function. */
  predicate HasSlot(f: Func, i: nat)
    requires i < |f.instrs|
  {
    i + 1 < |f.instrs| && f.instrs[i + 1].Plain?
  }

  function SlotEffect(f: Func, i: nat): Effect
    requires i < |f.instrs| && HasSlot(f, i)
  {
    f.instrs[i + 1].effect
  }

  ghost predicate SlotsOk(f: Func) {
    forall i :: 0 <= i < |f.instrs| && IsControl(f.instrs[i]) ==> HasSlot(f, i)
  }

  /** The slot of `i` leads to `at`. */
  ghost predicate SlotCarries(f: Func, k: Slack, i: nat, at: Where)
    requires Fits(f) && i < |f.instrs| && HasSlot(f, i)
  {
    Carries(k, StaleAt(k, AddrAt(f, i)), StaleOf(k, at), SlotEffect(f, i))
  }

  /** A call: its slot keeps `$ra`, and control may come back. */
  ghost predicate CallOk(f: Func, k: Slack, i: nat)
    requires Fits(f) && i < |f.instrs| && HasSlot(f, i)
  {
    Keeps(SlotEffect(f, i), RA) && Open(k, AddrAt(f, i) + 8)
  }

  /** A jump to an address: control may leave the function there, or it is inside. */
  ghost predicate JumpOk(f: Func, k: Slack, i: nat, target: Addr)
    requires Fits(f) && i < |f.instrs| && HasSlot(f, i)
  {
    SlotCarries(f, k, i, Goes(Const(target))) && (Inside(f, target) || Shut(k, target))
  }

  /** What each instruction must satisfy: no control transfer in a delay slot; the
      slot of an indirect jump keeps the jump register, that of a call keeps `$ra`;
      nothing observes the upper half of a link register, or what is stale. */
  ghost predicate InstrOk(f: Func, k: Slack, i: nat)
    requires Fits(f) && i < |f.instrs|
  {
    && (IsControl(f.instrs[i]) ==> HasSlot(f, i))
    && var a, s := AddrAt(f, i), StaleAt(k, AddrAt(f, i));
       match f.instrs[i]
       case Plain(effect) => Carries(k, s, StaleAt(k, a + 4), effect)
       case TableAddu(effect, _, _) => Carries(k, s, StaleAt(k, a + 4), effect)
       case TableLw(rt, _, load, jr) => SeesLoad(k, s, load) && LoadLeaves(s, StaleAt(k, a + 4), rt, jr)
       case Branch(cond, target, likely, link) =>
         && Sees(k, s, cond) && JumpOk(f, k, i, target)
         && Weaker(s, StaleAt(k, if likely then a + 8 else a + 4))
         && (link ==> RA in k.links && RA !in s && IgnoresRa(cond))
         && (link && !Inside(f, target) ==> CallOk(f, k, i))
       case Jump(target) => target == a || JumpOk(f, k, i, target)
       case Jal(target) =>
         && RA in k.links && RA !in s && JumpOk(f, k, i, target)
         && (!Inside(f, target) ==> CallOk(f, k, i))
       case Jalr(rd, rs) =>
         && (rd != 0 ==> rd in k.links && rs != rd && rd !in s)
         && Keeps(SlotEffect(f, i), rs) && SlotCarries(f, k, i, Goes(FromReg(rs)))
         && (rd == RA ==> CallOk(f, k, i))
       case Jr(rs) =>
         if rs == RA then RA !in s && SlotCarries(f, k, i, Returning)
         else Keeps(SlotEffect(f, i), rs) && SlotCarries(f, k, i, Goes(FromReg(rs)))
       case TableJr(rs, entries) =>
         && rs != 0 && rs in s && s[rs] == Some(a)
         && forall e :: e in entries ==> Inside(f, e) && SlotCarries(f, k, i, Goes(Const(e)))
  }

  ghost predicate RelocsSorted(f: Func) {
    forall j, k :: 0 <= j < k < |f.relocs| ==> f.relocs[j].address < f.relocs[k].address
  }

  /** Relocations are sorted and fall on instruction words. */
  ghost predicate RelocsOk(f: Func) {
    && RelocsSorted(f)
    && (forall j :: 0 <= j < |f.relocs| ==> (f.relocs[j].address - f.vram) % 4 == 0)
  }

  ghost function RelocLookup(f: Func, a: Addr): Option<Reloc> {
    if exists j :: 0 <= j < |f.relocs| && f.relocs[j].address == a
    then var j :| 0 <= j < |f.relocs| && f.relocs[j].address == a; Some(f.relocs[j])
    else None
  }

  predicate Aligned(f: Func, a: Addr) {
    (a - f.vram) % 4 == 0
  }

  /** The last word can be reached neither in sequence nor by a label. */
  ghost predicate LastIsDead(f: Func)
    requires Fits(f)
  {
    var n := |f.instrs|;
    n >= 2 && IsControl(f.instrs[n - 2]) && !ControlFallsThrough(f.instrs[n - 2]) && AddrAt(f, n - 1) !in Labels(f)
  }

  /** Control cannot run off the end of the emitted function. */
  ghost predicate EndSafe(f: Func)
    requires Fits(f)
  {
    EmitsTail(f) || LastIsDead(f)
  }

  /** Where control comes from and goes to other functions. */
  ghost predicate BordersOk(f: Func, k: Slack)
    requires Fits(f)
  {
    && RA !in k.temps && Open(k, Entry(f)) && (EmitsTail(f) ==> Shut(k, End(f)))
    && (forall a :: a in DispatchEntries(f) ==> Open(k, a))
    && (forall a :: a in LocalTailcalls(f) ==> Open(k, a))
  }

  /** The static part of well-formedness: everything but the end of the function. */
  ghost predicate BodyOk(f: Func, k: Slack) {
    && Fits(f) && |f.instrs| > 0
    && (forall i :: 0 <= i < |f.instrs| ==> InstrOk(f, k, i))
    && BordersOk(f, k)
    && RelocsOk(f)
    && (forall l :: l in Labels(f) ==> Aligned(f, l))
    && Inside(f, Entry(f))
  }

  ghost predicate CodeOk(p: Program, f: Func)
    requires Fits(f)
  {
    forall i {:trigger f.instrs[i]} :: 0 <= i < |f.instrs| ==>
      && AddrAt(f, i) in p.image.code && p.image.code[AddrAt(f, i)] == f.instrs[i]
      && RelocOf(p.image, AddrAt(f, i)) == RelocLookup(f, AddrAt(f, i))
  }

  /** Rebasing a return address leaves it alone wherever code can return to: the section
      is loaded where it was linked, or where none of these addresses lies. */
  ghost predicate RebasesNothing(p: Program, fn: nat)
    requires fn < |p.funcs| && fn < |p.bases|
  {
    var f := p.funcs[fn];
    forall a :: a in p.known ==> Rebased(p.bases[fn], f.sectionRam, f.sectionSize, a) == a
  }

  ghost predicate FuncOk(p: Program, fn: nat)
    requires fn < |p.funcs|
  {
    BodyOk(p.funcs[fn], p.slack) && CodeOk(p, p.funcs[fn]) && fn < |p.bases| && RebasesNothing(p, fn)
  }

  /** A lookup finds a function that starts at the target, or one that lists the
      target among its dispatch entries. */
  ghost predicate LookupOk(p: Program) {
    forall t :: t in p.lookup ==>
      && p.lookup[t].fn < |p.funcs| && Fits(p.funcs[p.lookup[t].fn])
      && var f := p.funcs[p.lookup[t].fn];
         if p.lookup[t].start == 0 then Entry(f) == t
         else p.lookup[t].start == t && t in DispatchEntries(f)
  }

  ghost predicate ProgramOk(p: Program) {
    && LookupOk(p)
    && forall fn :: 0 <= fn < |p.funcs| ==> FuncOk(p, fn) && EndSafe(p.funcs[fn])
  }

  // ----- Lines -----

  predicate NeedsLink(f: Func, i: nat)
    requires Fits(f) && i < |f.instrs|
  {
    match f.instrs[i]
    case Jal(target) => !Inside(f, target) && target in f.callResolves
    case Jalr(rd, _) => rd == RA
    case Branch(_, target, _, link) => link && !Inside(f, target) && target in f.callResolves
    case _ => false
  }

  predicate IsLikely(f: Func, i: nat)
    requires i < |f.instrs|
  {
    f.instrs[i].Branch? && f.instrs[i].likely
  }

  /** The number of calls whose delay slots end before instruction `i`: the number
      of the `after_` label that instruction `i` emits or jumps to. */
  function CallsBefore(f: Func, i: nat): nat
    requires Fits(f) && i <= |f.instrs|
  {
    if i == 0 then 0 else CallsBefore(f, i - 1) + if i > 1 && NeedsLink(f, i - 2) then 1 else 0
  }

  /** Likewise for likely branches and `skip_` labels. */
  function LikeliesBefore(f: Func, i: nat): nat
    requires Fits(f) && i <= |f.instrs|
  {
    if i == 0 then 0 else LikeliesBefore(f, i - 1) + if i > 1 && IsLikely(f, i - 2) then 1 else 0
  }

  /** The point at which the chunk of instruction `i` is entered in sequence. */
  function ChunkEntry(f: Func, i: nat): Point
    requires Fits(f) && i <= |f.instrs|
  {
    if 0 < i < |f.instrs| && IsLikely(f, i - 1) then Seq(AddrAt(f, i) + 4) else Seq(AddrAt(f, i))
  }

  ghost function SlotLines(f: Func, i: nat, at: Point): seq<Line>
    requires Fits(f) && i < |f.instrs| && HasSlot(f, i)
  {
    var a := AddrAt(f, i + 1);
    [Line(Comment(a), at), Line(Do(SlotEffect(f, i), RelocLookup(f, a)), at)]
  }

  ghost function TreeTail(f: Func, i: nat, target: Addr): seq<Line>
    requires Fits(f) && i < |f.instrs|
  {
    var a, at := AddrAt(f, i), Seq(target);
    if !Inside(f, target) then
      if target in f.branchResolves then
        [Line(ReturnIfHome(target), at), Line(RequestTailcall(Const(target)), at), Line(Return, Point(Pending, None))]
      else [Line(UnhandledBranch(target), at), Line(Return, Point(Pending, None))]
    else if target <= a then [Line(Checkpoint(a), at), Line(Goto(Loc(target)), at)]
    else [Line(Goto(Loc(target)), at)]
  }

  ghost function TreeLines(f: Func, i: nat, target: Addr): seq<Line>
    requires Fits(f) && i < |f.instrs| && HasSlot(f, i)
  {
    SlotLines(f, i, Point(Slot(AddrAt(f, i) + 4, Const(target)), None)) + TreeTail(f, i, target)
  }

  ghost function CallTail(f: Func, i: nat, links: nat, dest: Dest): seq<Line>
    requires Fits(f) && i < |f.instrs|
  {
    var a := AddrAt(f, i);
    [Line(Call(dest, LocalTailcalls(f), ReturnLabel(f, i)), Point(Goes(dest), Some(a + 8))),
     Line(Goto(After(links)), Seq(a + 8))]
  }

  ghost function CallLines(f: Func, i: nat, links: nat, dest: Dest): seq<Line>
    requires Fits(f) && i < |f.instrs| && HasSlot(f, i)
  {
    var a := AddrAt(f, i);
    var slot := Point(Slot(a + 4, dest), Some(a + 8));
    if dest.Const? && dest.addr !in f.callResolves then
      [Line(UnhandledCall(dest.addr), slot)]
    else
      SlotLines(f, i, slot) + CallTail(f, i, links, dest)
  }

  ghost function TailcallLines(f: Func, i: nat, rs: Reg): seq<Line>
    requires Fits(f) && i < |f.instrs| && HasSlot(f, i)
  {
    SlotLines(f, i, Point(Slot(AddrAt(f, i) + 4, FromReg(rs)), None))
    + [Line(RequestTailcall(FromReg(rs)), Point(Goes(FromReg(rs)), None)), Line(Return, Point(Pending, None))]
  }

  ghost function RaTail(f: Func): seq<Line>
    requires Fits(f)
  {
    var back := Point(Returning, None);
    [Line(RebaseRa(f.sectionRam, f.sectionSize), back)]
    + ((if Labels(f) != {} then [Line(DispatchRa(Labels(f)), back)] else [])
       + [Line(TailcallUnlessHome, back), Line(Return, Point(Home, None))])
  }

  ghost function JumpToRaLines(f: Func, i: nat): seq<Line>
    requires Fits(f) && i < |f.instrs| && HasSlot(f, i)
  {
    var a := AddrAt(f, i);
    [Line(CaptureRa, Seq(a))] + (SlotLines(f, i, Point(Captured(a + 4), None)) + RaTail(f))
  }

  /** The point at which control leaves instruction `i` in sequence. */
  function BodyExit(f: Func, i: nat): Point
    requires Fits(f) && i < |f.instrs|
  {
    Seq(if IsLikely(f, i) then AddrAt(f, i) + 8 else AddrAt(f, i) + 4)
  }

  /** The guarded block of a branch and the brace that closes it. */
  ghost function BlockLines(f: Func, i: nat, links: nat): seq<Line>
    requires Fits(f) && i < |f.instrs| && f.instrs[i].Branch? && HasSlot(f, i)
  {
    var b := f.instrs[i];
    (if b.link && !Inside(f, b.target) then CallLines(f, i, links, Const(b.target)) else TreeLines(f, i, b.target))
    + [Line(EndIf, BodyExit(f, i))]
  }

  ghost function BranchLines(f: Func, i: nat, links: nat): seq<Line>
    requires Fits(f) && i < |f.instrs| && f.instrs[i].Branch? && HasSlot(f, i)
  {
    var a, b := AddrAt(f, i), f.instrs[i];
    if b.link then [Line(SetLink(RA, a + 8), Seq(a))]
      + ([Line(If(b.cond), Point(Linked(a), None))] + BlockLines(f, i, links))
    else [Line(If(b.cond), Seq(a))] + BlockLines(f, i, links)
  }

  function OrdinaryLines(instr: Instr, reloc: Option<Reloc>, at: Point): (r: seq<Line>)
    requires !IsControl(instr)
    ensures Stmts(r) == OrdinaryText(instr, reloc)
  {
    match instr
    case Plain(effect) => [Line(Do(effect, reloc), at)]
    case TableAddu(effect, index, jr) => [Line(SaveAddend(jr, index), at), Line(Do(effect, reloc), at)]
    case TableLw(rt, address, load, jr) => [Line(EntryAddress(rt, address, load, jr, reloc), at)]
  }

  ghost function BodyLines(f: Func, i: nat, links: nat): seq<Line>
    requires Fits(f) && i < |f.instrs| && (IsControl(f.instrs[i]) ==> HasSlot(f, i))
  {
    var a := AddrAt(f, i);
    match f.instrs[i]
    case Jump(target) => if target == a then [Line(PauseSelf, Seq(a))] else TreeLines(f, i, target)
    case Jal(target) =>
      [Line(SetLink(RA, a + 8), Seq(a))]
      + if Inside(f, target) then
          SlotLines(f, i, Point(Slot(a + 4, Const(target)), None)) + [Line(Goto(Loc(target)), Seq(target))]
        else CallLines(f, i, links, Const(target))
    case Jalr(rd, rs) =>
      (if rd != 0 then [Line(SetLink(rd, a + 8), Seq(a))] else [])
      + if rd == RA then CallLines(f, i, links, FromReg(rs)) else TailcallLines(f, i, rs)
    case Jr(rs) => if rs == RA then JumpToRaLines(f, i) else TailcallLines(f, i, rs)
    case TableJr(_, entries) =>
      SlotLines(f, i, Point(Tabled(a + 4, a), None)) + [Line(Switch(a, entries), Point(Chosen(a, entries), None))]
    case Branch(_, _, _, _) => BranchLines(f, i, links)
    case _ => OrdinaryLines(f.instrs[i], RelocLookup(f, a), Seq(a))
  }

  ghost function Unreachable(lines: seq<Line>): seq<Line> {
    seq(|lines|, k requires 0 <= k < |lines| => Line(lines[k].stmt, Point(Never, None)))
  }

  ghost function MarkLines(f: Func, i: nat): seq<Line>
    requires Fits(f) && i < |f.instrs|
  {
    var a := AddrAt(f, i);
    if a in Labels(f) then [Line(LabelHere(Loc(a)), Seq(a))] else []
  }

  ghost function GotoLines(f: Func, i: nat): seq<Line>
    requires Fits(f) && i < |f.instrs|
  {
    if i > 0 && IsLikely(f, i - 1) then [Line(Goto(Skip(LikeliesBefore(f, i))), Seq(AddrAt(f, i) + 4))] else []
  }

  ghost function CoreLines(f: Func, i: nat, links: nat): seq<Line>
    requires Fits(f) && SlotsOk(f) && i < |f.instrs|
  {
    [Line(Comment(AddrAt(f, i)), Seq(AddrAt(f, i)))] + BodyLines(f, i, links)
  }

  ghost function TrailLines(f: Func, i: nat): seq<Line>
    requires Fits(f) && i < |f.instrs|
  {
    var a := AddrAt(f, i);
    (if i > 0 && NeedsLink(f, i - 1) then [Line(LabelHere(After(CallsBefore(f, i))), Seq(a + 4))] else [])
    + (if i > 0 && IsLikely(f, i - 1) then [Line(LabelHere(Skip(LikeliesBefore(f, i))), Seq(a + 4))] else [])
  }

  ghost predicate ChunkIsDead(f: Func, i: nat)
    requires Fits(f)
  {
    i + 1 == |f.instrs| && !EmitsTail(f)
  }

  ghost function InstrLines(f: Func, i: nat): seq<Line>
    requires Fits(f) && SlotsOk(f) && i < |f.instrs|
  {
    var lines := GotoLines(f, i) + (MarkLines(f, i) + (CoreLines(f, i, CallsBefore(f, i)) + TrailLines(f, i)));
    if ChunkIsDead(f, i) then Unreachable(lines) else lines
  }

  ghost function PrologueLines(f: Func): seq<Line>
    requires Fits(f)
  {
    (if f.dispatch != {} then [Line(EnterSwitch(DispatchEntries(f)), Point(Entering, None))] else [])
    + (if EntryLabel(f) != {} then [Line(Goto(Loc(f.entry)), Seq(f.entry))] else [])
    + [Line(LabelHere(Loc(f.vram)), Seq(f.vram))]
  }

  ghost function EpilogueLines(f: Func): seq<Line>
    requires Fits(f)
  {
    var end := End(f);
    (if EmitsTail(f) then
       [Line(ReturnIfHome(end), Seq(end)), Line(RequestTailcall(Const(end)), Seq(end)),
        Line(Return, Point(Pending, None))]
     else [])
    + [Line(CloseFunction, Point(Never, None))]
  }

  /** The lines of chunk `c`: the prologue, then the instructions, then the epilogue. */
  ghost function Lines(f: Func, c: nat): seq<Line>
    requires Fits(f) && SlotsOk(f) && c < |f.instrs| + 2
  {
    if c == 0 then PrologueLines(f)
    else if c <= |f.instrs| then InstrLines(f, c - 1)
    else EpilogueLines(f)
  }

  ghost function Stmts(lines: seq<Line>): seq<Stmt> {
    seq(|lines|, k requires 0 <= k < |lines| => lines[k].stmt)
  }
}
