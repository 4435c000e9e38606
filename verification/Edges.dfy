/** How the guest program points of adjacent lines must be related, and the proof
    that the lines of every well-formed function are related so. */
module Edges {
  import opened Machine
  import opened Emitted
  import opened Translator
  import opened Host
  import opened Points

  predicate Falls(s: Stmt) {
    !(s.Goto? || s.Return? || s.Switch? || s.PauseSelf? || s.UnhandledCall? || s.UnhandledBranch? || s.CloseFunction?)
  }

  ghost predicate InstrAt(p: Program, a: Addr, instr: Instr) {
    a in p.image.code && p.image.code[a] == instr
  }

  /** The processor runs this effect at `a`. */
  ghost predicate RunsAt(p: Program, a: Addr, effect: Effect, reloc: Option<Reloc>) {
    && a in p.image.code && reloc == RelocOf(p.image, a)
    && (p.image.code[a].Plain? || p.image.code[a].TableAddu?) && p.image.code[a].effect == effect
  }

  /** An effect that leaves a destination naming the same address. */
  ghost predicate KeepsDest(effect: Effect, d: Dest) {
    match d
    case Const(_) => true
    case FromReg(r) => Keeps(effect, r)
  }

  /** The effect leads from what is stale at `from` to what is stale at `next`. */
  ghost predicate LeadsTo(k: Slack, effect: Effect, from: Where, next: Where) {
    match next
    case Chosen(_, entries) => forall e :: e in entries ==> Carries(k, StaleOf(k, from), StaleAt(k, e), effect)
    case _ => Carries(k, StaleOf(k, from), StaleOf(k, next), effect)
  }

  /** Running one ordinary instruction leads from `from` to `next`. */
  ghost predicate DoEdge(p: Program, effect: Effect, reloc: Option<Reloc>, from: Point, next: Point) {
    && (next.ra == None || (next.ra == from.ra && Keeps(effect, RA)))
    && LeadsTo(p.slack, effect, from.at, next.at)
    && match from.at
       case Goes(d) => d.Const? && RunsAt(p, d.addr, effect, reloc) && next.at == Goes(Const(Add(d.addr, 4)))
       case Slot(a, d) => RunsAt(p, a, effect, reloc) && KeepsDest(effect, d) && next.at == Goes(d)
       case Captured(a) => RunsAt(p, a, effect, reloc) && next.at == Returning
       case Tabled(a, jr) => RunsAt(p, a, effect, reloc) && next.at.Chosen? && next.at.jr == jr
       case _ => false
  }

  /** The rewritten load of a table entry. */
  ghost predicate LoadEdge(p: Program, s: Stmt, from: Point, next: Point)
    requires s.EntryAddress?
  {
    && from.at.Goes? && from.at.dest.Const? && next == Seq(Add(from.at.dest.addr, 4))
    && var a := from.at.dest.addr;
       && InstrAt(p, a, TableLw(s.rt, s.address, s.load, s.jr)) && s.reloc == RelocOf(p.image, a)
       && SeesLoad(p.slack, StaleAt(p.slack, a), s.load)
       && LoadLeaves(StaleAt(p.slack, a), StaleAt(p.slack, Add(a, 4)), s.rt, s.jr)
  }

  /** The processor takes the unconditional transfer at `a`, which writes no register. */
  ghost predicate TurnEdge(p: Program, a: Addr, next: Point) {
    && a in p.image.code && next.ra == None
    && match p.image.code[a]
       case Jump(target) => next.at == Slot(Add(a, 4), Const(target))
       case Jr(rs) => next.at == Slot(Add(a, 4), FromReg(rs))
       case Jalr(rd, rs) => rd == 0 && next.at == Slot(Add(a, 4), FromReg(rs))
       case TableJr(rs, _) =>
         && next.at == Tabled(Add(a, 4), a)
         && rs != 0 && rs in StaleAt(p.slack, a) && StaleAt(p.slack, a)[rs] == Some(a)
       case _ => false
  }

  /** The link register is written; for an unconditional transfer the processor takes it. */
  ghost predicate LinkEdge(p: Program, a: Addr, r: Reg, v: Addr, next: Point) {
    && a in p.image.code && v == Add(a, 8) && r in p.slack.links && r != 0 && r !in StaleAt(p.slack, a)
    && match p.image.code[a]
       case Jal(target) =>
         r == RA && next.at == Slot(Add(a, 4), Const(target)) && (next.ra == None || next.ra == Some(v))
       case Jalr(rd, rs) =>
         r == rd && rs != rd && next.at == Slot(Add(a, 4), FromReg(rs))
           && (next.ra == None || (r == RA && next.ra == Some(v)))
       case Branch(_, _, _, link) => r == RA && link && next == Point(Linked(a), None)
       case _ => false
  }

  /** Where the processor is once the branch at `a` is not taken. */
  ghost predicate UntakenPoint(p: Program, a: Addr, next: Point) {
    && a in p.image.code && p.image.code[a].Branch?
    && var to := if p.image.code[a].likely then Add(a, 8) else Add(a, 4);
       next == Seq(to) && Weaker(StaleAt(p.slack, a), StaleAt(p.slack, to))
  }

  ghost predicate IfEdge(p: Program, cond: Guest -> bool, from: Where, next: Point) {
    match from
    case Goes(d) =>
      && d.Const? && d.addr in p.image.code
      && var b := p.image.code[d.addr];
         b.Branch? && b.cond == cond && !b.link && Sees(p.slack, StaleAt(p.slack, d.addr), cond)
         && next == Point(Slot(Add(d.addr, 4), Const(b.target)), None)
    case Linked(a) =>
      && a in p.image.code
      && var b := p.image.code[a];
         b.Branch? && b.cond == cond && b.link && Sees(p.slack, StaleAt(p.slack, a), cond) && IgnoresRa(cond)
         && RA in p.slack.links
         && next.at == Slot(Add(a, 4), Const(b.target)) && (next.ra == None || next.ra == Some(Add(a, 8)))
    case _ => false
  }

  predicate LeavesTo(k: Slack, d: Dest) {
    d.Const? ==> Shut(k, d.addr)
  }

  /** What a line must satisfy when `next` is the point of the line after it. */
  ghost predicate Edge(p: Program, f: Func, line: Line, next: Point)
    requires Fits(f)
  {
    match line.stmt
    case Comment(a) => next == line.at || (line.at == Seq(a) && TurnEdge(p, a, next))
    case LabelHere(_) => next == line.at
    case EndIf => next == line.at
    case Checkpoint(_) => next == line.at
    case Do(effect, reloc) => DoEdge(p, effect, reloc, line.at, next)
    case SaveAddend(_, _) => next == line.at
    case EntryAddress(_, _, _, _, _) => LoadEdge(p, line.stmt, line.at, next)
    case SetLink(r, v) => line.at.at.Goes? && line.at.at.dest.Const? && LinkEdge(p, line.at.at.dest.addr, r, v, next)
    case If(cond) => IfEdge(p, cond, line.at.at, next)
    case Call(dest, _, _) =>
      && line.at.at == Goes(dest) && LeavesTo(p.slack, dest)
      && line.at.ra.Some? && next == Seq(line.at.ra.value) && Open(p.slack, line.at.ra.value)
    case ReturnIfHome(target) => line.at == Seq(target) && Shut(p.slack, target) && next == line.at
    case RequestTailcall(dest) => line.at.at == Goes(dest) && LeavesTo(p.slack, dest) && next == Point(Pending, None)
    case CaptureRa =>
      && line.at.at.Goes? && line.at.at.dest.Const? && InstrAt(p, line.at.at.dest.addr, Jr(RA))
      && RA !in StaleAt(p.slack, line.at.at.dest.addr)
      && next == Point(Captured(Add(line.at.at.dest.addr, 4)), None)
    case RebaseRa(ram, size) => ram == f.sectionRam && size == f.sectionSize && line.at.at == Returning
      && next == line.at
    case DispatchRa(_) => line.at.at == Returning && next == line.at
    case TailcallUnlessHome => line.at.at == Returning && next == Point(Home, None)
    case EnterSwitch(_) => line.at.at == Entering && next == Seq(Entry(f)) && Open(p.slack, Entry(f))
    case _ => true
  }

  /** What a line must satisfy by itself. */
  ghost predicate LineOk(p: Program, f: Func, line: Line)
    requires Fits(f)
  {
    match line.stmt
    case Goto(l) => l.Loc? ==> line.at == Seq(l.addr)
    case LabelHere(l) => l.Loc? ==> line.at == Seq(l.addr)
    case Return => line.at.at.Pending? || line.at.at.Home?
    case Switch(jr, entries) => line.at.at == Chosen(jr, entries)
    case DispatchRa(_) => line.at.at.Returning?
    case EnterSwitch(starts) => starts == DispatchEntries(f) && forall a :: a in starts ==> Open(p.slack, a)
    case CloseFunction => line.at.at.Never?
    case _ => true
  }

  /** A line and the point of the line after it. Unreachable lines are exempt. */
  ghost predicate Joined(p: Program, f: Func, line: Line, next: Point)
    requires Fits(f)
  {
    !line.at.at.Never? ==> LineOk(p, f, line) && (Falls(line.stmt) ==> Edge(p, f, line, next))
  }

  /** The point after line `k`, control leaving the lines at `exit`. */
  function NextPoint(lines: seq<Line>, k: nat, exit: Point): Point
    requires k < |lines|
  {
    if k + 1 < |lines| then lines[k + 1].at else exit
  }

  function First(lines: seq<Line>, exit: Point): Point {
    if lines == [] then exit else lines[0].at
  }

  ghost predicate Chained(p: Program, f: Func, lines: seq<Line>, exit: Point)
    requires Fits(f)
  {
    lines == [] || (Joined(p, f, lines[0], First(lines[1..], exit)) && Chained(p, f, lines[1..], exit))
  }

  /** Every line of a chain is joined to the next. */
  lemma {:induction false} ChainedAt(p: Program, f: Func, lines: seq<Line>, exit: Point, k: nat)
    requires Fits(f) && Chained(p, f, lines, exit) && k < |lines|
    ensures Joined(p, f, lines[k], NextPoint(lines, k, exit))
    decreases k
  {
    if k > 0 {
      ChainedAt(p, f, lines[1..], exit, k - 1);
    }
  }

  lemma ChainCons(p: Program, f: Func, line: Line, y: seq<Line>, exit: Point)
    requires Fits(f) && Joined(p, f, line, First(y, exit)) && Chained(p, f, y, exit)
    ensures Chained(p, f, [line] + y, exit)
  {
    assert ([line] + y)[1..] == y;
  }

  lemma {:induction false} ChainConcat(p: Program, f: Func, x: seq<Line>, y: seq<Line>, exit: Point)
    requires Fits(f) && Chained(p, f, x, First(y, exit)) && Chained(p, f, y, exit)
    ensures Chained(p, f, x + y, exit)
    ensures First(x + y, exit) == First(x, First(y, exit))
    decreases |x|
  {
    if x == [] {
      assert x + y == y;
    } else {
      ChainConcat(p, f, x[1..], y, exit);
      assert x + y == [x[0]] + (x[1..] + y);
      ChainCons(p, f, x[0], x[1..] + y, exit);
    }
  }

  lemma ChainOne(p: Program, f: Func, x: Line, exit: Point)
    requires Fits(f) && Joined(p, f, x, exit)
    ensures Chained(p, f, [x], exit)
  {
    assert [x][1..] == [];
  }

  lemma ChainTwo(p: Program, f: Func, x: Line, y: Line, exit: Point)
    requires Fits(f) && Joined(p, f, x, y.at) && Joined(p, f, y, exit)
    ensures Chained(p, f, [x, y], exit)
  {
    ChainOne(p, f, y, exit);
    assert [x, y][1..] == [y];
  }

  // ----- The pieces of a function -----

  /** Facts about instruction `i` that the chains below use. */
  lemma InstrFacts(p: Program, f: Func, i: nat)
    requires BodyOk(f, p.slack) && CodeOk(p, f) && i < |f.instrs|
    ensures InstrAt(p, AddrAt(f, i), f.instrs[i]) && InstrOk(f, p.slack, i)
    ensures RelocOf(p.image, AddrAt(f, i)) == RelocLookup(f, AddrAt(f, i))
    ensures Add(AddrAt(f, i), 4) == AddrAt(f, i) + 4 && Add(AddrAt(f, i), 8) == AddrAt(f, i) + 8
  {
    var instr := f.instrs[i];
  }

  lemma SlotsAreOk(f: Func, k: Slack)
    requires BodyOk(f, k)
    ensures SlotsOk(f)
  {
    forall i | 0 <= i < |f.instrs| && IsControl(f.instrs[i])
      ensures HasSlot(f, i)
    {
      assert InstrOk(f, k, i);
    }
  }

  /** The slot of `i` is there and is what the processor runs. */
  ghost predicate SlotReady(p: Program, f: Func, i: nat) {
    && Fits(f) && i < |f.instrs| && HasSlot(f, i)
    && RunsAt(p, AddrAt(f, i) + 4, SlotEffect(f, i), RelocLookup(f, AddrAt(f, i) + 4))
  }

  ghost predicate InstrReady(p: Program, f: Func, i: nat) {
    && Fits(f) && i < |f.instrs| && InstrAt(p, AddrAt(f, i), f.instrs[i]) && InstrOk(f, p.slack, i)
    && Add(AddrAt(f, i), 4) == AddrAt(f, i) + 4 && Add(AddrAt(f, i), 8) == AddrAt(f, i) + 8
  }

  lemma SlotIsReady(p: Program, f: Func, i: nat)
    requires BodyOk(f, p.slack) && CodeOk(p, f) && i < |f.instrs| && IsControl(f.instrs[i])
    ensures SlotReady(p, f, i)
  {
    InstrFacts(p, f, i);
    InstrFacts(p, f, i + 1);
  }

  /** The slot of `i` leads to `next`, whose entries it leads to if it has any. */
  ghost predicate SlotLeads(p: Program, f: Func, i: nat, next: Where)
    requires Fits(f) && i < |f.instrs| && HasSlot(f, i)
  {
    match next
    case Chosen(_, entries) => forall e :: e in entries ==> SlotCarries(f, p.slack, i, Goes(Const(e)))
    case _ => SlotCarries(f, p.slack, i, next)
  }

  lemma SlotIsAfter(a: Addr)
    requires a + 4 < WORD
    ensures Minus(a + 4, 4) == a
  {
  }

  /** The copied slot of `i`, from `at` on into `rest`. */
  lemma SlotChain(p: Program, f: Func, i: nat, at: Point, rest: seq<Line>, exit: Point)
    requires SlotReady(p, f, i) && Chained(p, f, rest, exit)
    requires match at.at
             case Slot(a, d) => a == AddrAt(f, i) + 4 && KeepsDest(SlotEffect(f, i), d)
               && First(rest, exit).at == Goes(d)
             case Captured(a) => a == AddrAt(f, i) + 4 && First(rest, exit).at == Returning
             case Tabled(a, jr) =>
               && a == AddrAt(f, i) + 4 && First(rest, exit).at.Chosen? && First(rest, exit).at.jr == jr
             case _ => false
    requires SlotLeads(p, f, i, First(rest, exit).at)
    requires var ra := First(rest, exit).ra; ra == None || (ra == at.ra && Keeps(SlotEffect(f, i), RA))
    ensures Chained(p, f, SlotLines(f, i, at) + rest, exit)
    ensures First(SlotLines(f, i, at) + rest, exit) == at
  {
    var lines := SlotLines(f, i, at);
    SlotIsAfter(AddrAt(f, i));
    ChainCons(p, f, lines[1], rest, exit);
    ChainCons(p, f, lines[0], [lines[1]] + rest, exit);
    assert lines + rest == [lines[0]] + ([lines[1]] + rest);
  }

  lemma TreeTailChain(p: Program, f: Func, i: nat, target: Addr, exit: Point)
    requires Fits(f) && i < |f.instrs| && (Inside(f, target) || Shut(p.slack, target))
    ensures Chained(p, f, TreeTail(f, i, target), exit)
    ensures First(TreeTail(f, i, target), exit) == Seq(target)
  {
    var lines := TreeTail(f, i, target);
    if |lines| == 3 {
      ChainTwo(p, f, lines[1], lines[2], exit);
      ChainCons(p, f, lines[0], [lines[1], lines[2]], exit);
      assert lines == [lines[0]] + [lines[1], lines[2]];
    } else if |lines| == 2 {
      ChainTwo(p, f, lines[0], lines[1], exit);
    } else {
      ChainOne(p, f, lines[0], exit);
    }
  }

  lemma TreeChain(p: Program, f: Func, i: nat, target: Addr, exit: Point)
    requires SlotReady(p, f, i) && JumpOk(f, p.slack, i, target)
    ensures Chained(p, f, TreeLines(f, i, target), exit)
    ensures First(TreeLines(f, i, target), exit) == Point(Slot(AddrAt(f, i) + 4, Const(target)), None)
  {
    TreeTailChain(p, f, i, target, exit);
    SlotChain(p, f, i, Point(Slot(AddrAt(f, i) + 4, Const(target)), None), TreeTail(f, i, target), exit);
  }

  lemma CallTailChain(p: Program, f: Func, i: nat, links: nat, dest: Dest, exit: Point)
    requires Fits(f) && i < |f.instrs| && LeavesTo(p.slack, dest) && Open(p.slack, AddrAt(f, i) + 8)
    ensures Chained(p, f, CallTail(f, i, links, dest), exit)
  {
    var lines := CallTail(f, i, links, dest);
    ChainTwo(p, f, lines[0], lines[1], exit);
  }

  lemma MadeCallChain(p: Program, f: Func, i: nat, links: nat, dest: Dest, exit: Point)
    requires SlotReady(p, f, i)
    requires KeepsDest(SlotEffect(f, i), dest) && CallOk(f, p.slack, i)
    requires LeavesTo(p.slack, dest) && SlotCarries(f, p.slack, i, Goes(dest))
    ensures var slot := Point(Slot(AddrAt(f, i) + 4, dest), Some(AddrAt(f, i) + 8));
            var lines := SlotLines(f, i, slot) + CallTail(f, i, links, dest);
            Chained(p, f, lines, exit) && First(lines, exit) == slot
  {
    hide Chained, Keeps;
    CallTailChain(p, f, i, links, dest, exit);
    SlotChain(p, f, i, Point(Slot(AddrAt(f, i) + 4, dest), Some(AddrAt(f, i) + 8)), CallTail(f, i, links, dest), exit);
  }

  lemma CallChain(p: Program, f: Func, i: nat, links: nat, dest: Dest, exit: Point)
    requires SlotReady(p, f, i)
    requires KeepsDest(SlotEffect(f, i), dest) && CallOk(f, p.slack, i)
    requires LeavesTo(p.slack, dest) && SlotCarries(f, p.slack, i, Goes(dest))
    ensures Chained(p, f, CallLines(f, i, links, dest), exit)
    ensures First(CallLines(f, i, links, dest), exit) == Point(Slot(AddrAt(f, i) + 4, dest), Some(AddrAt(f, i) + 8))
  {
    hide Chained, SlotLines, CallTail, Keeps, KeepsDest;
    if dest.Const? && dest.addr !in f.callResolves {
      ChainOne(p, f, CallLines(f, i, links, dest)[0], exit);
    } else {
      MadeCallChain(p, f, i, links, dest, exit);
    }
  }

  lemma TailcallChain(p: Program, f: Func, i: nat, rs: Reg, exit: Point)
    requires SlotReady(p, f, i)
    requires Keeps(SlotEffect(f, i), rs) && SlotCarries(f, p.slack, i, Goes(FromReg(rs)))
    ensures Chained(p, f, TailcallLines(f, i, rs), exit)
    ensures First(TailcallLines(f, i, rs), exit) == Point(Slot(AddrAt(f, i) + 4, FromReg(rs)), None)
  {
    hide Carries, Keeps, StaleAt, Weaker, Minus, Chained;
    var request := Line(RequestTailcall(FromReg(rs)), Point(Goes(FromReg(rs)), None));
    var done := Line(Return, Point(Pending, None));
    RequestChain(p, f, rs, exit);
    SlotChain(p, f, i, Point(Slot(AddrAt(f, i) + 4, FromReg(rs)), None), [request, done], exit);
  }

  lemma RequestChain(p: Program, f: Func, rs: Reg, exit: Point)
    requires Fits(f)
    ensures Chained(p, f, [Line(RequestTailcall(FromReg(rs)), Point(Goes(FromReg(rs)), None)),
                           Line(Return, Point(Pending, None))], exit)
  {
    var request := Line(RequestTailcall(FromReg(rs)), Point(Goes(FromReg(rs)), None));
    var done := Line(Return, Point(Pending, None));
    ChainTwo(p, f, request, done, exit);
  }

  lemma RaTailChain(p: Program, f: Func, exit: Point)
    requires Fits(f)
    ensures Chained(p, f, RaTail(f), exit)
    ensures First(RaTail(f), exit) == Point(Returning, None)
  {
    hide Chained, Labels;
    var back := Point(Returning, None);
    var tail := [Line(TailcallUnlessHome, back), Line(Return, Point(Home, None))];
    ChainTwo(p, f, tail[0], tail[1], exit);
    var dispatch := if Labels(f) != {} then [Line(DispatchRa(Labels(f)), back)] else [];
    if dispatch == [] {
      assert dispatch + tail == tail;
    } else {
      ChainCons(p, f, dispatch[0], tail, exit);
    }
    ChainCons(p, f, Line(RebaseRa(f.sectionRam, f.sectionSize), back), dispatch + tail, exit);
  }

  ghost function RaSlot(f: Func, i: nat): Point
    requires Fits(f) && i < |f.instrs|
  {
    Point(Captured(AddrAt(f, i) + 4), None)
  }

  lemma RaSlotChain(p: Program, f: Func, i: nat, exit: Point)
    requires SlotReady(p, f, i) && SlotCarries(f, p.slack, i, Returning)
    ensures Chained(p, f, SlotLines(f, i, RaSlot(f, i)) + RaTail(f), exit)
  {
    RaTailChain(p, f, exit);
    SlotChain(p, f, i, RaSlot(f, i), RaTail(f), exit);
  }

  lemma CaptureJoined(p: Program, f: Func, i: nat)
    requires InstrReady(p, f, i) && f.instrs[i] == Jr(RA)
    ensures Joined(p, f, Line(CaptureRa, Seq(AddrAt(f, i))), RaSlot(f, i))
  {
  }

  lemma JumpToRaChain(p: Program, f: Func, i: nat, exit: Point)
    requires SlotReady(p, f, i) && InstrReady(p, f, i) && f.instrs[i] == Jr(RA)
    ensures Chained(p, f, JumpToRaLines(f, i), exit)
    ensures First(JumpToRaLines(f, i), exit) == Seq(AddrAt(f, i))
  {
    CaptureJoined(p, f, i);
    RaSlotChain(p, f, i, exit);
    ChainCons(p, f, Line(CaptureRa, Seq(AddrAt(f, i))), SlotLines(f, i, RaSlot(f, i)) + RaTail(f), exit);
  }

  lemma BlockChain(p: Program, f: Func, i: nat, links: nat)
    requires SlotReady(p, f, i) && InstrReady(p, f, i) && f.instrs[i].Branch?
    ensures Chained(p, f, BlockLines(f, i, links), BodyExit(f, i))
    ensures var b := f.instrs[i];
            First(BlockLines(f, i, links), BodyExit(f, i))
            == Point(Slot(AddrAt(f, i) + 4, Const(b.target)),
                     if b.link && !Inside(f, b.target) then Some(AddrAt(f, i) + 8) else None)
  {
    var b, exit := f.instrs[i], BodyExit(f, i);
    var close := Line(EndIf, exit);
    ChainOne(p, f, close, exit);
    if b.link && !Inside(f, b.target) {
      CallChain(p, f, i, links, Const(b.target), exit);
      ChainConcat(p, f, CallLines(f, i, links, Const(b.target)), [close], exit);
    } else {
      TreeChain(p, f, i, b.target, exit);
      ChainConcat(p, f, TreeLines(f, i, b.target), [close], exit);
    }
  }

  lemma BranchChain(p: Program, f: Func, i: nat, links: nat)
    requires SlotReady(p, f, i) && InstrReady(p, f, i) && f.instrs[i].Branch?
    ensures Chained(p, f, BranchLines(f, i, links), BodyExit(f, i))
            && First(BranchLines(f, i, links), BodyExit(f, i)) == Seq(AddrAt(f, i))
  {
    BlockChain(p, f, i, links);
    var b, a, exit := f.instrs[i], AddrAt(f, i), BodyExit(f, i);
    var block := BlockLines(f, i, links);
    var test := Line(If(b.cond), if b.link then Point(Linked(a), None) else Seq(a));
    ChainCons(p, f, test, block, exit);
    if b.link {
      ChainCons(p, f, Line(SetLink(RA, a + 8), Seq(a)), [test] + block, exit);
    }
  }

  lemma JalChain(p: Program, f: Func, i: nat, links: nat, exit: Point)
    requires SlotReady(p, f, i) && InstrReady(p, f, i) && f.instrs[i].Jal?
    ensures Chained(p, f, BodyLines(f, i, links), exit) && First(BodyLines(f, i, links), exit) == Seq(AddrAt(f, i))
  {
    var a, target := AddrAt(f, i), f.instrs[i].target;
    var rest;
    if Inside(f, target) {
      var goto := Line(Goto(Loc(target)), Seq(target));
      ChainCons(p, f, goto, [], exit);
      var slot := Point(Slot(a + 4, Const(target)), None);
      SlotChain(p, f, i, slot, [goto], exit);
      rest := SlotLines(f, i, slot) + [goto];
    } else {
      CallChain(p, f, i, links, Const(target), exit);
      rest := CallLines(f, i, links, Const(target));
    }
    ChainCons(p, f, Line(SetLink(RA, a + 8), Seq(a)), rest, exit);
  }

  /** A `jalr` that writes no register turns at its comment. */
  lemma JalrChain(p: Program, f: Func, i: nat, links: nat, exit: Point)
    requires SlotReady(p, f, i) && InstrReady(p, f, i) && f.instrs[i].Jalr?
    ensures var lines := BodyLines(f, i, links);
            Chained(p, f, lines, exit)
            && First(lines, exit) == if f.instrs[i].rd == 0
              then Point(Slot(AddrAt(f, i) + 4, FromReg(f.instrs[i].rs)), None)
                                     else Seq(AddrAt(f, i))
  {
    var a, rd, rs := AddrAt(f, i), f.instrs[i].rd, f.instrs[i].rs;
    var rest;
    if rd == RA {
      CallChain(p, f, i, links, FromReg(rs), exit);
      rest := CallLines(f, i, links, FromReg(rs));
    } else {
      TailcallChain(p, f, i, rs, exit);
      rest := TailcallLines(f, i, rs);
    }
    if rd != 0 {
      ChainCons(p, f, Line(SetLink(rd, a + 8), Seq(a)), rest, exit);
    } else {
      assert BodyLines(f, i, links) == rest;
    }
  }

  lemma TableChain(p: Program, f: Func, i: nat, links: nat, exit: Point)
    requires SlotReady(p, f, i) && InstrReady(p, f, i) && f.instrs[i].TableJr?
    ensures Chained(p, f, BodyLines(f, i, links), exit)
    ensures First(BodyLines(f, i, links), exit) == Point(Tabled(AddrAt(f, i) + 4, AddrAt(f, i)), None)
  {
    var a, entries := AddrAt(f, i), f.instrs[i].entries;
    var switch := Line(Switch(a, entries), Point(Chosen(a, entries), None));
    ChainCons(p, f, switch, [], exit);
    SlotChain(p, f, i, Point(Tabled(a + 4, a), None), [switch], exit);
  }

  lemma OrdinaryChain(p: Program, f: Func, i: nat, links: nat)
    requires InstrReady(p, f, i) && !IsControl(f.instrs[i])
    requires RelocOf(p.image, AddrAt(f, i)) == RelocLookup(f, AddrAt(f, i))
    ensures Chained(p, f, BodyLines(f, i, links), Seq(AddrAt(f, i) + 4))
    ensures First(BodyLines(f, i, links), Seq(AddrAt(f, i) + 4)) == Seq(AddrAt(f, i))
  {
    var lines, exit := BodyLines(f, i, links), Seq(AddrAt(f, i) + 4);
    ChainOne(p, f, lines[|lines| - 1], exit);
    if |lines| == 2 {
      ChainTwo(p, f, lines[0], lines[1], exit);
    }
  }

  /** The comment and the body of one instruction. */
  lemma BodyChain(p: Program, f: Func, i: nat, links: nat)
    requires BodyOk(f, p.slack) && CodeOk(p, f) && SlotsOk(f) && i < |f.instrs|
    ensures Chained(p, f, CoreLines(f, i, links), BodyExit(f, i))
  {
    hide Carries, Keeps, StaleAt, Weaker, InstrOk, SlotReady, BordersOk, Labels;
    InstrFacts(p, f, i);
    if IsControl(f.instrs[i]) {
      SlotIsReady(p, f, i);
    }
    var a, exit := AddrAt(f, i), BodyExit(f, i);
    var body := BodyLines(f, i, links);
    match f.instrs[i] {
      case Jump(target) => if target != a { TreeChain(p, f, i, target, exit); }
        else { ChainCons(p, f, body[0], [], exit); }
      case Jal(_) => JalChain(p, f, i, links, exit);
      case Jalr(_, _) => JalrChain(p, f, i, links, exit);
      case Jr(rs) => if rs == RA { JumpToRaChain(p, f, i, exit); } else { TailcallChain(p, f, i, rs, exit); }
      case TableJr(_, _) => TableChain(p, f, i, links, exit);
      case Branch(_, _, _, _) => BranchChain(p, f, i, links);
      case _ => OrdinaryChain(p, f, i, links);
    }
    ChainCons(p, f, Line(Comment(a), Seq(a)), body, exit);
  }

  lemma TrailChain(p: Program, f: Func, i: nat)
    requires BodyOk(f, p.slack) && SlotsOk(f) && i < |f.instrs|
    ensures Chained(p, f, TrailLines(f, i), ChunkEntry(f, i + 1))
    ensures First(TrailLines(f, i), ChunkEntry(f, i + 1)) == BodyExit(f, i)
  {
    var at := Seq(AddrAt(f, i) + 4);
    var exit := ChunkEntry(f, i + 1);
    if i > 0 && IsControl(f.instrs[i - 1]) {
      assert HasSlot(f, i - 1);
      var skip := if IsLikely(f, i - 1) then [Line(LabelHere(Skip(LikeliesBefore(f, i))), at)] else [];
      ChainConcat(p, f, skip, [], exit);
      assert skip + [] == skip;
      if NeedsLink(f, i - 1) {
        ChainCons(p, f, Line(LabelHere(After(CallsBefore(f, i))), at), skip, exit);
      }
    } else {
      assert TrailLines(f, i) == [];
      if i + 1 == |f.instrs| {
        assert !IsControl(f.instrs[i]);
      }
    }
  }

  lemma MarkChain(p: Program, f: Func, i: nat)
    requires Fits(f) && i < |f.instrs|
    ensures Chained(p, f, MarkLines(f, i), Seq(AddrAt(f, i)))
    ensures First(MarkLines(f, i), Seq(AddrAt(f, i))) == Seq(AddrAt(f, i))
    ensures Chained(p, f, GotoLines(f, i), Seq(AddrAt(f, i)))
    ensures First(GotoLines(f, i), Seq(AddrAt(f, i))) == ChunkEntry(f, i)
  {
  }

  lemma {:induction false} NeverChain(p: Program, f: Func, lines: seq<Line>, exit: Point)
    requires Fits(f) && forall k :: 0 <= k < |lines| ==> lines[k].at.at == Never
    ensures Chained(p, f, lines, exit)
    decreases |lines|
  {
    if lines != [] {
      NeverChain(p, f, lines[1..], exit);
    }
  }

  /** Each instruction's chunk is chained to the entry of the next. */
  lemma InstrChain(p: Program, f: Func, i: nat)
    requires BodyOk(f, p.slack) && CodeOk(p, f) && SlotsOk(f) && i < |f.instrs|
    ensures Chained(p, f, InstrLines(f, i), ChunkEntry(f, i + 1))
    ensures !ChunkIsDead(f, i) ==> First(InstrLines(f, i), ChunkEntry(f, i + 1)) == ChunkEntry(f, i)
  {
    if ChunkIsDead(f, i) {
      NeverChain(p, f, InstrLines(f, i), ChunkEntry(f, i + 1));
    } else {
      var exit := ChunkEntry(f, i + 1);
      BodyChain(p, f, i, CallsBefore(f, i));
      TrailChain(p, f, i);
      MarkChain(p, f, i);
      var core, trail := CoreLines(f, i, CallsBefore(f, i)), TrailLines(f, i);
      ChainConcat(p, f, core, trail, exit);
      ChainConcat(p, f, MarkLines(f, i), core + trail, exit);
      ChainConcat(p, f, GotoLines(f, i), MarkLines(f, i) + (core + trail), exit);
    }
  }
}
