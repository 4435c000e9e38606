/** The translation step by step: whatever the emitted code does next, nested host calls
    included, the guest program does too. */
module Simulation {
  import opened Machine
  import opened Emitted
  import opened Translator
  import opened Host
  import opened Points
  import opened WalkFacts
  import opened Edges
  import opened StepFacts
  import opened Flow
  import opened LabelFacts
  import opened Blocks

  // ----- The invariant -----

  /** A call in progress: what follows it in the text stands at its return address. */
  ghost predicate FrameOk(p: Program, fr: Frame) {
    && fr.fn < |p.funcs| && Sound(p, p.funcs[fr.fn])
    && var f := p.funcs[fr.fn];
       && ValidLine(f, fr.pos) && LineAt(f, fr.pos).stmt.Call?
       && BackIsReturn(f, LineAt(f, fr.pos).stmt, fr.ret) && Open(p.slack, fr.ret)
       && (forall t :: t in LineAt(f, fr.pos).stmt.locals ==> Open(p.slack, t))
       && ValidLine(f, Follow(f, fr.pos)) && LineAt(f, Follow(f, fr.pos)).at == Seq(fr.ret)
  }

  /** The return label of a call, if it has one, is its return address. */
  ghost predicate BackIsReturn(f: Func, call: Stmt, ret: Addr)
    requires call.Call?
  {
    call.back != 0 ==> call.back == ret
  }

  /** `home` is the return address of the innermost call in progress, each frame
      holds the one to restore, and `outer` is the one the run started with. */
  ghost predicate StackOk(p: Program, stack: seq<Frame>, home: Addr, outer: Addr) {
    if stack == [] then home == outer
    else FrameOk(p, Last(stack)) && home == Last(stack).ret && StackOk(p, stack[..|stack| - 1], Last(stack).prev, outer)
  }

  /** The host state `h` and the processor state `m` are at the same point. */
  ghost predicate Matches(p: Program, outer: Addr, h: HostState, m: Cpu) {
    && StackOk(p, h.stack, h.home, outer)
    && match h.at
       case Running(fn, pos, vars) =>
         && fn < |p.funcs| && Sound(p, p.funcs[fn]) && ValidLine(p.funcs[fn], pos)
         && Holds(p, p.funcs[fn], LineAt(p.funcs[fn], pos).at, h, vars, m)
       case Returned => h.stack != [] && Arrived(p, h, m)
       case Halted => h.stack == [] && Arrived(p, h, m)
  }

  /** The host is at the statement `line` of function `f`. */
  ghost predicate AtLine(p: Program, outer: Addr, h: HostState, m: Cpu, f: Func, pos: Pos, line: Line) {
    && Matches(p, outer, h, m) && h.at.Running? && h.at.fn < |p.funcs|
    && f == p.funcs[h.at.fn] && pos == h.at.pos && Sound(p, f) && ValidLine(f, pos) && line == LineAt(f, pos)
    && !line.at.at.Never? && Holds(p, f, line.at, h, h.at.vars, m)
  }

  lemma AtItsLine(p: Program, outer: Addr, h: HostState, m: Cpu)
    requires Matches(p, outer, h, m) && h.at.Running?
    ensures AtLine(p, outer, h, m, p.funcs[h.at.fn], h.at.pos, LineAt(p.funcs[h.at.fn], h.at.pos))
  {
    hide Sound, StackOk, LineAt, ValidLine;
  }

  // ----- Steps within a function -----

  /** Statements that pass control to the next line. */
  predicate Straight(s: Stmt) {
    s.Comment? || s.LabelHere? || s.EndIf? || s.Checkpoint? || s.Do? || s.SaveAddend? || s.EntryAddress? || s.SetLink?
      || s.CaptureRa? || s.RebaseRa?
      || s.RequestTailcall?
  }

  /** Control has passed to the next line. */
  lemma Passed(p: Program, outer: Addr, h: HostState, m: Cpu, f: Func, pos: Pos, line: Line, h': HostState,
               vars: Locals, m': Cpu)
    requires AtLine(p, outer, h, m, f, pos, line) && ValidLine(f, Follow(f, pos))
    requires h'.at == Running(h.at.fn, Follow(f, pos), vars) && h'.stack == h.stack && h'.home == h.home
    requires Holds(p, f, LineAt(f, Follow(f, pos)).at, h', vars, m')
    ensures Matches(p, outer, h', m')
  {
  }

  lemma StraightStep(p: Program, f: Func, line: Line, next: Point, h: HostState, h': HostState, pos: Pos,
                     m: Cpu) returns (m': Cpu)
    requires Sound(p, f) && h.at.Running? && h.at.fn < |p.bases| && h.at.fn < |p.funcs| && f == p.funcs[h.at.fn]
             && RebasesNothing(p, h.at.fn)
    requires Straight(line.stmt) && LineOk(p, f, line) && Edge(p, f, line, next)
             && Holds(p, f, line.at, h, h.at.vars, m)
    requires var after := Moved(h, h.at.fn, pos, h.at.vars);
             match line.stmt
             case Do(effect, reloc) => h' == after.(g := effect(reloc, h.g))
             case SetLink(r, v) => h' == after.(g := Put(h.g, r, v))
             case RequestTailcall(dest) => h' == after.(pending := true, target := DestOf(dest, h.g))
             case SaveAddend(jr, index) => h' == Moved(h, h.at.fn, pos, WithAddend(h.at.vars, jr, Get(h.g, index)))
             case EntryAddress(rt, address, load, jr, reloc) =>
               h' == Moved(h.(g := Put(h.g, rt, SignExtend(address(reloc, h.g)))), h.at.fn, pos,
                           WithWord(h.at.vars, jr, load(reloc, h.g)))
             case CaptureRa => h' == Moved(h, h.at.fn, pos, h.at.vars.(captured := Low(Get(h.g, RA))))
             case RebaseRa(ram, size) =>
               && (p.bases[h.at.fn] == ram || h.at.vars.captured in p.known)
               && h' == Moved(h, h.at.fn, pos,
                              h.at.vars.(captured := Rebased(p.bases[h.at.fn], ram, size, h.at.vars.captured)))
             case _ => h' == after
    ensures Leads(p.image, m, m') && Holds(p, f, next, h', h'.at.vars, m')
    ensures Busy(line, next) ==> Machine.Step(p.image, m) == Some(m')
  {
    hide BodyOk, CodeOk, TextOk, EndSafe, SlotsOk, Rebased, RebasesNothing, Holds, Edge;
    var vars := h.at.vars;
    match line.stmt {
      case Comment(_) => m' := CommentStep(p, f, line, next, h, vars, m);
      case Do(_, _) => m' := DoStep(p, f, line, next, h, vars, m);
      case EntryAddress(_, _, _, _, _) => m' := LoadStep(p, f, line, next, h, vars, m);
      case SetLink(_, _) => m' := SetLinkStep(p, f, line, next, h, vars, m);
      case CaptureRa => m' := CaptureStep(p, f, line, next, h, vars, m);
      case _ =>
        m' := m;
        LeadsRefl(p.image, m);
        StillHolds(p, f, line, next, h, h', m);
    }
    HoldsMoved(p, f, next, h.(g := h'.g, pending := h'.pending, target := h'.target), h', h'.at.vars, m');
  }

  /** Where control is does not matter to what holds. */
  lemma HoldsMoved(p: Program, f: Func, pt: Point, h: HostState, h': HostState, vars: Locals, m: Cpu)
    requires h' == h.(at := h'.at)
    ensures Holds(p, f, pt, h, vars, m) <==> Holds(p, f, pt, h', vars, m)
  {
  }

  /** Statements that the processor does not take part in. */
  lemma StillHolds(p: Program, f: Func, line: Line, next: Point, h: HostState, h': HostState, m: Cpu)
    requires Fits(f) && h.at.Running? && h.at.fn < |p.bases| && h.at.fn < |p.funcs| && f == p.funcs[h.at.fn]
             && RebasesNothing(p, h.at.fn)
    requires LineOk(p, f, line) && Edge(p, f, line, next) && Holds(p, f, line.at, h, h.at.vars, m) && h'.at.Running?
    requires match line.stmt
             case LabelHere(_) => h' == h.(at := h'.at) && h'.at.vars == h.at.vars
             case EndIf => h' == h.(at := h'.at) && h'.at.vars == h.at.vars
             case Checkpoint(_) => h' == h.(at := h'.at) && h'.at.vars == h.at.vars
             case SaveAddend(jr, index) =>
               h' == h.(at := h'.at) && h'.at.vars == WithAddend(h.at.vars, jr, Get(h.g, index))
             case RequestTailcall(dest) =>
               h' == h.(at := h'.at, pending := true, target := DestOf(dest, h.g)) && h'.at.vars == h.at.vars
             case RebaseRa(ram, size) =>
               && (p.bases[h.at.fn] == ram || h.at.vars.captured in p.known) && h' == h.(at := h'.at)
               && h'.at.vars == h.at.vars.(captured := Rebased(p.bases[h.at.fn], ram, size, h.at.vars.captured))
             case _ => false
    ensures Holds(p, f, next, h.(pending := h'.pending, target := h'.target), h'.at.vars, m)
    ensures !Busy(line, next)
  {
    hide Rebased, RebasesNothing, Same, LeavesTo, StaleAt, Temps;
    match line.stmt {
      case RequestTailcall(dest) => RequestStep(p, f, line, next, h, h.at.vars, m, DestOf(dest, h.g));
      case RebaseRa(ram, size) => RebaseKeeps(p, h.at.fn, h.at.vars.captured);
      case _ =>
    }
  }

  /** The text and the lines agree on what runs next. */
  lemma RunsLine(p: Program, outer: Addr, h: HostState, h': HostState, m: Cpu, f: Func, pos: Pos, line: Line)
    requires ProgramOk(p) && AtLine(p, outer, h, m, f, pos, line) && RunStep(p, h, h')
    ensures HasFunction(p, h.at.fn) && RebasesNothing(p, h.at.fn)
    ensures var skip := Pos(pos.chunk, BlockEnd(Stmts(Lines(f, pos.chunk)), pos.line + 1, 0));
            StmtStep(p, h.at.fn, line.stmt, Follow(f, pos), skip, h, h')
  {
    hide StmtStep, Holds, StackOk, Lines, Translation;
    assert FuncOk(p, h.at.fn);
    TextLine(f, pos);
    TranslationIsLines(f, pos.chunk);
  }

  /** A statement that passes control on, anywhere in a program. */
  lemma SimulateStraight(p: Program, outer: Addr, h: HostState, h': HostState, f: Func, pos: Pos, line: Line,
                         m: Cpu) returns (m': Cpu)
    requires ProgramOk(p) && AtLine(p, outer, h, m, f, pos, line) && RunStep(p, h, h') && Straight(line.stmt)
    ensures Leads(p.image, m, m') && Matches(p, outer, h', m')
    ensures ValidLine(f, Follow(f, pos))
            && (Busy(line, LineAt(f, Follow(f, pos)).at) ==> Machine.Step(p.image, m) == Some(m'))
  {
    hide Edge, LineOk, Holds, LineAt, Follow, ValidLine, StackOk, RunStep, ProgramOk, BodyOk, CodeOk, EndSafe, TextOk;
    RunsLine(p, outer, h, h', m, f, pos, line);
    FlowsOn(p, f, pos);
    var next := LineAt(f, Follow(f, pos)).at;
    m' := StraightStep(p, f, line, next, h, h', Follow(f, pos), m);
    Passed(p, outer, h, m, f, pos, line, h', h'.at.vars, m');
  }

  /** A branch. */
  lemma SimulateIf(p: Program, outer: Addr, h: HostState, h': HostState, f: Func, pos: Pos, line: Line,
                   m: Cpu) returns (m': Cpu)
    requires ProgramOk(p) && AtLine(p, outer, h, m, f, pos, line) && RunStep(p, h, h') && line.stmt.If?
    ensures Leads(p.image, m, m') && Matches(p, outer, h', m') && Machine.Step(p.image, m) == Some(m')
  {
    hide Edge, LineOk, LineAt, Follow, ValidLine, StackOk, RunStep, ProgramOk, BodyOk, CodeOk, EndSafe, TextOk,
         BlockEnd, UntakenPoint;
    RunsLine(p, outer, h, h', m, f, pos, line);
    FlowsOn(p, f, pos);
    var next := LineAt(f, Follow(f, pos)).at;
    if line.stmt.cond(h.g) {
      m' := IfTaken(p, f, line, next, h, h.at.vars, m);
    } else {
      UntakenLine(p, f, pos);
      var skip := Pos(pos.chunk, BlockEnd(Stmts(Lines(f, pos.chunk)), pos.line + 1, 0));
      m' := IfUntaken(p, f, line, next, LineAt(f, skip).at, h, h.at.vars, m);
    }
  }

  // ----- Between functions -----

  /** What agrees between functions agrees wherever control may come from one. */
  lemma Opens(k: Slack, a: Addr, words: map<Addr, Addr>, x: Guest, y: Guest)
    requires Open(k, a) && Same(k, Temps(k), words, x, y)
    ensures Same(k, StaleAt(k, a), words, x, y)
  {
    SameWeaker(k, Temps(k), StaleAt(k, a), words, x, y);
  }

  /** The noted words do not matter there. */
  lemma TempsAlike(k: Slack, words: map<Addr, Addr>, x: Guest, y: Guest)
    ensures Same(k, Temps(k), words, x, y) <==> Alike(k, x, y)
  {
  }

  lemma LeavesAlike(k: Slack, d: Dest, words: map<Addr, Addr>, x: Guest, y: Guest)
    requires LeavesTo(k, d) && Same(k, StaleOf(k, Goes(d)), words, x, y)
    ensures Alike(k, x, y)
  {
    SameWeaker(k, StaleOf(k, Goes(d)), Temps(k), words, x, y);
    TempsAlike(k, words, x, y);
  }

  /** Where a jump lands. */
  lemma Landed(p: Program, fn: nat, l: Label, vars: Locals, h: HostState, h': HostState) returns (q: Pos)
    requires fn < |p.funcs| && Sound(p, p.funcs[fn]) && HasFunction(p, fn) && JumpsTo(p, fn, l, vars, h, h')
    ensures ValidLine(p.funcs[fn], q) && LineAt(p.funcs[fn], q).stmt == LabelHere(l) && h' == Moved(h, fn, q, vars)
  {
    hide BodyOk, CodeOk, EndSafe, LineAt, ValidLine, Translation;
    var f := p.funcs[fn];
    q :| ValidPos(TextOf(p, fn), q) && At(TextOf(p, fn), q) == LabelHere(l) && h' == Moved(h, fn, q, vars);
    TextLine(f, q);
  }

  /** A jump to the label of the address the processor is at. */
  lemma JumpsToAddress(p: Program, outer: Addr, fn: nat, vars: Locals, h: HostState, h': HostState, m: Cpu)
    requires fn < |p.funcs| && Sound(p, p.funcs[fn]) && HasFunction(p, fn) && JumpsTo(p, fn, Loc(m.pc), vars, h, h')
    requires StackOk(p, h.stack, h.home, outer) && !h.pending && h.start == 0 && m.npc == Add(m.pc, 4)
    requires Same(p.slack, StaleAt(p.slack, m.pc), vars.words, h.g, m.g)
    ensures Matches(p, outer, h', m)
  {
    hide BodyOk, CodeOk, EndSafe, TextOk, LineAt, ValidLine, StackOk, JumpsTo, HasFunction;
    var q := Landed(p, fn, Loc(m.pc), vars, h, h');
    AddressLabel(p, p.funcs[fn], q, m.pc);
  }

  lemma SimulateGoto(p: Program, outer: Addr, h: HostState, h': HostState, f: Func, pos: Pos, line: Line, m: Cpu)
    requires ProgramOk(p) && AtLine(p, outer, h, m, f, pos, line) && RunStep(p, h, h') && line.stmt.Goto?
    ensures Matches(p, outer, h', m)
  {
    hide LineAt, ValidLine, StackOk, RunStep, ProgramOk, BodyOk, CodeOk, EndSafe, TextOk, JumpsTo, HasFunction;
    RunsLine(p, outer, h, h', m, f, pos, line);
    var q := Landed(p, h.at.fn, line.stmt.l, h.at.vars, h, h');
    GotoAgrees(p, f, pos, q, line.stmt.l);
  }

  /** `jr $ra` to a label of the same function. */
  lemma SimulateDispatch(p: Program, outer: Addr, h: HostState, h': HostState, f: Func, pos: Pos, line: Line, m: Cpu)
    requires ProgramOk(p) && AtLine(p, outer, h, m, f, pos, line) && RunStep(p, h, h') && line.stmt.DispatchRa?
    ensures Matches(p, outer, h', m)
  {
    hide LineAt, ValidLine, StackOk, RunStep, ProgramOk, BodyOk, CodeOk, EndSafe, TextOk, JumpsTo, HasFunction;
    RunsLine(p, outer, h, h', m, f, pos, line);
    FlowsOn(p, f, pos);
    if h.at.vars.captured in line.stmt.labels {
      Opens(p.slack, m.pc, h.at.vars.words, h.g, m.g);
      JumpsToAddress(p, outer, h.at.fn, h.at.vars, h, h', m);
    }
  }

  /** A jump through a table. */
  lemma SimulateSwitch(p: Program, outer: Addr, h: HostState, h': HostState, f: Func, pos: Pos, line: Line, m: Cpu)
    requires ProgramOk(p) && AtLine(p, outer, h, m, f, pos, line) && RunStep(p, h, h') && line.stmt.Switch?
    ensures Matches(p, outer, h', m)
  {
    hide LineAt, ValidLine, StackOk, RunStep, ProgramOk, BodyOk, CodeOk, EndSafe, TextOk, JumpsTo, HasFunction, Edge,
         Same, Follow;
    RunsLine(p, outer, h, h', m, f, pos, line);
    FlowsOn(p, f, pos);
    assert line.stmt.entries[h.at.vars.addends[line.stmt.jr] / 4] in line.stmt.entries;
    JumpsToAddress(p, outer, h.at.fn, h.at.vars, h, h', m);
  }

  /** The dispatch switch at the top of a function. */
  lemma SimulateEnter(p: Program, outer: Addr, h: HostState, h': HostState, f: Func, pos: Pos, line: Line, m: Cpu)
    requires ProgramOk(p) && AtLine(p, outer, h, m, f, pos, line) && RunStep(p, h, h') && line.stmt.EnterSwitch?
    ensures Matches(p, outer, h', m)
  {
    hide LineAt, ValidLine, StackOk, RunStep, ProgramOk, BodyOk, CodeOk, EndSafe, TextOk, JumpsTo, HasFunction, Same,
         Follow;
    RunsLine(p, outer, h, h', m, f, pos, line);
    FlowsOn(p, f, pos);
    assert Edge(p, f, line, LineAt(f, Follow(f, pos)).at);
    Opens(p.slack, m.pc, h.at.vars.words, h.g, m.g);
    if h.start != 0 {
      JumpsToAddress(p, outer, h.at.fn, h.at.vars, h.(start := 0), h', m);
    }
  }

  // ----- Leaving and entering functions -----

  lemma Leaves(p: Program, outer: Addr, h: HostState, m: Cpu)
    requires StackOk(p, h.stack, h.home, outer) && Arrived(p, h, m)
    ensures Matches(p, outer, Leave(h), m)
  {
  }

  lemma SimulateReturn(p: Program, outer: Addr, h: HostState, h': HostState, f: Func, pos: Pos, line: Line, m: Cpu)
    requires ProgramOk(p) && AtLine(p, outer, h, m, f, pos, line) && RunStep(p, h, h')
             && (line.stmt.Return? || line.stmt.CloseFunction?)
    ensures Matches(p, outer, h', m)
  {
    hide LineAt, ValidLine, StackOk, RunStep, ProgramOk, BodyOk, CodeOk, EndSafe, TextOk, HasFunction, Edge;
    RunsLine(p, outer, h, h', m, f, pos, line);
    FlowsOn(p, f, pos);
    Leaves(p, outer, h, m);
  }

  /** At the return target the function is done; elsewhere the next line holds. */
  lemma AtHome(p: Program, f: Func, line: Line, next: Point, h: HostState, h': HostState, vars: Locals, m: Cpu)
    requires h' == h.(at := h'.at)
    requires Fits(f) && line.stmt.ReturnIfHome? && Edge(p, f, line, next) && Holds(p, f, line.at, h, vars, m)
    ensures line.stmt.target == h.home ==> Arrived(p, h, m)
    ensures Holds(p, f, next, h', vars, m)
  {
    hide Same, Alike, StaleAt, Temps, Weaker;
    LeavesAlike(p.slack, Const(line.stmt.target), vars.words, h.g, m.g);
  }

  lemma ReturnsIfHome(p: Program, outer: Addr, h: HostState, h': HostState, f: Func, pos: Pos, line: Line, m: Cpu)
    requires ProgramOk(p) && AtLine(p, outer, h, m, f, pos, line) && RunStep(p, h, h') && line.stmt.ReturnIfHome?
    ensures h' == if line.stmt.target == h.home then Leave(h) else Moved(h, h.at.fn, Follow(f, pos), h.at.vars)
  {
    hide AtLine, RunStep, ProgramOk, TextOk, HasFunction, Follow, JumpsTo, RebasesNothing, Lines, Stmts, BlockEnd;
    RunsLine(p, outer, h, h', m, f, pos, line);
  }

  lemma AtLineHolds(p: Program, outer: Addr, h: HostState, m: Cpu, f: Func, pos: Pos, line: Line)
    requires AtLine(p, outer, h, m, f, pos, line)
    ensures h.at.Running? && Sound(p, f) && ValidLine(f, pos) && line == LineAt(f, pos) && !line.at.at.Never?
    ensures StackOk(p, h.stack, h.home, outer) && Holds(p, f, line.at, h, h.at.vars, m)
  {
    hide Holds, StackOk, Sound, ValidLine, LineAt;
  }

  lemma SimulateReturnIfHome(p: Program, outer: Addr, h: HostState, h': HostState, f: Func, pos: Pos, line: Line,
                             m: Cpu)
    requires ProgramOk(p) && AtLine(p, outer, h, m, f, pos, line) && RunStep(p, h, h') && line.stmt.ReturnIfHome?
    ensures Matches(p, outer, h', m)
  {
    hide LineAt, ValidLine, StackOk, RunStep, ProgramOk, BodyOk, CodeOk, EndSafe, TextOk, Edge, Holds, LineOk, Arrived,
         Follow;
    AtLineHolds(p, outer, h, m, f, pos, line);
    ReturnsIfHome(p, outer, h, h', f, pos, line, m);
    FlowsOn(p, f, pos);
    AtHome(p, f, line, LineAt(f, Follow(f, pos)).at, h, Moved(h, h.at.fn, Follow(f, pos), h.at.vars), h.at.vars, m);
    if line.stmt.target == h.home {
      Leaves(p, outer, h, m);
    } else {
      Passed(p, outer, h, m, f, pos, line, h', h.at.vars, m);
    }
  }

  lemma SimulateTailcallUnlessHome(p: Program, outer: Addr, h: HostState, h': HostState, f: Func, pos: Pos, line: Line,
                                   m: Cpu)
    requires ProgramOk(p) && AtLine(p, outer, h, m, f, pos, line) && RunStep(p, h, h') && line.stmt.TailcallUnlessHome?
    ensures Matches(p, outer, h', m)
  {
    hide LineAt, ValidLine, StackOk, RunStep, ProgramOk, BodyOk, CodeOk, EndSafe, TextOk, HasFunction, Same, Follow,
         JumpsTo, Alike, Temps;
    RunsLine(p, outer, h, h', m, f, pos, line);
    FlowsOn(p, f, pos);
    TempsAlike(p.slack, h.at.vars.words, h.g, m.g);
    if h.at.vars.captured != h.home {
      Leaves(p, outer, h.(pending := true, target := h.at.vars.captured), m);
    }
  }

  lemma CallIsCore(f: Func, i: nat, k: nat)
    requires Fits(f) && SlotsOk(f) && i < |f.instrs| && k < |InstrLines(f, i)| && LiveLine(f, i, k).stmt.Call?
    ensures PartOf(f, i, k).InCore? && LiveLine(f, i, k) == CoreLines(f, i, CallsBefore(f, i))[PartOf(f, i, k).at]
  {
    hide BodyLines;
  }

  lemma CallBodyLine(f: Func, i: nat, links: nat, line: Line)
    requires Fits(f) && i < |f.instrs| && BodyLine(f, i, links, line) && line.stmt.Call?
    ensures line.at.ra.Some? && BackIsReturn(f, line.stmt, line.at.ra.value) && line.stmt.locals == LocalTailcalls(f)
  {
  }

  /** What the line of a call says. */
  lemma CallLine(p: Program, f: Func, pos: Pos)
    requires Sound(p, f) && ValidLine(f, pos) && LineAt(f, pos).stmt.Call? && !LineAt(f, pos).at.at.Never?
    ensures LineAt(f, pos).at.ra.Some? && BackIsReturn(f, LineAt(f, pos).stmt, LineAt(f, pos).at.ra.value)
    ensures LineAt(f, pos).stmt.locals == LocalTailcalls(f)
  {
    hide CodeOk, EndSafe, TextOk, InstrLines, PrologueLines, EpilogueLines, LiveLine, PartOf, CoreLines, BodyLine;
    if !(0 < pos.chunk <= |f.instrs|) {
      OuterIsFlat(f, pos);
    }
    var i, k := pos.chunk - 1, pos.line;
    LiveLineIs(f, i, k);
    CallIsCore(f, i, k);
    var j := PartOf(f, i, k).at;
    CoreBody(f, p.slack, i, CallsBefore(f, i));
    BodyOnlyAt(f, i, CallsBefore(f, i), CoreLines(f, i, CallsBefore(f, i)), j);
    CallBodyLine(f, i, CallsBefore(f, i), LiveLine(f, i, k));
  }

  /** The top of a function that was found for the address the processor is at. */
  lemma EntersFunction(p: Program, h: HostState, fn: nat, m: Cpu)
    requires ProgramOk(p) && m.pc in p.lookup && fn == p.lookup[m.pc].fn && h.start == p.lookup[m.pc].start
    requires !h.pending && Alike(p.slack, h.g, m.g) && m.npc == Add(m.pc, 4)
    ensures fn < |p.funcs| && Sound(p, p.funcs[fn]) && ValidLine(p.funcs[fn], Pos(0, 0))
    ensures Holds(p, p.funcs[fn], LineAt(p.funcs[fn], Pos(0, 0)).at, h, NO_LOCALS, m)
  {
    hide CodeOk, EndSafe, TextOk, Labels, InstrOk, BordersOk, Holds, RebasesNothing;
    assert FuncOk(p, fn);
    var f := p.funcs[fn];
    SoundFunc(p, f);
    BordersHold(f, p.slack);
    PrologueChain(p, f);
    EntersHolds(p, f, h, m);
  }

  lemma EntersHolds(p: Program, f: Func, h: HostState, m: Cpu)
    requires BodyOk(f, p.slack) && !h.pending && Alike(p.slack, h.g, m.g) && m.npc == Add(m.pc, 4)
    requires if h.start == 0 then Entry(f) == m.pc else h.start == m.pc && m.pc in DispatchEntries(f)
    ensures f.dispatch != {} ==> Holds(p, f, Point(Entering, None), h, NO_LOCALS, m)
    ensures f.dispatch == {} ==> Holds(p, f, Seq(Entry(f)), h, NO_LOCALS, m)
  {
    hide InstrOk, Labels, EmitsTail, LocalTailcalls, Same;
    if h.start == 0 {
      Opens(p.slack, m.pc, map[], h.g, m.g);
    }
  }

  lemma Pushed(p: Program, stack: seq<Frame>, fr: Frame, outer: Addr)
    requires FrameOk(p, fr) && StackOk(p, stack, fr.prev, outer)
    ensures StackOk(p, stack + [fr], fr.ret, outer)
  {
    hide FrameOk;
    assert (stack + [fr])[..|stack|] == stack;
  }

  lemma BordersHold(f: Func, k: Slack)
    requires BodyOk(f, k)
    ensures BordersOk(f, k) && RA !in Temps(k) && forall t :: t in LocalTailcalls(f) ==> Open(k, t)
  {
  }

  /** The frame a call pushes. */
  lemma CallFrame(p: Program, outer: Addr, h: HostState, f: Func, pos: Pos, line: Line, m: Cpu) returns (fr: Frame)
    requires ProgramOk(p) && AtLine(p, outer, h, m, f, pos, line) && line.stmt.Call?
    ensures fr == Frame(h.at.fn, h.at.pos, h.home, Low(Get(h.g, RA)), Get(h.g, SP), h.at.vars) && FrameOk(p, fr)
    ensures DestOf(line.stmt.dest, h.g) == m.pc && m.npc == Add(m.pc, 4) && !h.pending && Alike(p.slack, h.g, m.g)
  {
    hide BodyOk, CodeOk, EndSafe, TextOk, ProgramOk, LineAt, ValidLine, Follow;
    fr := Frame(h.at.fn, h.at.pos, h.home, Low(Get(h.g, RA)), Get(h.g, SP), h.at.vars);
    FlowsOn(p, f, pos);
    CallLine(p, f, pos);
    BordersHold(f, p.slack);
    LeavesAlike(p.slack, line.stmt.dest, h.at.vars.words, h.g, m.g);
    SameLow(p.slack, Temps(p.slack), map[], h.g, m.g, RA);
    DestAgrees(p, f, line.at, line.stmt.dest, h, h.at.vars, m);
  }

  lemma SimulateCall(p: Program, outer: Addr, h: HostState, h': HostState, f: Func, pos: Pos, line: Line, m: Cpu)
    requires ProgramOk(p) && AtLine(p, outer, h, m, f, pos, line) && RunStep(p, h, h') && line.stmt.Call?
    ensures Matches(p, outer, h', m)
  {
    hide BodyOk, CodeOk, EndSafe, TextOk, ProgramOk, LineAt, ValidLine, Follow, StackOk, Holds, FrameOk, RunStep,
         StmtStep, RebasesNothing, Lines, Stmts, BlockEnd, Same;
    CallsCallee(p, outer, h, h', f, pos, line, m);
    var fr := CallFrame(p, outer, h, f, pos, line, m);
    Pushed(p, h.stack, fr, outer);
    EntersFunction(p, h', h'.at.fn, m);
  }

  lemma CallsCallee(p: Program, outer: Addr, h: HostState, h': HostState, f: Func, pos: Pos, line: Line, m: Cpu)
    requires ProgramOk(p) && AtLine(p, outer, h, m, f, pos, line) && RunStep(p, h, h') && line.stmt.Call?
    ensures h.at.Running? && EntersCallee(p, DestOf(line.stmt.dest, h.g), h, h')
  {
    hide RunStep, ProgramOk, TextOk, HasFunction, Follow, RebasesNothing, Lines, Stmts, BlockEnd, EntersCallee, Matches,
         Sound, ValidLine, LineAt, Holds;
    RunsLine(p, outer, h, h', m, f, pos, line);
  }

  /** A call that came back with nothing pending resumes after its statement. */
  lemma ResumesAfter(p: Program, outer: Addr, h: HostState, h': HostState, m: Cpu)
    requires Matches(p, outer, h, m) && h.at.Returned? && !h.pending && ReturnStep(p, h, h')
    ensures Matches(p, outer, h', m)
  {
    hide BodyOk, CodeOk, EndSafe, LineAt, ValidLine, Follow, Translation;
    var top := Last(h.stack);
    TextLine(p.funcs[top.fn], top.pos);
  }

  /** A call that came back with a tail call to a label of the caller jumps there. */
  lemma ResumesAtLabel(p: Program, outer: Addr, h: HostState, h': HostState, m: Cpu)
    requires Matches(p, outer, h, m) && h.at.Returned? && h.pending && Open(p.slack, h.target)
    requires var top, popped := Last(h.stack), h.(home := Last(h.stack).prev, stack := h.stack[..|h.stack| - 1]);
             HasFunction(p, top.fn) && JumpsTo(p, top.fn, Loc(h.target), top.vars,
                                               popped.(pending := false, target := 0), h')
    ensures Matches(p, outer, h', m)
  {
    hide BodyOk, CodeOk, EndSafe, LineAt, ValidLine, Follow, JumpsTo, TextOk;
    var top := Last(h.stack);
    var popped := h.(home := top.prev, stack := h.stack[..|h.stack| - 1], pending := false, target := 0);
    Opens(p.slack, m.pc, top.vars.words, h.g, m.g);
    JumpsToAddress(p, outer, top.fn, top.vars, popped, h', m);
  }

  /** The tail calls that a caller takes up itself. */
  ghost predicate TakesUp(p: Program, h: HostState)
    requires h.stack != [] && FrameOk(p, Last(h.stack))
  {
    var call := LineAt(p.funcs[Last(h.stack).fn], Last(h.stack).pos).stmt;
    (call.back != 0 && h.target == call.back) || (h.target != 0 && h.target in call.locals)
  }

  lemma TargetIsOpen(p: Program, h: HostState)
    requires h.stack != [] && FrameOk(p, Last(h.stack)) && TakesUp(p, h)
    ensures Open(p.slack, h.target)
  {
    hide Sound, LineAt, ValidLine, Follow, Open;
  }

  /** A tail call that the runtime carries out. */
  lemma Drained(p: Program, outer: Addr, h: HostState, h': HostState, m: Cpu) returns (m': Cpu)
    requires Matches(p, outer, h, m) && h.at.Returned? && h.pending && Drains(p, h, h')
    ensures Leads(p.image, m, m') && Matches(p, outer, h', m')
  {
    hide StackOk, Leads, Same;
    m' :| Leads(p.image, m, m') && m'.pc == h.home && m'.npc == Add(h.home, 4) && Alike(p.slack, h'.g, m'.g);
  }

  lemma SimulateReturned(p: Program, outer: Addr, h: HostState, h': HostState, m: Cpu) returns (m': Cpu)
    requires Matches(p, outer, h, m) && h.at.Returned? && ReturnStep(p, h, h')
    ensures Leads(p.image, m, m') && Matches(p, outer, h', m')
  {
    hide BodyOk, CodeOk, EndSafe, TextOk, LineAt, ValidLine, Follow, JumpsTo, Translation, Drains, Same, Leads;
    m' := m;
    LeadsRefl(p.image, m);
    var top := Last(h.stack);
    var popped := h.(home := top.prev, stack := h.stack[..|h.stack| - 1]);
    if !h.pending {
      ResumesAfter(p, outer, h, h', m);
    } else if TakesUp(p, h) {
      TextLine(p.funcs[top.fn], top.pos);
      TargetIsOpen(p, h);
      ResumesAtLabel(p, outer, h, h', m);
    } else if h' == Leave(popped) {
      Leaves(p, outer, popped, m);
    } else {
      TextLine(p.funcs[top.fn], top.pos);
      m' := Drained(p, outer, h, h', m);
    }
  }

  // ----- Runs -----

  lemma SimulateRunning(p: Program, outer: Addr, h: HostState, h': HostState, m: Cpu) returns (m': Cpu)
    requires ProgramOk(p) && Matches(p, outer, h, m) && h.at.Running? && RunStep(p, h, h')
    ensures Leads(p.image, m, m') && Matches(p, outer, h', m')
  {
    hide BodyOk, CodeOk, EndSafe, TextOk, ProgramOk, LineAt, ValidLine, StackOk, RunStep, Leads;
    var f, pos := p.funcs[h.at.fn], h.at.pos;
    var line := LineAt(f, pos);
    m' := m;
    LeadsRefl(p.image, m);
    if Straight(line.stmt) {
      m' := SimulateStraight(p, outer, h, h', f, pos, line, m);
    } else {
      match line.stmt {
        case If(_) => m' := SimulateIf(p, outer, h, h', f, pos, line, m);
        case Goto(_) => SimulateGoto(p, outer, h, h', f, pos, line, m);
        case Call(_, _, _) => SimulateCall(p, outer, h, h', f, pos, line, m);
        case ReturnIfHome(_) => SimulateReturnIfHome(p, outer, h, h', f, pos, line, m);
        case Return => SimulateReturn(p, outer, h, h', f, pos, line, m);
        case CloseFunction => SimulateReturn(p, outer, h, h', f, pos, line, m);
        case TailcallUnlessHome => SimulateTailcallUnlessHome(p, outer, h, h', f, pos, line, m);
        case DispatchRa(_) => SimulateDispatch(p, outer, h, h', f, pos, line, m);
        case Switch(_, _) => SimulateSwitch(p, outer, h, h', f, pos, line, m);
        case EnterSwitch(_) => SimulateEnter(p, outer, h, h', f, pos, line, m);
        case _ => RunsLine(p, outer, h, h', m, f, pos, line);
      }
    }
  }
}
