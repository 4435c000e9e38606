/** What the simulation says about whole runs: where code may be entered, where it
    comes back, what each call finds when it resumes, and when the host can stop. */
module Protocol {
  import opened Machine
  import opened Emitted
  import opened Translator
  import opened Host
  import opened Points
  import opened LabelWalk
  import opened WalkFacts
  import opened Edges
  import opened StepFacts
  import opened Flow
  import opened LabelFacts
  import opened Blocks
  import opened Simulation
  import opened Liveness

  // ----- Where code is entered -----

  /** A host about to run function `fn` from statement `pos`, nothing being called. */
  function Starting(fn: nat, pos: Pos, start: Addr, home: Addr, g: Guest): HostState {
    HostState(g, home, false, 0, start, [], Running(fn, pos, NO_LOCALS))
  }

  /** From the label of any address of a function. */
  lemma StartsAtLabel(p: Program, fn: nat, pos: Pos, x: Addr, home: Addr, g: Guest, g': Guest)
    requires ProgramOk(p) && fn < |p.funcs| && HasFunction(p, fn)
    requires ValidPos(TextOf(p, fn), pos) && At(TextOf(p, fn), pos) == LabelHere(Loc(x))
    requires Same(p.slack, StaleAt(p.slack, x), map[], g, g')
    ensures Matches(p, home, Starting(fn, pos, 0, home, g), Cpu(x, Add(x, 4), g'))
  {
    hide BodyOk, CodeOk, EndSafe, TextOk, LineAt, ValidLine, Translation, JumpsTo;
    assert FuncOk(p, fn);
    SoundFunc(p, p.funcs[fn]);
    TextLine(p.funcs[fn], pos);
    AddressLabel(p, p.funcs[fn], pos, x);
    assert StackOk(p, [], home, home);
  }

  /** From the top of the function a lookup finds. */
  lemma StartsAtLookup(p: Program, t: Addr, home: Addr, g: Guest, g': Guest)
    requires ProgramOk(p) && t in p.lookup && Alike(p.slack, g, g')
    ensures Matches(p, home, Starting(p.lookup[t].fn, Pos(0, 0), p.lookup[t].start, home, g), Cpu(t, Add(t, 4), g'))
  {
    hide BodyOk, CodeOk, EndSafe, TextOk, LineAt, ValidLine, Holds;
    EntersFunction(p, Starting(p.lookup[t].fn, Pos(0, 0), p.lookup[t].start, home, g), p.lookup[t].fn,
                   Cpu(t, Add(t, 4), g'));
    assert StackOk(p, [], home, home);
  }

  lemma {:induction false} LeadsAlong(p: Program, outer: Addr, run: seq<HostState>, guest: seq<Cpu>, k: nat)
    requires Follows(p, outer, run, guest) && k < |guest|
    ensures Leads(p.image, guest[0], guest[k])
    decreases k
  {
    hide Matches, Leads;
    if k == 0 {
      LeadsRefl(p.image, guest[0]);
    } else {
      LeadsAlong(p, outer, run, guest, k - 1);
      assert Leads(p.image, guest[k - 1], guest[k - 1 + 1]);
      LeadsTrans(p.image, guest[0], guest[k - 1], guest[k]);
    }
  }

  /** Wherever a run has got to, the processor gets to the matching state. */
  lemma GuestGetsThere(p: Program, outer: Addr, run: seq<HostState>, m: Cpu, k: nat) returns (m': Cpu)
    requires ProgramOk(p) && IsRun(p, run) && Matches(p, outer, run[0], m) && k < |run|
    ensures Leads(p.image, m, m') && Matches(p, outer, run[k], m')
  {
    hide ProgramOk, Matches, Leads, Host.Steps;
    var guest := EveryRunIsAGuestRun(p, outer, run, m);
    LeadsAlong(p, outer, run, guest, k);
    m' := guest[k];
  }

  // ----- Where runs end -----

  lemma SameRefl(k: Slack, s: Stale, g: Guest)
    ensures Same(k, s, map[], g, g)
  {
  }

  lemma HaltedAgrees(p: Program, outer: Addr, h: HostState, m: Cpu)
    requires Matches(p, outer, h, m) && h.at.Halted?
    ensures h.home == outer && Alike(p.slack, h.g, m.g) && m.pc == (if h.pending then h.target else outer)
            && m.npc == Add(m.pc, 4)
  {
  }

  /** A function run from one of its labels, whatever it calls: when it is done the
      processor is at the pending tail call target or else exactly at the host return
      target, which is the one the run started with, and the guest states agree. */
  lemma FunctionRunsAgree(p: Program, fn: nat, pos: Pos, x: Addr, home: Addr, g: Guest,
                          run: seq<HostState>) returns (m': Cpu)
    requires ProgramOk(p) && fn < |p.funcs| && HasFunction(p, fn)
    requires ValidPos(TextOf(p, fn), pos) && At(TextOf(p, fn), pos) == LabelHere(Loc(x))
    requires IsRun(p, run) && run[0] == Starting(fn, pos, 0, home, g) && Last(run).at.Halted?
    ensures Leads(p.image, Cpu(x, Add(x, 4), g), m') && Last(run).home == home
            && Alike(p.slack, Last(run).g, m'.g)
    ensures m'.pc == (if Last(run).pending then Last(run).target else home) && m'.npc == Add(m'.pc, 4)
  {
    hide ProgramOk, HasFunction, TextOf, At, Leads, Host.Steps, Matches, Same, Alike;
    SameRefl(p.slack, StaleAt(p.slack, x), g);
    StartsAtLabel(p, fn, pos, x, home, g, g);
    m' := GuestGetsThere(p, home, run, Cpu(x, Add(x, 4), g), |run| - 1);
    HaltedAgrees(p, home, Last(run), m');
  }

  /** A call that comes back with nothing pending does so with the processor at the
      call's return address, and the caller resumes with its own host return target. */
  lemma CallsResumeAtReturnAddress(p: Program, outer: Addr, run: seq<HostState>, m: Cpu, k: nat) returns (m': Cpu)
    requires ProgramOk(p) && IsRun(p, run) && Matches(p, outer, run[0], m) && k + 1 < |run|
    requires run[k].at.Returned? && !run[k].pending
    ensures run[k].stack != [] && Leads(p.image, m, m') && Alike(p.slack, run[k].g, m'.g)
    ensures m'.pc == Last(run[k].stack).ret && m'.npc == Add(m'.pc, 4)
    ensures run[k + 1].home == Last(run[k].stack).prev && run[k + 1].stack == run[k].stack[..|run[k].stack| - 1]
  {
    hide ProgramOk, HasFunction, At, Leads, FrameOk, TextOf;
    m' := GuestGetsThere(p, outer, run, m, k);
    assert Host.Steps(p, run[k], run[k + 1]);
  }

  // ----- The host return target -----

  /** The stack stays at least `d` frames deep from state `j` to state `k`. */
  ghost predicate StaysDeep(run: seq<HostState>, j: nat, k: nat, d: nat)
    requires j <= k < |run|
  {
    forall i :: j <= i <= k ==> |run[i].stack| >= d
  }

  /** One step pushes a frame, pops one, or leaves the stack alone. */
  lemma StepStack(p: Program, h: HostState, h': HostState)
    requires Host.Steps(p, h, h')
    ensures h'.stack == h.stack || (|h'.stack| == |h.stack| + 1 && h'.stack[..|h.stack|] == h.stack)
            || (h.stack != [] && h'.stack == h.stack[..|h.stack| - 1])
  {
    hide HasFunction, TextOf, At, Succ, BlockEnd, Rebased;
  }

  lemma {:induction false} FramesKept(p: Program, run: seq<HostState>, j: nat, k: nat, d: nat)
    requires IsRun(p, run) && j <= k < |run| && StaysDeep(run, j, k, d)
    ensures run[k].stack[..d] == run[j].stack[..d]
    decreases k
  {
    hide Host.Steps;
    if j < k {
      FramesKept(p, run, j, k - 1, d);
      assert Host.Steps(p, run[k - 1], run[k - 1 + 1]);
      StepStack(p, run[k - 1], run[k]);
    }
  }

  /** The stack determines the host return target. */
  lemma SameStackSameHome(p: Program, outer: Addr, stack: seq<Frame>, x: Addr, y: Addr)
    requires StackOk(p, stack, x, outer) && StackOk(p, stack, y, outer)
    ensures x == y
  {
  }

  /** While a function and everything it calls runs, the host return target changes
      and changes back: whenever the stack is as deep as it was, the target is too. */
  lemma HomeIsRestored(p: Program, outer: Addr, run: seq<HostState>, m: Cpu, j: nat, k: nat)
    requires ProgramOk(p) && IsRun(p, run) && Matches(p, outer, run[0], m) && j <= k < |run|
    requires StaysDeep(run, j, k, |run[j].stack|) && |run[k].stack| == |run[j].stack|
    ensures run[k].stack == run[j].stack && run[k].home == run[j].home
  {
    hide ProgramOk, StackOk, Leads;
    FramesKept(p, run, j, k, |run[j].stack|);
    assert run[k].stack == run[k].stack[..|run[j].stack|] == run[j].stack[..|run[j].stack|] == run[j].stack;
    var x := GuestGetsThere(p, outer, run, m, j);
    var y := GuestGetsThere(p, outer, run, m, k);
    SameStackSameHome(p, outer, run[j].stack, run[j].home, run[k].home);
  }

  // ----- Progress -----

  /** What can stop the host: a statement that aborts, a call to an address that no
      function starts at, a table jump past the recognised entries or through a changed
      table, a return from a moved section to where no code is, one to a label where what
      is stale between functions may not be, or a call that comes back with another stack
      pointer. */
  ghost predicate Stuck(p: Program, h: HostState) {
    match h.at
    case Running(fn, pos, _) =>
      && HasFunction(p, fn) && ValidPos(TextOf(p, fn), pos)
      && (match At(TextOf(p, fn), pos)
          case PauseSelf => true
          case UnhandledCall(_) => true
          case UnhandledBranch(_) => true
          case Call(dest, _, _) => DestOf(dest, h.g) !in p.lookup
          case Switch(jr, entries) => !TakesCase(h.at.vars, jr, entries)
          case DispatchRa(labels) => h.at.vars.captured in labels && !Open(p.slack, h.at.vars.captured)
          case RebaseRa(ram, _) => p.bases[fn] != ram && h.at.vars.captured !in p.known
          case _ => false)
    case Returned => h.stack != [] && Get(h.g, SP) != Last(h.stack).sp
    case Halted => false
  }

  lemma {:induction false} FindLabel(text: Text, l: Label) returns (q: Pos)
    requires LabelCount(text, l) > 0
    ensures ValidPos(text, q) && At(text, q) == LabelHere(l)
    decreases |text|
  {
    var n := |text| - 1;
    if CountIn(text[n], l) > 0 {
      var k := CountFinds(text[n], l);
      q := Pos(n, k);
    } else {
      q := FindLabel(text[..n], l);
    }
  }

  lemma LabelsFit(f: Func, slack: Slack)
    requires BodyOk(f, slack)
    ensures LabelsAligned(f) && TablesInside(f) && Inside(f, Entry(f))
  {
    forall i | 0 <= i < |f.instrs| && f.instrs[i].TableJr? ensures EntriesInside(f, f.instrs[i].entries) {
      assert InstrOk(f, slack, i);
    }
  }

  /** A jump that a statement of the function can make has somewhere to land. */
  lemma Lands(p: Program, fn: nat, pos: Pos, l: Label, vars: Locals, h: HostState) returns (h': HostState)
    requires HasFunction(p, fn) && Sound(p, p.funcs[fn]) && ValidPos(TextOf(p, fn), pos)
             && l in References(At(TextOf(p, fn), pos))
    ensures JumpsTo(p, fn, l, vars, h, h')
  {
    hide CodeOk, EndSafe, TextOk, BodyOk, References, Translation, LabelCount;
    LabelsFit(p.funcs[fn], p.slack);
    NoDanglingLabels(p.funcs[fn], pos, l);
    var q := FindLabel(TextOf(p, fn), l);
    h' := Moved(h, fn, q, vars);
  }

  lemma RunningProgress(p: Program, fn: nat, pos: Pos, stmt: Stmt, next: Pos, skip: Pos,
                        h: HostState) returns (h': HostState)
    requires HasFunction(p, fn) && Sound(p, p.funcs[fn]) && ValidPos(TextOf(p, fn), pos)
             && stmt == At(TextOf(p, fn), pos)
    requires h.at.Running? && h.at.fn == fn && h.at.pos == pos && !Stuck(p, h)
    requires stmt.EnterSwitch? ==> h.start == 0 || h.start in stmt.starts
    ensures StmtStep(p, fn, stmt, next, skip, h, h')
  {
    hide CodeOk, EndSafe, TextOk, BodyOk, Translation, TextOf, At, ValidPos;
    var vars := h.at.vars;
    var onwards := Moved(h, fn, next, vars);
    match stmt {
      case Goto(l) => h' := Lands(p, fn, pos, l, vars, h);
      case Do(effect, reloc) => h' := onwards.(g := effect(reloc, h.g));
      case SaveAddend(jr, index) => h' := Moved(h, fn, next, WithAddend(vars, jr, Get(h.g, index)));
      case EntryAddress(rt, address, load, jr, reloc) =>
        h' := Moved(h.(g := Put(h.g, rt, SignExtend(address(reloc, h.g)))), fn, next,
                    WithWord(vars, jr, load(reloc, h.g)));
      case SetLink(r, v) => h' := onwards.(g := Put(h.g, r, v));
      case If(cond) => h' := if cond(h.g) then onwards else Moved(h, fn, skip, vars);
      case Call(dest, _, _) =>
        var callee, ret := p.lookup[DestOf(dest, h.g)], Low(Get(h.g, RA));
        h' := h.(home := ret, start := callee.start,
                 stack := h.stack + [Frame(fn, pos, h.home, ret, Get(h.g, SP), vars)],
                 at := Running(callee.fn, Pos(0, 0), NO_LOCALS));
      case ReturnIfHome(target) => h' := if target == h.home then Leave(h) else onwards;
      case RequestTailcall(dest) => h' := onwards.(pending := true, target := DestOf(dest, h.g));
      case Return => h' := Leave(h);
      case CloseFunction => h' := Leave(h);
      case CaptureRa => h' := Moved(h, fn, next, vars.(captured := Low(Get(h.g, RA))));
      case RebaseRa(ram, size) =>
        h' := Moved(h, fn, next, vars.(captured := Rebased(p.bases[fn], ram, size, vars.captured)));
      case DispatchRa(labels) =>
        h' := onwards;
        if vars.captured in labels { h' := Lands(p, fn, pos, Loc(vars.captured), vars, h); }
      case TailcallUnlessHome =>
        h' := if vars.captured != h.home then Leave(h.(pending := true, target := vars.captured)) else onwards;
      case Switch(jr, entries) => h' := Lands(p, fn, pos, Loc(entries[vars.addends[jr] / 4]), vars, h);
      case EnterSwitch(starts) =>
        h' := onwards;
        if h.start != 0 { h' := Lands(p, fn, pos, Loc(h.start), vars, h.(start := 0)); }
      case _ => h' := onwards;
    }
  }

  /** The processor found a dispatch entry when the top of a function asks for one. */
  lemma EnteredAtAnEntry(p: Program, outer: Addr, h: HostState, m: Cpu, f: Func, pos: Pos, line: Line)
    requires AtLine(p, outer, h, m, f, pos, line) && line.stmt.EnterSwitch?
    ensures h.start == 0 || h.start in line.stmt.starts
  {
    hide CodeOk, EndSafe, TextOk, BodyOk, StackOk, LineAt, ValidLine, Follow;
    FlowsOn(p, f, pos);
    assert Edge(p, f, line, LineAt(f, Follow(f, pos)).at);
  }

  lemma RunningHasStep(p: Program, outer: Addr, h: HostState, m: Cpu) returns (h': HostState)
    requires ProgramOk(p) && Matches(p, outer, h, m) && h.at.Running? && !Stuck(p, h)
    ensures RunStep(p, h, h')
  {
    hide CodeOk, EndSafe, TextOk, BodyOk, StackOk, LineAt, ValidLine, Follow, Stuck, Holds, StmtStep, Translation,
         Lines;
    var fn, pos := h.at.fn, h.at.pos;
    var f := p.funcs[fn];
    assert FuncOk(p, fn);
    TextLine(f, pos);
    var line := LineAt(f, pos);
    if line.stmt.EnterSwitch? {
      AtItsLine(p, outer, h, m);
      EnteredAtAnEntry(p, outer, h, m, f, pos, line);
    }
    var skip := Pos(pos.chunk, BlockEnd(TextOf(p, fn)[pos.chunk], pos.line + 1, 0));
    h' := RunningProgress(p, fn, pos, line.stmt, Succ(TextOf(p, fn), pos), skip, h);
  }

  /** The labels a call can come back to are there. */
  lemma CallLands(p: Program, fr: Frame, l: Label, h: HostState) returns (h': HostState)
    requires HasFunction(p, fr.fn) && FrameOk(p, fr) && ValidPos(TextOf(p, fr.fn), fr.pos)
    requires l in References(At(TextOf(p, fr.fn), fr.pos))
    ensures JumpsTo(p, fr.fn, l, fr.vars, h, h')
  {
    hide CodeOk, EndSafe, TextOk, BodyOk, LineAt, ValidLine, Follow, References, Translation, JumpsTo;
    h' := Lands(p, fr.fn, fr.pos, l, fr.vars, h);
  }

  lemma ReturnedHasStep(p: Program, outer: Addr, h: HostState, m: Cpu) returns (h': HostState)
    requires ProgramOk(p) && Matches(p, outer, h, m) && h.at.Returned? && !Stuck(p, h)
    ensures ReturnStep(p, h, h')
  {
    hide CodeOk, EndSafe, TextOk, BodyOk, LineAt, ValidLine, Follow, Translation, JumpsTo, Drains, Arrived;
    var top := Last(h.stack);
    var f := p.funcs[top.fn];
    assert FuncOk(p, top.fn);
    TextLine(f, top.pos);
    var call := At(TextOf(p, top.fn), top.pos);
    var popped := h.(home := top.prev, stack := h.stack[..|h.stack| - 1]);
    var resumed := popped.(pending := false, target := 0);
    if !h.pending {
      h' := Moved(popped, top.fn, Succ(TextOf(p, top.fn), top.pos), top.vars);
    } else if call.back != 0 && h.target == call.back {
      h' := CallLands(p, top, Loc(call.back), resumed);
    } else if h.target != 0 && h.target in call.locals {
      h' := CallLands(p, top, Loc(h.target), resumed);
    } else {
      h' := Leave(popped);
    }
  }

  /** A host that matches the processor goes on until it is done, unless it is stuck
      in one of the listed ways: in particular no jump lacks its label. */
  lemma Progress(p: Program, outer: Addr, h: HostState, m: Cpu) returns (h': HostState)
    requires ProgramOk(p) && Matches(p, outer, h, m) && !h.at.Halted? && !Stuck(p, h)
    ensures Host.Steps(p, h, h')
  {
    hide ProgramOk, Matches, Stuck, RunStep, ReturnStep;
    if h.at.Running? {
      h' := RunningHasStep(p, outer, h, m);
    } else {
      h' := ReturnedHasStep(p, outer, h, m);
    }
  }
}
