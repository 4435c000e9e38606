/** The host machine: how the emitted C code runs, call by call.

    Generated functions share a context holding the guest state, the address the
    current host call must come back to (`home`), and a pending tail call. The host
    stack is explicit: one frame for each call statement in progress. */
module Host {
  import opened Machine
  import opened Emitted
  import opened Translator

  /** What a function lookup yields; `start` is an interior entry, or 0. */
  datatype Callee = Callee(fn: nat, start: Addr)

  /** `slack` says where the two sides may differ; `bases` are the addresses the functions'
      sections are loaded at; `known` the addresses that code can return to: those of the
      program's own code, and of what calls it. */
  datatype Program = Program(image: Image, funcs: seq<Func>, lookup: map<Addr, Callee>, slack: Slack,
                             bases: seq<Addr>, known: set<Addr>)

  /** The local variables of a function: the captured return address, and for each table
      jump the saved index. `words` is there for the statements of theorems only: the
      entry that a rewritten load would have loaded. */
  datatype Locals = Locals(captured: Addr, addends: map<Addr, nat>, words: map<Addr, Addr>)

  const NO_LOCALS := Locals(0, map[], map[])

  /** A call statement in progress: where it is, the `home` to restore, the return
      address it was made with, the stack pointer, and the locals of the caller. */
  datatype Frame = Frame(fn: nat, pos: Pos, prev: Addr, ret: Addr, sp: nat, vars: Locals)

  datatype Control =
    | Running(fn: nat, pos: Pos, vars: Locals)
      /** Back in the innermost call statement. */
    | Returned
    | Halted

  datatype HostState = HostState(
    g: Guest, home: Addr, pending: bool, target: Addr, start: Addr, stack: seq<Frame>, at: Control)

  const SP: Reg := 29

  ghost function TextOf(p: Program, fn: nat): Text
    requires fn < |p.funcs| && Fits(p.funcs[fn])
  {
    Translation(p.funcs[fn])
  }

  ghost predicate HasFunction(p: Program, fn: nat) {
    fn < |p.funcs| && fn < |p.bases| && Fits(p.funcs[fn])
  }

  function Moved(h: HostState, fn: nat, pos: Pos, vars: Locals): HostState {
    h.(at := Running(fn, pos, vars))
  }

  ghost predicate JumpsTo(p: Program, fn: nat, l: Label, vars: Locals, h: HostState, h': HostState)
    requires HasFunction(p, fn)
  {
    exists q :: ValidPos(TextOf(p, fn), q) && At(TextOf(p, fn), q) == LabelHere(l) && h' == Moved(h, fn, q, vars)
  }

  /** The generated function returns to its host caller. */
  function Leave(h: HostState): HostState {
    h.(at := if h.stack == [] then Halted else Returned)
  }

  function Rebased(base: Addr, ram: Addr, size: nat, target: Addr): Addr {
    var offset := (target + WORD - base) % WORD;
    if base != ram && offset < size then Add(ram, offset) else target
  }

  function WithAddend(vars: Locals, jr: Addr, addend: nat): Locals {
    vars.(addends := vars.addends[jr := addend])
  }

  function WithWord(vars: Locals, jr: Addr, word: Addr): Locals {
    vars.(words := vars.words[jr := word])
  }

  /** The index selects a case, and the table in memory was the one that was read out of
      the ROM. Otherwise the switch has no step. */
  predicate TakesCase(vars: Locals, jr: Addr, entries: seq<Addr>) {
    && jr in vars.addends && jr in vars.words
    && vars.addends[jr] / 4 < |entries| && vars.words[jr] == entries[vars.addends[jr] / 4]
  }

  /** Running the statement `stmt` of function `fn`. `next` is the statement after it
      and `skip` the end of the block it opens, if it opens one. Statements that
      abort have no step. */
  ghost predicate StmtStep(p: Program, fn: nat, stmt: Stmt, next: Pos, skip: Pos, h: HostState, h': HostState)
    requires h.at.Running? && HasFunction(p, fn)
  {
    var vars := h.at.vars;
    var onwards := Moved(h, fn, next, vars);
    match stmt
    case Comment(_) => h' == onwards
    case LabelHere(_) => h' == onwards
    case EndIf => h' == onwards
    case Checkpoint(_) => h' == onwards
    case Goto(l) => JumpsTo(p, fn, l, vars, h, h')
    case Do(effect, reloc) => h' == onwards.(g := effect(reloc, h.g))
    case SaveAddend(jr, index) => h' == Moved(h, fn, next, WithAddend(vars, jr, Get(h.g, index)))
    case EntryAddress(rt, address, load, jr, reloc) =>
      h' == Moved(h.(g := Put(h.g, rt, SignExtend(address(reloc, h.g)))), fn, next,
                  WithWord(vars, jr, load(reloc, h.g)))
    case SetLink(r, v) => h' == onwards.(g := Put(h.g, r, v))
    case If(cond) => h' == if cond(h.g) then onwards else Moved(h, fn, skip, vars)
    case Call(dest, _, _) => EntersCallee(p, DestOf(dest, h.g), h, h')
    case ReturnIfHome(target) => h' == if target == h.home then Leave(h) else onwards
    case RequestTailcall(dest) => h' == onwards.(pending := true, target := DestOf(dest, h.g))
    case Return => h' == Leave(h)
    case CloseFunction => h' == Leave(h)
    case CaptureRa => h' == Moved(h, fn, next, vars.(captured := Low(Get(h.g, RA))))
    case RebaseRa(ram, size) =>
      && (p.bases[fn] == ram || vars.captured in p.known)
      && h' == Moved(h, fn, next, vars.(captured := Rebased(p.bases[fn], ram, size, vars.captured)))
    case DispatchRa(labels) =>
      if vars.captured in labels then
        Open(p.slack, vars.captured) && JumpsTo(p, fn, Loc(vars.captured), vars, h, h')
      else h' == onwards
    case TailcallUnlessHome =>
      h' == if vars.captured != h.home then Leave(h.(pending := true, target := vars.captured)) else onwards
    case Switch(jr, entries) =>
      TakesCase(vars, jr, entries) && JumpsTo(p, fn, Loc(entries[vars.addends[jr] / 4]), vars, h, h')
    case EnterSwitch(starts) =>
      if h.start == 0 then h' == onwards
      else h.start in starts && JumpsTo(p, fn, Loc(h.start), vars, h.(start := 0), h')
    case PauseSelf => false
    case UnhandledCall(_) => false
    case UnhandledBranch(_) => false
  }

  /** A call: the return address becomes the host return target, the old one is kept
      in the frame, and the function found for `target` starts. */
  ghost predicate EntersCallee(p: Program, target: Addr, h: HostState, h': HostState)
    requires h.at.Running?
  {
    target in p.lookup &&
    var ret := Low(Get(h.g, RA));
    h' == h.(home := ret, start := p.lookup[target].start,
             stack := h.stack + [Frame(h.at.fn, h.at.pos, h.home, ret, Get(h.g, SP), h.at.vars)],
             at := Running(p.lookup[target].fn, Pos(0, 0), NO_LOCALS))
  }

  ghost predicate RunStep(p: Program, h: HostState, h': HostState)
    requires h.at.Running?
  {
    var fn, pos := h.at.fn, h.at.pos;
    HasFunction(p, fn) && ValidPos(TextOf(p, fn), pos) &&
    var skip := Pos(pos.chunk, BlockEnd(TextOf(p, fn)[pos.chunk], pos.line + 1, 0));
    StmtStep(p, fn, At(TextOf(p, fn), pos), Succ(TextOf(p, fn), pos), skip, h, h')
  }

  /** The contract of the runtime's tail call loop: it returns with nothing pending
      once guest control has reached `home`, having run the guest code in between. */
  ghost predicate Drains(p: Program, h: HostState, h': HostState) {
    && h' == h.(g := h'.g, pending := false, target := 0)
    && forall m: Cpu :: m.pc == h.target && m.npc == Add(h.target, 4) && Alike(p.slack, h.g, m.g) ==>
         exists m' ::
           Leads(p.image, m, m') && m'.pc == h.home && m'.npc == Add(h.home, 4) && Alike(p.slack, h'.g, m'.g)
  }

  /** The rest of a call statement, after the callee came back. A pending tail call
      to the return label or to a local label is taken here; any other is handed on
      to the caller (when trampolines are nested too deeply) or drained. A call that
      comes back with another stack pointer has no step. */
  ghost predicate ReturnStep(p: Program, h: HostState, h': HostState) {
    h.stack != [] &&
    var top := h.stack[|h.stack| - 1];
    HasFunction(p, top.fn) && ValidPos(TextOf(p, top.fn), top.pos) && At(TextOf(p, top.fn), top.pos).Call? &&
    var call := At(TextOf(p, top.fn), top.pos);
    var popped := h.(home := top.prev, stack := h.stack[..|h.stack| - 1]);
    var resumed := popped.(pending := false, target := 0);
    var spKept := Get(h.g, SP) == top.sp;
    if !h.pending then spKept && h' == Moved(popped, top.fn, Succ(TextOf(p, top.fn), top.pos), top.vars)
    else if call.back != 0 && h.target == call.back then spKept
      && JumpsTo(p, top.fn, Loc(call.back), top.vars, resumed, h')
    else if h.target != 0 && h.target in call.locals then spKept
      && JumpsTo(p, top.fn, Loc(h.target), top.vars, resumed, h')
    else h' == Leave(popped) || Drains(p, h, h')
  }

  ghost predicate Steps(p: Program, h: HostState, h': HostState) {
    match h.at
    case Running(_, _, _) => RunStep(p, h, h')
    case Returned => ReturnStep(p, h, h')
    case Halted => false
  }

  ghost predicate IsRun(p: Program, run: seq<HostState>) {
    run != [] && forall k :: 0 <= k < |run| - 1 ==> Steps(p, run[k], run[k + 1])
  }
}
