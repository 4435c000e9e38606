/** One emitted statement against the processor: from a point that holds, running the
    statement leads to a state in which the next point holds. */
module StepFacts {
  import opened Machine
  import opened Emitted
  import opened Translator
  import opened Host
  import opened Points
  import opened Edges

  /** `pt` describes the processor state `m` for a host in state `h` with the local
      variable `captured`. */
  ghost predicate Holds(p: Program, f: Func, pt: Point, h: HostState, vars: Locals, m: Cpu) {
    && h.pending == pt.at.Pending?
    && (h.start == 0 || pt.at.Entering?)
    && (pt.ra.Some? ==> Low(Get(m.g, RA)) == pt.ra.value)
    && (pt.at.Linked? || pt.at.Chosen? || Same(p.slack, StaleOf(p.slack, pt.at), vars.words, h.g, m.g))
    && match pt.at
       case Goes(d) => DestOf(d, m.g) == m.pc && m.npc == Add(m.pc, 4)
       case Linked(a) =>
         && m.pc == a && m.npc == Add(a, 4)
         && Same(p.slack, StaleAt(p.slack, a), vars.words, h.g, Put(m.g, RA, SignExtend(Add(a, 8))))
       case Slot(a, d) => m.pc == a && DestOf(d, m.g) == m.npc
       case Captured(a) => m.pc == a && m.npc == vars.captured
       case Returning => m.pc == vars.captured && m.npc == Add(m.pc, 4)
       case Tabled(a, jr) => m.pc == a && (jr in vars.words ==> m.npc == vars.words[jr])
       case Chosen(jr, entries) =>
         && m.npc == Add(m.pc, 4) && (jr in vars.words ==> m.pc == vars.words[jr])
         && forall e :: e in entries ==> Same(p.slack, StaleAt(p.slack, e), vars.words, h.g, m.g)
       case Pending => m.pc == h.target && m.npc == Add(m.pc, 4)
       case Home => m.pc == h.home && m.npc == Add(m.pc, 4)
       case Entering =>
         && m.npc == Add(m.pc, 4)
         && if h.start == 0 then m.pc == Entry(f) else Fits(f) && m.pc == h.start && h.start in DispatchEntries(f)
       case Never => false
  }

  /** The processor has come to where the host is, a call having returned. */
  ghost predicate Arrived(p: Program, h: HostState, m: Cpu) {
    && h.start == 0 && Alike(p.slack, h.g, m.g)
    && m.pc == (if h.pending then h.target else h.home) && m.npc == Add(m.pc, 4)
  }

  predicate InSlot(at: Where) {
    at.Slot? || at.Tabled?
  }

  /** The statements at which the processor runs an instruction. */
  predicate Busy(line: Line, next: Point) {
    || line.stmt.Do? || line.stmt.EntryAddress? || line.stmt.If? || line.stmt.CaptureRa?
    || ((line.stmt.Comment? || line.stmt.SetLink?) && InSlot(next.at) && !InSlot(line.at.at))
  }

  lemma SameDestOf(k: Slack, d: Dest, words: map<Addr, Addr>, x: Guest, y: Guest)
    requires Same(k, StaleOf(k, Goes(d)), words, x, y)
    ensures DestOf(d, x) == DestOf(d, y)
  {
    match d
    case Const(_) =>
    case FromReg(r) => SameLow(k, Temps(k) - {r}, words, x, y, r);
  }

  lemma KeptDest(d: Dest, effect: Effect, reloc: Option<Reloc>, g: Guest)
    requires KeepsDest(effect, d)
    ensures DestOf(d, effect(reloc, g)) == DestOf(d, g)
  {
  }

  lemma CommentStep(p: Program, f: Func, line: Line, next: Point, h: HostState, vars: Locals,
                    m: Cpu) returns (m': Cpu)
    requires Fits(f) && line.stmt.Comment? && Edge(p, f, line, next) && Holds(p, f, line.at, h, vars, m)
    ensures Leads(p.image, m, m') && Holds(p, f, next, h, vars, m')
    ensures Busy(line, next) ==> Machine.Step(p.image, m) == Some(m')
  {
    hide Weaker, Temps;
    if next == line.at {
      m' := m;
      LeadsRefl(p.image, m);
    } else {
      SlotIsAfter4(m.pc);
      LeadsStep(p.image, m);
      m' := Step(p.image, m).value;
    }
  }

  lemma DoStep(p: Program, f: Func, line: Line, next: Point, h: HostState, vars: Locals, m: Cpu) returns (m': Cpu)
    requires Fits(f) && line.stmt.Do? && Edge(p, f, line, next) && Holds(p, f, line.at, h, vars, m)
    ensures Leads(p.image, m, m') && Holds(p, f, next, h.(g := line.stmt.effect(line.stmt.reloc, h.g)), vars, m')
    ensures Machine.Step(p.image, m) == Some(m')
  {
    var effect, reloc := line.stmt.effect, line.stmt.reloc;
    if line.at.at.Slot? {
      KeptDest(line.at.at.dest, effect, reloc, m.g);
    }
    LeadsStep(p.image, m);
    m' := Step(p.image, m).value;
  }

  /** The host has the address of the entry where the processor has the entry. */
  lemma LoadStep(p: Program, f: Func, line: Line, next: Point, h: HostState, vars: Locals, m: Cpu) returns (m': Cpu)
    requires Fits(f) && line.stmt.EntryAddress? && Edge(p, f, line, next) && Holds(p, f, line.at, h, vars, m)
    ensures var s := line.stmt;
            Leads(p.image, m, m')
            && Holds(p, f, next, h.(g := Put(h.g, s.rt, SignExtend(s.address(s.reloc, h.g)))),
                     WithWord(vars, s.jr, s.load(s.reloc, h.g)), m')
    ensures Machine.Step(p.image, m) == Some(m')
  {
    var s := line.stmt;
    LeadsStep(p.image, m);
    m' := Step(p.image, m).value;
    assert s.load(s.reloc, h.g) == s.load(s.reloc, m.g);
    SameLoaded(p.slack, StaleAt(p.slack, m.pc), StaleAt(p.slack, Add(m.pc, 4)), vars.words, h.g, m.g, s.rt, s.jr,
               SignExtend(s.address(s.reloc, h.g)), s.load(s.reloc, m.g));
  }

  lemma SameLoaded(k: Slack, s: Stale, t: Stale, words: map<Addr, Addr>, x: Guest, y: Guest, rt: Reg, jr: Addr,
                   v: nat, word: Addr)
    requires Same(k, s, words, x, y) && LoadLeaves(s, t, rt, jr)
    ensures Same(k, t, words[jr := word], Put(x, rt, v), Put(y, rt, SignExtend(word)))
  {
    SignExtendLow(word);
    var x', y', noted := Put(x, rt, v), Put(y, rt, SignExtend(word)), words[jr := word];
    forall r: Reg
      ensures if r in t then t[r].Some? && t[r].value in noted ==> Low(y'.gpr[r]) == noted[t[r].value]
              else if r in k.links then Low(x'.gpr[r]) == Low(y'.gpr[r])
              else x'.gpr[r] == y'.gpr[r]
    {
      if r != rt {
        assert x'.gpr[r] == x.gpr[r] && y'.gpr[r] == y.gpr[r];
        assert r in s ==> r in (s - {rt}).Keys;
        assert r in t ==> r in t - {rt} && (t - {rt})[r] == t[r];
      }
    }
  }

  lemma SetLinkStep(p: Program, f: Func, line: Line, next: Point, h: HostState, vars: Locals,
                    m: Cpu) returns (m': Cpu)
    requires Fits(f) && line.stmt.SetLink? && Edge(p, f, line, next) && Holds(p, f, line.at, h, vars, m)
    ensures Leads(p.image, m, m') && Holds(p, f, next, h.(g := Put(h.g, line.stmt.r, line.stmt.value)), vars, m')
    ensures Busy(line, next) ==> Machine.Step(p.image, m) == Some(m')
  {
    SamePut(p.slack, StaleAt(p.slack, m.pc), vars.words, h.g, m.g, line.stmt.r, line.stmt.value);
    SlotIsAfter4(m.pc);
    if p.image.code[m.pc].Branch? {
      m' := m;
      LeadsRefl(p.image, m);
    } else {
      LeadsStep(p.image, m);
      m' := Step(p.image, m).value;
    }
  }

  /** The host's test of a branch agrees with the processor's, which comes before
      the link write. */
  lemma CondAgrees(p: Program, f: Func, line: Line, next: Point, h: HostState, vars: Locals, m: Cpu)
    requires Fits(f) && line.stmt.If? && Edge(p, f, line, next) && Holds(p, f, line.at, h, vars, m)
    ensures m.pc in p.image.code && p.image.code[m.pc].Branch? && p.image.code[m.pc].cond == line.stmt.cond
    ensures line.stmt.cond(h.g) == line.stmt.cond(m.g)
  {
    var cond := line.stmt.cond;
    if line.at.at.Linked? {
      var g := Put(m.g, RA, SignExtend(Add(m.pc, 8)));
      assert cond(h.g) == cond(g);
      assert cond(g) == cond(m.g);
    } else {
      assert cond(h.g) == cond(m.g);
    }
  }

  lemma IfTaken(p: Program, f: Func, line: Line, next: Point, h: HostState, vars: Locals, m: Cpu) returns (m': Cpu)
    requires Fits(f) && line.stmt.If? && Edge(p, f, line, next) && Holds(p, f, line.at, h, vars, m)
    requires line.stmt.cond(h.g)
    ensures Leads(p.image, m, m') && Holds(p, f, next, h, vars, m') && Machine.Step(p.image, m) == Some(m')
  {
    CondAgrees(p, f, line, next, h, vars, m);
    SignExtendLow(Add(m.pc, 8));
    LeadsStep(p.image, m);
    m' := Step(p.image, m).value;
  }

  lemma IfUntaken(p: Program, f: Func, line: Line, next: Point, other: Point, h: HostState, vars: Locals,
                  m: Cpu) returns (m': Cpu)
    requires Fits(f) && line.stmt.If? && Edge(p, f, line, next) && Holds(p, f, line.at, h, vars, m)
    requires !line.stmt.cond(h.g) && UntakenPoint(p, m.pc, other)
    ensures Leads(p.image, m, m') && Holds(p, f, other, h, vars, m') && Machine.Step(p.image, m) == Some(m')
  {
    CondAgrees(p, f, line, next, h, vars, m);
    LeadsStep(p.image, m);
    m' := Step(p.image, m).value;
    AddAdd(m.pc, 4, 4);
    AddAdd(m.pc, 4, 8);
    AddAdd(m.pc, 8, 4);
  }

  /** `jr $ra`: the target is captured when the processor reads it. */
  lemma CaptureStep(p: Program, f: Func, line: Line, next: Point, h: HostState, vars: Locals,
                    m: Cpu) returns (m': Cpu)
    requires Fits(f) && line.stmt.CaptureRa? && Edge(p, f, line, next) && Holds(p, f, line.at, h, vars, m)
    ensures Leads(p.image, m, m') && Holds(p, f, next, h, vars.(captured := Low(Get(h.g, RA))), m')
            && Machine.Step(p.image, m) == Some(m')
  {
    SameLow(p.slack, StaleAt(p.slack, m.pc), vars.words, h.g, m.g, RA);
    SlotIsAfter4(m.pc);
    LeadsStep(p.image, m);
    m' := Step(p.image, m).value;
  }

  /** The instruction before a delay slot. */
  lemma SlotIsAfter4(a: Addr)
    ensures Minus(Add(a, 4), 4) == a
  {
  }

  /** A destination read by the host names the address the processor is at. */
  lemma DestAgrees(p: Program, f: Func, pt: Point, d: Dest, h: HostState, vars: Locals, m: Cpu)
    requires pt.at == Goes(d) && Holds(p, f, pt, h, vars, m)
    ensures DestOf(d, h.g) == m.pc
  {
    SameDestOf(p.slack, d, vars.words, h.g, m.g);
  }

  lemma RequestStep(p: Program, f: Func, line: Line, next: Point, h: HostState, vars: Locals, m: Cpu, target: Addr)
    requires Fits(f) && line.stmt.RequestTailcall? && LineOk(p, f, line) && Edge(p, f, line, next)
             && Holds(p, f, line.at, h, vars, m)
    requires DestOf(line.stmt.dest, h.g) == target
    ensures Holds(p, f, next, h.(pending := true, target := target), vars, m)
  {
    DestAgrees(p, f, line.at, line.stmt.dest, h, vars, m);
  }

  /** Rebasing leaves the captured address alone. */
  lemma RebaseKeeps(p: Program, fn: nat, captured: Addr)
    requires fn < |p.funcs| && fn < |p.bases| && RebasesNothing(p, fn)
    requires p.bases[fn] == p.funcs[fn].sectionRam || captured in p.known
    ensures Rebased(p.bases[fn], p.funcs[fn].sectionRam, p.funcs[fn].sectionSize, captured) == captured
  {
  }
}
