/** What happens when control runs off the last word of a function. */
module FunctionEnd {
  import opened Machine
  import opened Emitted
  import opened Translator
  import opened Host
  import opened Points
  import opened WalkFacts
  import opened Edges
  import opened Flow
  import opened LabelFacts
  import opened StepFacts
  import opened Blocks
  import opened Simulation

  ghost predicate RunsTo(p: Program, h: HostState, h': HostState) {
    exists run :: IsRun(p, run) && run[0] == h && Last(run) == h'
  }

  lemma RunsHere(p: Program, h: HostState)
    ensures RunsTo(p, h, h)
  {
    assert IsRun(p, [h]);
  }

  lemma RunsOn(p: Program, h: HostState, h': HostState, h'': HostState)
    requires Steps(p, h, h') && RunsTo(p, h', h'')
    ensures RunsTo(p, h, h'')
  {
    hide Steps;
    var run :| IsRun(p, run) && run[0] == h' && Last(run) == h'';
    var longer := [h] + run;
    forall k | 0 <= k < |longer| - 1
      ensures Steps(p, longer[k], longer[k + 1])
    {
      if k > 0 {
        assert Steps(p, run[k - 1], run[k - 1 + 1]);
      }
    }
    assert IsRun(p, longer) && longer[0] == h && Last(longer) == h'';
  }

  /** The host is at line `pos` of function `fn`. */
  ghost predicate IsAt(p: Program, fn: nat, f: Func, pos: Pos, h: HostState) {
    && HasFunction(p, fn) && f == p.funcs[fn] && SlotsOk(f) && TextOk(f) && ValidLine(f, pos)
    && h.at.Running? && h.at.fn == fn && h.at.pos == pos
  }

  /** The step that a statement makes. */
  lemma StepAt(p: Program, fn: nat, f: Func, pos: Pos, h: HostState, h': HostState)
    requires IsAt(p, fn, f, pos, h)
    requires StmtStep(p, fn, LineAt(f, pos).stmt, Follow(f, pos),
                      Pos(pos.chunk, BlockEnd(Stmts(Lines(f, pos.chunk)), pos.line + 1, 0)), h, h')
    ensures Steps(p, h, h')
  {
    hide StmtStep, Lines, Translation;
    TextLine(f, pos);
    TranslationIsLines(f, pos.chunk);
  }

  lemma PassAt(p: Program, fn: nat, f: Func, pos: Pos, h: HostState)
    requires IsAt(p, fn, f, pos, h) && (LineAt(f, pos).stmt.Comment? || LineAt(f, pos).stmt.LabelHere?)
    ensures Steps(p, h, Moved(h, fn, Follow(f, pos), h.at.vars))
  {
    hide Lines, TextOk;
    StepAt(p, fn, f, pos, h, Moved(h, fn, Follow(f, pos), h.at.vars));
  }

  lemma LastIsOrdinary(f: Func, slack: Slack)
    requires BodyOk(f, slack)
    ensures !IsControl(f.instrs[|f.instrs| - 1])
  {
    assert InstrOk(f, slack, |f.instrs| - 1);
  }

  lemma OrdinaryCore(f: Func, i: nat, links: nat)
    requires Fits(f) && SlotsOk(f) && i < |f.instrs| && !IsControl(f.instrs[i])
    ensures var core := CoreLines(f, i, links);
            core == [core[0]] + OrdinaryLines(f.instrs[i], RelocLookup(f, AddrAt(f, i)), Seq(AddrAt(f, i)))
            && core[0].stmt == Comment(AddrAt(f, i))
  {
    hide OrdinaryLines, RelocLookup;
  }

  lemma TrailLabels(f: Func, i: nat)
    requires Fits(f) && i < |f.instrs|
    ensures forall j :: 0 <= j < |TrailLines(f, i)| ==> TrailLines(f, i)[j].stmt.LabelHere?
  {
  }

  /** The statements of the last word, which is an ordinary instruction. */
  ghost function LastText(f: Func): seq<Stmt>
    requires Fits(f) && |f.instrs| > 0 && !IsControl(f.instrs[|f.instrs| - 1])
  {
    OrdinaryText(f.instrs[|f.instrs| - 1], RelocLookup(f, AddrAt(f, |f.instrs| - 1)))
  }

  /** Its lines: the comment, the statements, and labels. */
  lemma LastLines(f: Func, slack: Slack)
    requires BodyOk(f, slack) && SlotsOk(f)
    ensures var i, k := |f.instrs| - 1, CoreStart(f, |f.instrs| - 1);
            && !IsControl(f.instrs[i]) && k + 1 + |LastText(f)| <= |InstrLines(f, i)|
            && InstrLines(f, i)[k].stmt == Comment(AddrAt(f, i))
            && (forall j :: 0 <= j < |LastText(f)| ==> InstrLines(f, i)[k + 1 + j].stmt == LastText(f)[j])
            && forall j :: k + 1 + |LastText(f)| <= j < |InstrLines(f, i)| ==> InstrLines(f, i)[j].stmt.LabelHere?
  {
    hide CallsBefore, LikeliesBefore, Labels, RelocLookup, CoreLines, TrailLines, MarkLines, GotoLines, OrdinaryLines,
         OrdinaryText, InstrOk, InstrLines, BordersOk;
    var i := |f.instrs| - 1;
    LastIsOrdinary(f, slack);
    OrdinaryCore(f, i, CallsBefore(f, i));
    TrailLabels(f, i);
    var own := OrdinaryLines(f.instrs[i], RelocLookup(f, AddrAt(f, i)), Seq(AddrAt(f, i)));
    var core := CoreLines(f, i, CallsBefore(f, i));
    InstrStmts(f, i);
    CoreParts(GotoLines(f, i), MarkLines(f, i), core[0], own, TrailLines(f, i), InstrLines(f, i), LastText(f));
  }

  lemma InstrStmts(f: Func, i: nat)
    requires Fits(f) && SlotsOk(f) && i < |f.instrs|
    ensures var lines := GotoLines(f, i) + (MarkLines(f, i) + (CoreLines(f, i, CallsBefore(f, i)) + TrailLines(f, i)));
            |InstrLines(f, i)| == |lines|
            && forall j :: 0 <= j < |lines| ==> InstrLines(f, i)[j].stmt == lines[j].stmt
  {
    hide GotoLines, MarkLines, CoreLines, TrailLines, CallsBefore;
  }

  lemma CoreParts(g: seq<Line>, m: seq<Line>, c: Line, own: seq<Line>, t: seq<Line>, lines: seq<Line>, text: seq<Stmt>)
    requires var all := g + (m + (([c] + own) + t));
             |lines| == |all| && forall j :: 0 <= j < |all| ==> lines[j].stmt == all[j].stmt
    requires Stmts(own) == text && forall j :: 0 <= j < |t| ==> t[j].stmt.LabelHere?
    ensures var k := |g| + |m|;
            && k + 1 + |text| <= |lines| && lines[k].stmt == c.stmt
            && (forall j :: 0 <= j < |text| ==> lines[k + 1 + j].stmt == text[j])
            && forall j :: k + 1 + |text| <= j < |lines| ==> lines[j].stmt.LabelHere?
  {
    var all, k := g + (m + (([c] + own) + t)), |g| + |m|;
    assert all[k] == c;
    forall j | 0 <= j < |text| ensures lines[k + 1 + j].stmt == text[j] {
      assert all[k + 1 + j] == own[j] && text[j] == Stmts(own)[j];
    }
    forall j | k + 1 + |text| <= j < |lines| ensures lines[j].stmt.LabelHere? {
      assert all[j] == t[j - (k + 1 + |text|)];
    }
  }

  /** Labels are run through, up to the end of the function. */
  lemma {:induction false} LabelsPass(p: Program, fn: nat, f: Func, k: nat, vars: Locals, h: HostState)
    requires HasFunction(p, fn) && f == p.funcs[fn] && SlotsOk(f) && TextOk(f) && |f.instrs| > 0
    requires 0 < k <= |Lines(f, |f.instrs|)| && forall j :: k <= j < |Lines(f, |f.instrs|)| ==>
                                                    Lines(f, |f.instrs|)[j].stmt.LabelHere?
    requires h.at == Running(fn, if k < |Lines(f, |f.instrs|)| then Pos(|f.instrs|, k) else Pos(|f.instrs| + 1, 0),
                             vars)
    ensures RunsTo(p, h, Moved(h, fn, Pos(|f.instrs| + 1, 0), vars))
    decreases |Lines(f, |f.instrs|)| - k
  {
    hide Lines, TextOk, RunsTo, Steps;
    var end := Moved(h, fn, Pos(|f.instrs| + 1, 0), vars);
    if k == |Lines(f, |f.instrs|)| {
      RunsHere(p, h);
    } else {
      var pos := Pos(|f.instrs|, k);
      PassAt(p, fn, f, pos, h);
      var h' := Moved(h, fn, Follow(f, pos), h.at.vars);
      LabelsPass(p, fn, f, k + 1, vars, h');
      RunsOn(p, h, h', end);
    }
  }

  /** Where a function that has left its code tells its caller to go on. */
  function Resumption(h: HostState): Addr {
    if h.pending then h.target else h.home
  }

  /** The state in which the end of the function leaves. */
  function Ended(f: Func, h: HostState): HostState
    requires Fits(f)
  {
    Leave(if EmitsTail(f) && h.home != End(f) then h.(pending := true, target := End(f)) else h)
  }

  lemma TailReturns(p: Program, fn: nat, f: Func, vars: Locals, h: HostState)
    requires IsAt(p, fn, f, Pos(|f.instrs| + 1, 0), h) && h.at.vars == vars && EmitsTail(f)
    ensures RunsTo(p, h, Ended(f, h))
  {
    hide TextOk, RunsTo, Steps, IsRun, EmitsTail, InstrLines;
    var n, end := |f.instrs| + 1, Ended(f, h);
    assert Lines(f, n) == EpilogueLines(f);
    RunsHere(p, end);
    if h.home == End(f) {
      StepAt(p, fn, f, Pos(n, 0), h, end);
      RunsOn(p, h, end, end);
    } else {
      var h1 := Moved(h, fn, Pos(n, 1), vars);
      var h2 := Moved(h, fn, Pos(n, 2), vars).(pending := true, target := End(f));
      StepAt(p, fn, f, Pos(n, 0), h, h1);
      StepAt(p, fn, f, Pos(n, 1), h1, h2);
      StepAt(p, fn, f, Pos(n, 2), h2, end);
      RunsOn(p, h2, end, end);
      RunsOn(p, h1, h2, end);
      RunsOn(p, h, h1, end);
    }
  }

  lemma CloseReturns(p: Program, fn: nat, f: Func, h: HostState)
    requires IsAt(p, fn, f, Pos(|f.instrs| + 1, 0), h) && !EmitsTail(f)
    ensures RunsTo(p, h, Ended(f, h))
  {
    hide TextOk, RunsTo, Steps, IsRun, EmitsTail, InstrLines;
    var n, end := |f.instrs| + 1, Ended(f, h);
    assert Lines(f, n) == EpilogueLines(f);
    RunsHere(p, end);
    StepAt(p, fn, f, Pos(n, 0), h, end);
    RunsOn(p, h, end, end);
  }

  /** The guest state that the host computes for an ordinary instruction. */
  function HostEffect(instr: Instr, reloc: Option<Reloc>, g: Guest): Guest
    requires !IsControl(instr)
  {
    match instr
    case Plain(effect) => effect(reloc, g)
    case TableAddu(effect, _, _) => effect(reloc, g)
    case TableLw(rt, address, _, _) => Put(g, rt, SignExtend(address(reloc, g)))
  }

  /** The locals after it. */
  function HostLocals(instr: Instr, reloc: Option<Reloc>, g: Guest, vars: Locals): Locals
    requires !IsControl(instr)
  {
    match instr
    case Plain(effect) => vars
    case TableAddu(_, index, jr) => WithAddend(vars, jr, Get(g, index))
    case TableLw(_, _, load, jr) => WithWord(vars, jr, load(reloc, g))
  }

  /** Its one or two statements. */
  lemma OrdinaryRuns(p: Program, fn: nat, f: Func, k: nat, instr: Instr, reloc: Option<Reloc>, h: HostState)
    returns (h': HostState)
    requires HasFunction(p, fn) && f == p.funcs[fn] && SlotsOk(f) && TextOk(f) && |f.instrs| > 0 && !IsControl(instr)
    requires var lines, text := Lines(f, |f.instrs|), OrdinaryText(instr, reloc);
             k + |text| <= |lines| && forall j :: 0 <= j < |text| ==> lines[k + j].stmt == text[j]
    requires h.at.Running? && h.at.fn == fn && h.at.pos == Pos(|f.instrs|, k)
    ensures var next := k + |OrdinaryText(instr, reloc)|;
            var pos := if next < |Lines(f, |f.instrs|)| then Pos(|f.instrs|, next) else Pos(|f.instrs| + 1, 0);
            h' == Moved(h.(g := HostEffect(instr, reloc, h.g)), fn, pos, HostLocals(instr, reloc, h.g, h.at.vars))
    ensures RunsTo(p, h, h')
  {
    hide Lines, TextOk, RunsTo, Steps;
    var pos, vars, g := Pos(|f.instrs|, k), h.at.vars, HostEffect(instr, reloc, h.g);
    if instr.TableAddu? {
      var saved := Moved(h, fn, Follow(f, pos), HostLocals(instr, reloc, h.g, vars));
      var text := OrdinaryText(instr, reloc);
      assert Lines(f, |f.instrs|)[k + 0].stmt == text[0] && Lines(f, |f.instrs|)[k + 1].stmt == text[1];
      StepAt(p, fn, f, pos, h, saved);
      h' := Moved(saved.(g := g), fn, Follow(f, saved.at.pos), saved.at.vars);
      StepAt(p, fn, f, saved.at.pos, saved, h');
      RunsHere(p, h');
      RunsOn(p, saved, h', h');
      RunsOn(p, h, saved, h');
    } else {
      var text := OrdinaryText(instr, reloc);
      assert Lines(f, |f.instrs|)[k + 0].stmt == text[0];
      h' := Moved(h.(g := g), fn, Follow(f, pos), HostLocals(instr, reloc, h.g, vars));
      StepAt(p, fn, f, pos, h, h');
      RunsHere(p, h');
      RunsOn(p, h, h', h');
    }
  }

  /** The last word, from its comment to the end of the function. */
  lemma LastWordRuns(p: Program, fn: nat, f: Func, slack: Slack, h: HostState)
    requires BodyOk(f, slack) && IsAt(p, fn, f, Pos(|f.instrs|, CoreStart(f, |f.instrs| - 1)), h)
    ensures !IsControl(f.instrs[|f.instrs| - 1])
    ensures var g := HostEffect(f.instrs[|f.instrs| - 1], RelocLookup(f, AddrAt(f, |f.instrs| - 1)), h.g);
            RunsTo(p, h, Ended(f, h.(g := g)))
  {
    hide TextOk, RunsTo, Steps, IsRun, EmitsTail, InstrLines, EpilogueLines, PrologueLines, CoreStart, RelocLookup,
         OrdinaryText, HostEffect, HostLocals;
    LastLines(f, slack);
    var n, k := |f.instrs|, CoreStart(f, |f.instrs| - 1);
    assert Lines(f, n) == InstrLines(f, n - 1);
    var h1 := Moved(h, fn, Pos(n, k + 1), h.at.vars);
    PassAt(p, fn, f, Pos(n, k), h);
    var h2 := OrdinaryRuns(p, fn, f, k + 1, f.instrs[n - 1], RelocLookup(f, AddrAt(f, n - 1)), h1);
    LabelsPass(p, fn, f, k + 1 + |LastText(f)|, h2.at.vars, h2);
    var h3 := Moved(h2, fn, Pos(n + 1, 0), h2.at.vars);
    var end := Ended(f, h.(g := h2.g));
    EndedAlike(f, h3, h);
    assert EpilogueLines(f) != [] by { EpilogueStops(f); }
    if EmitsTail(f) { TailReturns(p, fn, f, h3.at.vars, h3); } else { CloseReturns(p, fn, f, h3); }
    RunsTrans(p, h2, h3, end);
    RunsTrans(p, h1, h2, end);
    RunsOn(p, h, h1, end);
  }

  lemma EndedAlike(f: Func, h: HostState, h': HostState)
    requires Fits(f) && h == h'.(g := h.g, at := h.at)
    ensures Ended(f, h) == Ended(f, h'.(g := h.g))
  {
  }

  lemma RunsTrans(p: Program, h: HostState, h': HostState, h'': HostState)
    requires RunsTo(p, h, h') && RunsTo(p, h', h'')
    ensures RunsTo(p, h, h'')
  {
    hide Steps;
    var x :| IsRun(p, x) && x[0] == h && Last(x) == h';
    var y :| IsRun(p, y) && y[0] == h' && Last(y) == h'';
    var run := x[..|x| - 1] + y;
    forall k | 0 <= k < |run| - 1
      ensures Steps(p, run[k], run[k + 1])
    {
      if k < |x| - 1 {
        assert Steps(p, x[k], x[k + 1]);
      } else {
        assert Steps(p, y[k - (|x| - 1)], y[k - (|x| - 1) + 1]);
      }
    }
    assert IsRun(p, run) && run[0] == h && Last(run) == h'';
  }

  /** Running off the end. The processor goes on at the end address. The emitted
      function tells its caller to go on there too exactly if it was given a tail
      call to the next function, or the end is where it had to return anyway. */
  lemma EndIsHandedOn(p: Program, fn: nat, f: Func, h: HostState, m: Cpu) returns (h': HostState, m': Cpu)
    requires BodyOk(f, p.slack) && CodeOk(p, f) && IsAt(p, fn, f, Pos(|f.instrs|, CoreStart(f, |f.instrs| - 1)), h)
             && !h.pending
    requires m.pc == AddrAt(f, |f.instrs| - 1) && m.npc == Add(m.pc, 4)
    requires Same(p.slack, StaleAt(p.slack, m.pc), h.at.vars.words, h.g, m.g)
    ensures RunsTo(p, h, h') && !h'.at.Running? && h'.stack == h.stack && h'.home == h.home
    ensures Leads(p.image, m, m') && m'.pc == End(f) && (Shut(p.slack, End(f)) ==> Alike(p.slack, h'.g, m'.g))
    ensures Resumption(h') == m'.pc <==> EmitsTail(f) || h.home == End(f)
  {
    hide TextOk, RunsTo, EmitsTail, CoreStart;
    LastWordRuns(p, fn, f, p.slack, h);
    var i := |f.instrs| - 1;
    InstrFacts(p, f, i);
    var instr, reloc := f.instrs[i], RelocLookup(f, AddrAt(f, i));
    h' := Ended(f, h.(g := HostEffect(instr, reloc, h.g)));
    LeadsStep(p.image, m);
    m' := Step(p.image, m).value;
    OrdinaryAgrees(f, p.slack, i, reloc, h.at.vars, h.g, m.g, m'.g);
    if Shut(p.slack, End(f)) {
      LeavesAlike(p.slack, Const(End(f)), HostLocals(instr, reloc, h.g, h.at.vars).words, h'.g, m'.g);
    }
  }

  lemma OrdinaryAgrees(f: Func, k: Slack, i: nat, reloc: Option<Reloc>, vars: Locals, x: Guest, y: Guest, y': Guest)
    requires Fits(f) && i < |f.instrs| && InstrOk(f, k, i) && !IsControl(f.instrs[i])
    requires Same(k, StaleAt(k, AddrAt(f, i)), vars.words, x, y)
    requires match f.instrs[i]
             case Plain(effect) => y' == effect(reloc, y)
             case TableAddu(effect, _, _) => y' == effect(reloc, y)
             case TableLw(rt, _, load, _) => y' == Put(y, rt, SignExtend(load(reloc, y)))
    ensures var instr := f.instrs[i];
            Same(k, StaleAt(k, AddrAt(f, i) + 4), HostLocals(instr, reloc, x, vars).words,
                 HostEffect(instr, reloc, x), y')
  {
    match f.instrs[i] {
      case TableLw(rt, address, load, jr) =>
        assert load(reloc, x) == load(reloc, y);
        SameLoaded(k, StaleAt(k, AddrAt(f, i)), StaleAt(k, AddrAt(f, i) + 4), vars.words, x, y, rt, jr,
                   SignExtend(address(reloc, x)), load(reloc, y));
      case _ =>
    }
  }

  // ----- Functions that are refused -----

  /** The last word can be translated without the delay slot that it lacks. A plain
      `jr` is among these because its failure is not reported. */
  predicate LastTranslates(f: Func)
    requires Fits(f) && |f.instrs| > 0
  {
    match f.instrs[|f.instrs| - 1]
    case Jump(target) => target == AddrAt(f, |f.instrs| - 1)
    case Jal(target) => !Inside(f, target) && target !in f.callResolves
    case Jalr(_, _) => false
    case Jr(rs) => rs != RA
    case TableJr(_, _) => false
    case Branch(_, target, _, link) => link && !Inside(f, target) && target !in f.callResolves
    case _ => true
  }

  lemma {:induction false} InstructionSucceeds(f: Func, i: nat, links: nat, cursor: nat)
    requires Fits(f) && i < |f.instrs| && LastTranslates(f)
    ensures Instruction(f, i, links, cursor).ok
    decreases |f.instrs| - i
  {
    if i + 1 < |f.instrs| {
      InstructionSucceeds(f, i + 1, links, SlotCursor(f, cursor, AddrAt(f, i + 1)));
    }
  }

  lemma {:induction false} AllSucceed(f: Func, n: nat)
    requires Fits(f) && n <= |f.instrs| && (n > 0 ==> LastTranslates(f))
    ensures TranslatesUpTo(f, n)
    decreases n
  {
    hide WalkAt;
    if n > 0 {
      AllSucceed(f, n - 1);
      InstructionSucceeds(f, n - 1, WalkAt(f, n - 1).links, Advance(f, WalkAt(f, n - 1).cursor, AddrAt(f, n - 1)));
    }
  }

  /** The translation of a function is refused exactly when its last word needs a
      delay slot. */
  lemma RefusedExactly(f: Func)
    requires Fits(f)
    ensures Translates(f) <==> |f.instrs| == 0 || LastTranslates(f)
  {
    hide WalkAt, Labels;
    var n := |f.instrs|;
    if n > 0 {
      if LastTranslates(f) {
        AllSucceed(f, n);
      }
    }
  }
}
