/** The main theorem of the translation: every run of the emitted code is a run of the
    guest program. The emitted code does not run on without the processor either: each of
    its steps moves the processor on or lowers a rank, so that between two instructions of
    the guest there are finitely many steps of the host, whatever it calls or returns from. */
module Liveness {
  import opened Machine
  import opened Emitted
  import opened Translator
  import opened Host
  import opened Points
  import opened WalkFacts
  import opened Edges
  import opened StepFacts
  import opened Flow
  import opened LabelFacts
  import opened Blocks
  import opened Simulation

  // ----- Where an instruction of the guest is near -----

  predicate Stops(s: Stmt) {
    s.PauseSelf? || s.UnhandledCall? || s.UnhandledBranch?
  }

  predicate Quiet(s: Stmt) {
    s.LabelHere? || s.Comment? || s.SetLink? || s.SaveAddend?
  }

  ghost predicate BusyAt(f: Func, q: Pos)
    requires Fits(f) && SlotsOk(f) && ValidLine(f, q)
  {
    Stops(LineAt(f, q).stmt) || (ValidLine(f, Follow(f, q)) && Busy(LineAt(f, q), LineAt(f, Follow(f, q)).at))
  }

  /** After at most `n` quiet statements from `q` on, the processor moves. */
  ghost predicate Calm(f: Func, q: Pos, n: nat)
    requires Fits(f) && SlotsOk(f)
    decreases n
  {
    ValidLine(f, q) && (BusyAt(f, q) || (n > 0 && Quiet(LineAt(f, q).stmt) && Calm(f, Follow(f, q), n - 1)))
  }

  lemma {:induction false} CalmLonger(f: Func, q: Pos, n: nat, m: nat)
    requires Fits(f) && SlotsOk(f) && Calm(f, q, n) && n <= m
    ensures Calm(f, q, m)
    decreases n
  {
    hide BusyAt, ValidLine, LineAt, Follow;
    if !BusyAt(f, q) {
      CalmLonger(f, Follow(f, q), n - 1, m - 1);
    }
  }

  /** Consecutive lines of one chunk. */
  lemma NextInChunk(f: Func, c: nat, k: nat)
    requires Fits(f) && SlotsOk(f) && c < |f.instrs| + 2 && k + 1 < |Lines(f, c)|
    ensures ValidLine(f, Pos(c, k)) && Follow(f, Pos(c, k)) == Pos(c, k + 1) && ValidLine(f, Pos(c, k + 1))
    ensures LineAt(f, Pos(c, k)) == Lines(f, c)[k] && LineAt(f, Pos(c, k + 1)) == Lines(f, c)[k + 1]
  {
  }

  /** At the latest at the third line of an instruction, its comment included, the
      processor moves. */
  lemma CoreIsBusy(f: Func, i: nat, links: nat) returns (j: nat)
    requires Fits(f) && SlotsOk(f) && i < |f.instrs|
    ensures j <= 2 && j < |CoreLines(f, i, links)|
    ensures forall k :: 0 <= k < j ==> Quiet(CoreLines(f, i, links)[k].stmt)
    ensures var lines := CoreLines(f, i, links);
            Stops(lines[j].stmt) || lines[j].stmt.Do? || lines[j].stmt.EntryAddress? || lines[j].stmt.If?
            || lines[j].stmt.CaptureRa?
            || (j + 1 < |lines| && (lines[j].stmt.Comment? || lines[j].stmt.SetLink?) && InSlot(lines[j + 1].at.at)
                && !InSlot(lines[j].at.at))
  {
    var lines := CoreLines(f, i, links);
    j := match f.instrs[i]
      case Plain(_) => 1
      case Jump(target) => if target == AddrAt(f, i) then 1 else 0
      case Jal(_) => 1
      case Jalr(rd, _) => if rd == 0 then 0 else 1
      case Jr(rs) => if rs == RA then 1 else 0
      case TableAddu(_, _, _) => 2
      case TableLw(_, _, _, _) => 1
      case TableJr(_, _) => 0
      case Branch(_, _, _, link) => if link then 2 else 1;
  }

  lemma InChunk<T>(s: seq<T>, x: seq<T>, k: nat, j: nat)
    requires k + |x| <= |s| && s[k..k + |x|] == x && j < |x|
    ensures s[k + j] == x[j]
  {
    assert s[k..k + |x|][j] == s[k + j];
  }

  /** A line of an instruction, in its chunk. */
  lemma CoreLineAt(f: Func, i: nat, j: nat)
    requires Fits(f) && SlotsOk(f) && i < |f.instrs| && !ChunkIsDead(f, i) && j < |CoreLines(f, i, CallsBefore(f, i))|
    ensures ValidLine(f, Pos(i + 1, CoreStart(f, i) + j))
    ensures LineAt(f, Pos(i + 1, CoreStart(f, i) + j)) == CoreLines(f, i, CallsBefore(f, i))[j]
  {
    hide InstrLines, CoreStart, CoreLines, ChunkIsDead;
    CoreSlice(f, i);
    InChunk(InstrLines(f, i), CoreLines(f, i, CallsBefore(f, i)), CoreStart(f, i), j);
  }

  lemma CoreNext(f: Func, i: nat, j: nat)
    requires Fits(f) && SlotsOk(f) && i < |f.instrs| && !ChunkIsDead(f, i)
             && j + 1 < |CoreLines(f, i, CallsBefore(f, i))|
    ensures ValidLine(f, Pos(i + 1, CoreStart(f, i) + j))
    ensures Follow(f, Pos(i + 1, CoreStart(f, i) + j)) == Pos(i + 1, CoreStart(f, i) + j + 1)
  {
    hide InstrLines, CoreStart, CoreLines, ChunkIsDead;
    CoreLineAt(f, i, j);
    CoreLineAt(f, i, j + 1);
  }

  /** The core of an instruction always goes on after a line at which the processor
      moves, but for the last line of an ordinary instruction. */
  lemma FlowsIntoText(f: Func, i: nat, j: nat)
    requires Fits(f) && SlotsOk(f) && i < |f.instrs| && !ChunkIsDead(f, i) && j < |CoreLines(f, i, CallsBefore(f, i))|
    ensures ValidLine(f, Follow(f, Pos(i + 1, CoreStart(f, i) + j)))
  {
    hide CoreStart, CoreLines, ChunkIsDead, InstrLines;
    CoreLineAt(f, i, j);
    if i + 1 < |f.instrs| {
      SomeLine(f, i + 1);
    } else {
      assert |Lines(f, i + 2)| > 0;
    }
  }

  lemma SomeLine(f: Func, i: nat)
    requires Fits(f) && SlotsOk(f) && i < |f.instrs|
    ensures |InstrLines(f, i)| > 0
  {
    hide BodyLines;
  }

  lemma {:induction false} CoreIsCalm(f: Func, i: nat, k: nat, j: nat)
    requires Fits(f) && SlotsOk(f) && i < |f.instrs| && !ChunkIsDead(f, i)
    requires k <= j <= 2 && j < |CoreLines(f, i, CallsBefore(f, i))|
    requires forall x :: 0 <= x < j ==> Quiet(CoreLines(f, i, CallsBefore(f, i))[x].stmt)
    requires BusyAt(f, Pos(i + 1, CoreStart(f, i) + j))
    requires ValidLine(f, Pos(i + 1, CoreStart(f, i) + j))
    ensures Calm(f, Pos(i + 1, CoreStart(f, i) + k), j - k)
    decreases j - k
  {
    hide BusyAt, CoreLines, CoreStart, ChunkIsDead, LineAt, ValidLine, Follow;
    CoreLineAt(f, i, k);
    if k < j {
      CoreNext(f, i, k);
      CoreIsCalm(f, i, k + 1, j);
    }
  }

  /** From its comment on, an instruction is calm. */
  lemma InstrIsCalm(f: Func, i: nat)
    requires Fits(f) && SlotsOk(f) && i < |f.instrs| && !ChunkIsDead(f, i)
    ensures Calm(f, Pos(i + 1, CoreStart(f, i)), 2)
  {
    hide CoreLines, CoreStart, ChunkIsDead, LineAt, ValidLine, Follow, Calm;
    var j := CoreIsBusy(f, i, CallsBefore(f, i));
    CoreLineAt(f, i, j);
    FlowsIntoText(f, i, j);
    if j + 1 < |CoreLines(f, i, CallsBefore(f, i))| {
      CoreNext(f, i, j);
      CoreLineAt(f, i, j + 1);
    }
    CoreIsCalm(f, i, 0, j);
    CalmLonger(f, Pos(i + 1, CoreStart(f, i)), j, 2);
  }

  /** An address label within an instruction's chunk comes just before the instruction. */
  lemma MarkBeforeCore(f: Func, slack: Slack, i: nat, k: nat, x: Addr)
    requires BodyOk(f, slack) && SlotsOk(f) && i < |f.instrs| && k < |InstrLines(f, i)|
             && LiveLine(f, i, k).stmt == LabelHere(Loc(x))
    ensures k + 1 == CoreStart(f, i)
  {
    hide BodyLines;
    var n, part := CallsBefore(f, i), PartOf(f, i, k);
    if part.InCore? {
      CoreBody(f, slack, i, n);
      BodyOnlyAt(f, i, n, CoreLines(f, i, n), part.at);
    }
  }

  /** From the label of an address on, the text is calm. */
  lemma LabelIsCalm(p: Program, f: Func, q: Pos, x: Addr)
    requires Sound(p, f) && ValidLine(f, q) && LineAt(f, q).stmt == LabelHere(Loc(x))
    ensures Calm(f, q, 3)
  {
    hide InstrLines, PrologueLines, EpilogueLines, CoreStart, CoreLines, LiveLine, TextOk, CodeOk, BodyOk, EndSafe,
         BusyAt, ChunkIsDead;
    if 0 < q.chunk <= |f.instrs| {
      var i := q.chunk - 1;
      LiveLineIs(f, i, q.line);
      MarkBeforeCore(f, p.slack, i, q.line, x);
      NotDead(p, f, q, x);
      CoreHasLines(f, i);
      CoreLineAt(f, i, 0);
      NextInChunk(f, q.chunk, q.line);
      InstrIsCalm(f, i);
    } else {
      OuterLabel(f, q, Loc(x));
      FirstInstr(p, f, q);
      InstrIsCalm(f, 0);
    }
  }

  lemma CoreHasLines(f: Func, i: nat)
    requires Fits(f) && SlotsOk(f) && i < |f.instrs|
    ensures |CoreLines(f, i, CallsBefore(f, i))| > 0
  {
  }

  lemma NotDead(p: Program, f: Func, q: Pos, x: Addr)
    requires Sound(p, f) && ValidLine(f, q) && LineAt(f, q).stmt == LabelHere(Loc(x)) && 0 < q.chunk <= |f.instrs|
    ensures !ChunkIsDead(f, q.chunk - 1)
  {
    hide InstrLines, TextOk, CodeOk, Emits;
    LabelLinePoint(f, p.slack, q, Loc(x));
    if ChunkIsDead(f, q.chunk - 1) {
      DeadEmitsNothing(f, Loc(x));
    }
  }

  /** The label at the start of a function is followed by its first instruction. */
  lemma FirstInstr(p: Program, f: Func, q: Pos)
    requires Sound(p, f) && ValidLine(f, q) && q.chunk == 0 && LineAt(f, q).stmt == LabelHere(Loc(f.vram))
    ensures |f.instrs| > 0 && CoreStart(f, 0) == 0 && Follow(f, q) == Pos(1, 0) && !ChunkIsDead(f, 0)
  {
    hide InstrLines, TextOk, CodeOk, BodyLines, Labels;
    StartIsNoLabel(f);
  }

  lemma StartIsNoLabel(f: Func)
    requires Fits(f)
    ensures f.vram !in Labels(f)
  {
  }

  // ----- Calls come right after a delay slot -----

  ghost predicate CallsAfterDo(lines: seq<Line>) {
    forall j :: 0 <= j < |lines| && lines[j].stmt.Call? ==> j > 0 && lines[j - 1].stmt.Do?
  }

  lemma CallsConcat(x: seq<Line>, y: seq<Line>)
    requires CallsAfterDo(x) && CallsAfterDo(y)
    ensures CallsAfterDo(x + y)
  {
    forall j | 0 <= j < |x + y| && (x + y)[j].stmt.Call?
      ensures j > 0 && (x + y)[j - 1].stmt.Do?
    {
      if j >= |x| {
        assert (x + y)[j] == y[j - |x|] && (x + y)[j - 1] == y[j - |x| - 1];
      }
    }
  }

  lemma CallLinesOk(f: Func, i: nat, links: nat, dest: Dest)
    requires Fits(f) && i < |f.instrs| && HasSlot(f, i)
    ensures CallsAfterDo(CallLines(f, i, links, dest))
  {
  }

  lemma TreeLinesOk(f: Func, i: nat, target: Addr)
    requires Fits(f) && i < |f.instrs| && HasSlot(f, i)
    ensures CallsAfterDo(TreeLines(f, i, target))
  {
  }

  lemma BranchLinesOk(f: Func, i: nat, links: nat)
    requires Fits(f) && i < |f.instrs| && f.instrs[i].Branch? && HasSlot(f, i)
    ensures CallsAfterDo(BranchLines(f, i, links))
  {
    hide CallLines, TreeLines;
    var a, b := AddrAt(f, i), f.instrs[i];
    var inner := if b.link && !Inside(f, b.target) then CallLines(f, i, links, Const(b.target))
      else TreeLines(f, i, b.target);
    CallLinesOk(f, i, links, Const(b.target));
    TreeLinesOk(f, i, b.target);
    CallsConcat(inner, [Line(EndIf, BodyExit(f, i))]);
    var block := BlockLines(f, i, links);
    if b.link {
      CallsConcat([Line(If(b.cond), Point(Linked(a), None))], block);
      CallsConcat([Line(SetLink(RA, a + 8), Seq(a))], [Line(If(b.cond), Point(Linked(a), None))] + block);
    } else {
      CallsConcat([Line(If(b.cond), Seq(a))], block);
    }
  }

  lemma JalLinesOk(f: Func, i: nat, links: nat, target: Addr)
    requires Fits(f) && i < |f.instrs| && HasSlot(f, i) && f.instrs[i] == Jal(target)
    ensures CallsAfterDo(BodyLines(f, i, links))
  {
    hide CallsAfterDo, CallLines, SlotLines;
    var a := AddrAt(f, i);
    var link := [Line(SetLink(RA, a + 8), Seq(a))];
    OneOk(link[0]);
    if Inside(f, target) {
      var slot, turn := SlotLines(f, i, Point(Slot(a + 4, Const(target)), None)), Line(Goto(Loc(target)), Seq(target));
      SlotHasNoCall(f, i, Point(Slot(a + 4, Const(target)), None));
      OneOk(turn);
      CallsConcat(slot, [turn]);
      CallsConcat(link, slot + [turn]);
    } else {
      CallLinesOk(f, i, links, Const(target));
      CallsConcat(link, CallLines(f, i, links, Const(target)));
    }
  }

  lemma OneOk(line: Line)
    requires !line.stmt.Call?
    ensures CallsAfterDo([line])
  {
  }

  lemma TailcallLinesOk(f: Func, i: nat, rs: Reg)
    requires Fits(f) && i < |f.instrs| && HasSlot(f, i)
    ensures CallsAfterDo(TailcallLines(f, i, rs))
  {
  }

  lemma JalrLinesOk(f: Func, i: nat, links: nat, rd: Reg, rs: Reg)
    requires Fits(f) && i < |f.instrs| && HasSlot(f, i) && f.instrs[i] == Jalr(rd, rs)
    ensures CallsAfterDo(BodyLines(f, i, links))
  {
    hide CallsAfterDo, CallLines, TailcallLines;
    var link := Line(SetLink(rd, AddrAt(f, i) + 8), Seq(AddrAt(f, i)));
    var rest := if rd == RA then CallLines(f, i, links, FromReg(rs)) else TailcallLines(f, i, rs);
    OneOk(link);
    CallLinesOk(f, i, links, FromReg(rs));
    TailcallLinesOk(f, i, rs);
    CallsConcat([link], rest);
    assert [] + rest == rest;
  }

  lemma RaLinesOk(f: Func, i: nat)
    requires Fits(f) && i < |f.instrs| && HasSlot(f, i)
    ensures CallsAfterDo(JumpToRaLines(f, i))
  {
    hide Labels;
  }

  lemma BodyCallsAfterDo(f: Func, i: nat, links: nat)
    requires Fits(f) && i < |f.instrs| && (IsControl(f.instrs[i]) ==> HasSlot(f, i))
    ensures CallsAfterDo(BodyLines(f, i, links))
  {
    hide CallsAfterDo, BranchLines, CallLines, TreeLines, SlotLines, JumpToRaLines, TailcallLines;
    var a := AddrAt(f, i);
    match f.instrs[i] {
      case Branch(_, _, _, _) => BranchLinesOk(f, i, links);
      case Jal(target) => JalLinesOk(f, i, links, target);
      case Jalr(rd, rs) => JalrLinesOk(f, i, links, rd, rs);
      case Jump(target) =>
        TreeLinesOk(f, i, target);
        OneOk(Line(PauseSelf, Seq(a)));
      case Jr(rs) =>
        RaLinesOk(f, i);
        TailcallLinesOk(f, i, rs);
      case TableJr(_, entries) =>
        SlotHasNoCall(f, i, Point(Tabled(a + 4, a), None));
        OneOk(Line(Switch(a, entries), Point(Chosen(a, entries), None)));
        CallsConcat(SlotLines(f, i, Point(Tabled(a + 4, a), None)),
                    [Line(Switch(a, entries), Point(Chosen(a, entries), None))]);
      case _ => OrdinaryOk(f.instrs[i], RelocLookup(f, a), Seq(a));
    }
  }

  lemma OrdinaryOk(instr: Instr, reloc: Option<Reloc>, at: Point)
    requires !IsControl(instr)
    ensures CallsAfterDo(OrdinaryLines(instr, reloc, at))
  {
  }

  lemma CoreCallsAfterDo(f: Func, i: nat, links: nat)
    requires Fits(f) && SlotsOk(f) && i < |f.instrs|
    ensures CallsAfterDo(CoreLines(f, i, links))
  {
    hide CallsAfterDo, BodyLines;
    var comment := Line(Comment(AddrAt(f, i)), Seq(AddrAt(f, i)));
    OneOk(comment);
    BodyCallsAfterDo(f, i, links);
    CallsConcat([comment], BodyLines(f, i, links));
  }

  lemma SlotHasNoCall(f: Func, i: nat, at: Point)
    requires Fits(f) && i < |f.instrs| && HasSlot(f, i)
    ensures CallsAfterDo(SlotLines(f, i, at))
  {
  }

  /** A call is never at the start of a chunk, and follows a delay slot. */
  lemma CallFollowsDo(f: Func, q: Pos)
    requires Fits(f) && SlotsOk(f) && ValidLine(f, q) && LineAt(f, q).stmt.Call?
    ensures q.line > 0 && LineAt(f, Pos(q.chunk, q.line - 1)).stmt.Do?
  {
    hide CoreLines, PartOf, LiveLine, InstrLines;
    if 0 < q.chunk <= |f.instrs| {
      var i := q.chunk - 1;
      LiveLineIs(f, i, q.line);
      CallIsCore(f, i, q.line);
      CoreCallsAfterDo(f, i, CallsBefore(f, i));
      BeforeInCore(f, i, q.line);
    }
  }

  lemma BeforeInCore(f: Func, i: nat, k: nat)
    requires Fits(f) && SlotsOk(f) && i < |f.instrs| && k < |InstrLines(f, i)| && PartOf(f, i, k).InCore?
             && PartOf(f, i, k).at > 0
    ensures k > 0 && InstrLines(f, i)[k - 1].stmt == CoreLines(f, i, CallsBefore(f, i))[PartOf(f, i, k).at - 1].stmt
  {
    hide CoreLines, InstrLines, GotoLines, MarkLines, TrailLines, CallsBefore;
    PartBefore(f, i, k);
    LiveLineIs(f, i, k - 1);
  }

  lemma PartBefore(f: Func, i: nat, k: nat)
    requires Fits(f) && SlotsOk(f) && i < |f.instrs| && k < |InstrLines(f, i)| && PartOf(f, i, k).InCore?
             && PartOf(f, i, k).at > 0
    ensures k > 0 && PartOf(f, i, k - 1) == InCore(PartOf(f, i, k).at - 1)
  {
    hide CoreLines, InstrLines, GotoLines, MarkLines, TrailLines, CallsBefore;
  }

  // ----- The rank -----

  /** How far the host is from where the processor must move: the phase, the number of
      calls in progress, and the text still ahead. */
  datatype Rank = Rank(phase: nat, depth: nat, chunks: nat, lines: nat)

  predicate Lower(a: Rank, b: Rank) {
    a.phase < b.phase || (a.phase == b.phase &&
      (a.depth < b.depth || (a.depth == b.depth
                             && (a.chunks < b.chunks || (a.chunks == b.chunks && a.lines < b.lines)))))
  }

  /** 2 at a call, 0 where an instruction of the guest is near, 1 in between. */
  ghost function Phase(f: Func, q: Pos): nat
    requires Fits(f) && SlotsOk(f) && ValidLine(f, q)
  {
    if LineAt(f, q).stmt.Call? then 2 else if Calm(f, q, 3) then 0 else 1
  }

  ghost function RankOf(p: Program, h: HostState): Rank {
    match h.at
    case Running(fn, pos, _) =>
      if fn < |p.funcs| && Fits(p.funcs[fn]) && SlotsOk(p.funcs[fn])
        && ValidLine(p.funcs[fn], pos) then TextRank(p.funcs[fn], pos, |h.stack|)
      else Rank(0, 0, 0, 0)
    case Returned => Rank(1, |h.stack|, 0, if h.pending then 1 else 0)
    case Halted => Rank(0, 0, 0, 0)
  }

  ghost function TextRank(f: Func, q: Pos, depth: nat): Rank
    requires Fits(f) && SlotsOk(f) && ValidLine(f, q)
  {
    Rank(Phase(f, q), depth, |f.instrs| + 2 - q.chunk, |Lines(f, q.chunk)| - q.line)
  }

  /** Going on to the next line without the processor moving. */
  lemma FollowLowers(f: Func, q: Pos, depth: nat)
    requires Fits(f) && SlotsOk(f) && ValidLine(f, q) && ValidLine(f, Follow(f, q))
    requires !LineAt(f, q).stmt.Call? && !BusyAt(f, q)
    ensures Lower(TextRank(f, Follow(f, q), depth), TextRank(f, q, depth))
  {
    hide Calm, BusyAt, Lines;
    if LineAt(f, Follow(f, q)).stmt.Call? {
      CallFollowsDo(f, Follow(f, q));
      assert Busy(LineAt(f, q), LineAt(f, Follow(f, q)).at);
      BusyIs(f, q);
    }
    if Calm(f, q, 3) {
      CalmGoesOn(f, q);
    }
  }

  lemma BusyIs(f: Func, q: Pos)
    requires Fits(f) && SlotsOk(f) && ValidLine(f, q) && ValidLine(f, Follow(f, q))
             && Busy(LineAt(f, q), LineAt(f, Follow(f, q)).at)
    ensures BusyAt(f, q)
  {
  }

  lemma CalmGoesOn(f: Func, q: Pos)
    requires Fits(f) && SlotsOk(f) && ValidLine(f, q) && !BusyAt(f, q) && Calm(f, q, 3)
    ensures Quiet(LineAt(f, q).stmt) && Calm(f, Follow(f, q), 3)
  {
    CalmLonger(f, Follow(f, q), 2, 3);
  }

  /** Statements that pass control elsewhere than to the next line, without a call. */
  predicate Turns(s: Stmt) {
    !Stops(s) && !Quiet(s) && !s.Do? && !s.EntryAddress? && !s.If? && !s.CaptureRa? && !s.Call?
  }

  lemma TurnsInBetween(f: Func, q: Pos)
    requires Fits(f) && SlotsOk(f) && ValidLine(f, q) && Turns(LineAt(f, q).stmt)
    ensures !BusyAt(f, q) && Phase(f, q) == 1
  {
  }

  /** A jump to the label of an address. */
  lemma AddressLowers(p: Program, f: Func, q: Pos, r: Pos, x: Addr, depth: nat)
    requires Sound(p, f) && ValidLine(f, q) && ValidLine(f, r)
    requires Turns(LineAt(f, q).stmt) && LineAt(f, r).stmt == LabelHere(Loc(x))
    ensures Lower(TextRank(f, r, depth), TextRank(f, q, depth))
  {
    hide Lines, Calm, BusyAt, LineAt, ValidLine, BodyOk, CodeOk, TextOk, EndSafe;
    TurnsInBetween(f, q);
    LabelIsCalm(p, f, r, x);
  }

  lemma GotoLowers(p: Program, f: Func, q: Pos, r: Pos, l: Label, depth: nat)
    requires Sound(p, f) && ValidLine(f, q) && ValidLine(f, r)
    requires LineAt(f, q).stmt == Goto(l) && LineAt(f, r).stmt == LabelHere(l)
    ensures Lower(TextRank(f, r, depth), TextRank(f, q, depth))
  {
    hide Calm, BusyAt, BodyOk, CodeOk, TextOk, EndSafe, InstrLines, LiveLine, PrologueLines, EpilogueLines, Emits;
    if l.Loc? {
      AddressLowers(p, f, q, r, l.addr, depth);
    } else {
      TurnsInBetween(f, q);
      if !(0 < q.chunk <= |f.instrs|) {
        OuterGoto(f, q, l);
      }
      LiveLineIs(f, q.chunk - 1, q.line);
      var c := NumberedGoto(f, p.slack, q.chunk - 1, q.line, l);
      LabelLinePoint(f, p.slack, r, l);
      OnlyOneEmits(f, c, r.chunk, l);
      assert r.chunk == q.chunk ==> r.line != q.line;
    }
  }

  /** The function at the top of which a call arrives. */
  lemma TopIsNoCall(f: Func)
    requires Fits(f) && SlotsOk(f) && ValidLine(f, Pos(0, 0))
    ensures Phase(f, Pos(0, 0)) <= 1
  {
    hide Calm;
  }

  // ----- Steps -----

  /** At least one instruction of the guest. */
  ghost predicate Advances(image: Image, m: Cpu, m': Cpu) {
    exists n: nat :: n > 0 && Reaches(image, m, n, m')
  }

  lemma StepAdvances(image: Image, m: Cpu, m': Cpu)
    requires Machine.Step(image, m) == Some(m')
    ensures Advances(image, m, m')
  {
    assert Reaches(image, m', 0, m');
    assert Reaches(image, m, 1, m');
  }

  lemma RunningRank(p: Program, h: HostState)
    requires h.at.Running? && h.at.fn < |p.funcs| && Fits(p.funcs[h.at.fn]) && SlotsOk(p.funcs[h.at.fn])
             && ValidLine(p.funcs[h.at.fn], h.at.pos)
    ensures RankOf(p, h) == TextRank(p.funcs[h.at.fn], h.at.pos, |h.stack|)
  {
  }

  lemma LeaveLowers(p: Program, h: HostState, h': HostState, f: Func, q: Pos)
    requires Fits(f) && SlotsOk(f) && ValidLine(f, q) && Turns(LineAt(f, q).stmt) && |h'.stack| == |h.stack|
    ensures Lower(RankOf(p, Leave(h')), TextRank(f, q, |h.stack|))
  {
    hide Calm, BusyAt, LineAt, Lines;
    TurnsInBetween(f, q);
  }

  /** A host that runs stands at a line of a sound function. */
  lemma RunsSound(p: Program, outer: Addr, h: HostState, m: Cpu)
    requires Matches(p, outer, h, m) && h.at.Running?
    ensures h.at.fn < |p.funcs| && Sound(p, p.funcs[h.at.fn]) && ValidLine(p.funcs[h.at.fn], h.at.pos)
    ensures RankOf(p, h) == TextRank(p.funcs[h.at.fn], h.at.pos, |h.stack|)
  {
    hide StackOk, Holds, TextRank, LineAt, ValidLine;
  }

  /** Statements that jump within the function. */
  predicate Jumps(s: Stmt, h: HostState)
    requires h.at.Running?
  {
    s.Goto? || s.Switch? || (s.DispatchRa? && h.at.vars.captured in s.labels) || (s.EnterSwitch? && h.start != 0)
  }

  lemma JumpLowers(p: Program, f: Func, pos: Pos, next: Pos, skip: Pos, h: HostState, h': HostState)
    requires h.at.Running? && h.at.fn < |p.funcs| && f == p.funcs[h.at.fn] && pos == h.at.pos && Sound(p, f)
             && ValidLine(f, pos)
    requires HasFunction(p, h.at.fn) && Jumps(LineAt(f, pos).stmt, h)
             && StmtStep(p, h.at.fn, LineAt(f, pos).stmt, next, skip, h, h')
    ensures Lower(RankOf(p, h'), RankOf(p, h))
  {
    hide LineAt, ValidLine, BodyOk, CodeOk, TextOk, EndSafe, SlotsOk, JumpsTo, HasFunction, Follow, RankOf,
         EntersCallee, Rebased;
    match LineAt(f, pos).stmt {
      case Goto(l) => GotoLands(p, h, h', f, pos, l);
      case DispatchRa(_) => LandingLowers(p, h, h, h', f, pos, h.at.vars.captured);
      case Switch(jr, entries) => LandingLowers(p, h, h, h', f, pos, entries[h.at.vars.addends[jr] / 4]);
      case EnterSwitch(_) => LandingLowers(p, h, h.(start := 0), h', f, pos, h.start);
    }
  }

  /** Any other statement but a call or a test passes control on, or leaves the function. */
  lemma PassesOn(p: Program, fn: nat, stmt: Stmt, next: Pos, skip: Pos, h: HostState,
                 h': HostState) returns (x: HostState)
    requires h.at.Running? && HasFunction(p, fn) && StmtStep(p, fn, stmt, next, skip, h, h')
    requires !Jumps(stmt, h) && !stmt.Call? && !stmt.If?
    ensures x.stack == h.stack
    ensures if h'.at.Running? then h'.at.fn == fn && h'.at.pos == next && h'.stack == h.stack
            else h' == Leave(x) && Turns(stmt)
  {
    hide JumpsTo, HasFunction, Rebased;
    x := if stmt.TailcallUnlessHome? then h.(pending := true, target := h.at.vars.captured) else h;
  }

  lemma InText(f: Func, q: Pos)
    requires Fits(f) && SlotsOk(f) && ValidLine(f, q)
    ensures q.chunk < |f.instrs| + 2
  {
  }

  /** Where a step that is no call and does not move the processor leads. */
  lemma QuietLowers(p: Program, outer: Addr, h: HostState, h': HostState, f: Func, pos: Pos, line: Line, m: Cpu,
                    m': Cpu)
    requires ProgramOk(p) && AtLine(p, outer, h, m, f, pos, line) && RunStep(p, h, h') && Matches(p, outer, h', m')
    requires !BusyAt(f, pos) && !line.stmt.Call?
    ensures Lower(RankOf(p, h'), RankOf(p, h))
  {
    hide LineAt, ValidLine, StackOk, RunStep, ProgramOk, BodyOk, CodeOk, TextOk, EndSafe, SlotsOk, JumpsTo, HasFunction,
         Follow, BusyAt, Holds, TextRank, RankOf, Matches, StmtStep, Lower, Turns, Lines, BlockEnd;
    RunsLine(p, outer, h, h', m, f, pos, line);
    RunsSound(p, outer, h, m);
    InText(f, pos);
    var skip := Pos(pos.chunk, BlockEnd(Stmts(Lines(f, pos.chunk)), pos.line + 1, 0));
    if Jumps(line.stmt, h) {
      JumpLowers(p, f, pos, Follow(f, pos), skip, h, h');
    } else if line.stmt.If? {
      FlowsOn(p, f, pos);
      TestIsBusy(f, pos);
    } else {
      var x := PassesOn(p, h.at.fn, line.stmt, Follow(f, pos), skip, h, h');
      if h'.at.Running? {
        RunsSound(p, outer, h', m');
        FollowLowers(f, pos, |h.stack|);
      } else {
        LeaveLowers(p, h, x, f, pos);
      }
    }
  }

  lemma GotoLands(p: Program, h: HostState, h': HostState, f: Func, pos: Pos, l: Label)
    requires h.at.Running? && h.at.fn < |p.funcs| && f == p.funcs[h.at.fn] && pos == h.at.pos && Sound(p, f)
             && ValidLine(f, pos)
    requires HasFunction(p, h.at.fn) && LineAt(f, pos).stmt == Goto(l) && JumpsTo(p, h.at.fn, l, h.at.vars, h, h')
    ensures Lower(RankOf(p, h'), RankOf(p, h))
  {
    hide LineAt, ValidLine, BodyOk, CodeOk, EndSafe, TextOk, JumpsTo, HasFunction, Follow, Calm, BusyAt, TextRank;
    var q := Landed(p, h.at.fn, l, h.at.vars, h, h');
    RunningRank(p, h);
    RunningRank(p, h');
    GotoLowers(p, f, pos, q, l, |h.stack|);
  }

  lemma LandingLowers(p: Program, h: HostState, h1: HostState, h': HostState, f: Func, pos: Pos, x: Addr)
    requires h.at.Running? && h.at.fn < |p.funcs| && f == p.funcs[h.at.fn] && pos == h.at.pos && Sound(p, f)
             && ValidLine(f, pos)
    requires HasFunction(p, h.at.fn) && Turns(LineAt(f, pos).stmt) && h1.stack == h.stack
             && JumpsTo(p, h.at.fn, Loc(x), h.at.vars, h1, h')
    ensures Lower(RankOf(p, h'), RankOf(p, h))
  {
    hide LineAt, ValidLine, BodyOk, CodeOk, EndSafe, TextOk, JumpsTo, HasFunction, Follow, Calm, BusyAt, TextRank;
    var q := Landed(p, h.at.fn, Loc(x), h.at.vars, h1, h');
    RunningRank(p, h);
    RunningRank(p, h');
    AddressLowers(p, f, pos, q, x, |h.stack|);
  }

  lemma TestIsBusy(f: Func, q: Pos)
    requires Fits(f) && SlotsOk(f) && ValidLine(f, q) && LineAt(f, q).stmt.If? && ValidLine(f, Follow(f, q))
    ensures BusyAt(f, q)
  {
  }

  /** A call: the callee starts outside a call. */
  lemma CallLowers(p: Program, outer: Addr, h: HostState, h': HostState, f: Func, pos: Pos, line: Line, m: Cpu, m': Cpu)
    requires ProgramOk(p) && AtLine(p, outer, h, m, f, pos, line) && RunStep(p, h, h') && Matches(p, outer, h', m')
    requires line.stmt.Call?
    ensures Lower(RankOf(p, h'), RankOf(p, h))
  {
    hide LineAt, ValidLine, StackOk, RunStep, ProgramOk, BodyOk, CodeOk, EndSafe, TextOk, HasFunction, Follow, Calm,
         Holds, Same, Lines;
    RunsLine(p, outer, h, h', m, f, pos, line);
    RunningRank(p, h);
    RunningRank(p, h');
    TopIsNoCall(p.funcs[h'.at.fn]);
  }

  /** A call is not followed by a call. */
  lemma AfterCallNoCall(f: Func, q: Pos)
    requires Fits(f) && SlotsOk(f) && ValidLine(f, q) && LineAt(f, q).stmt.Call? && ValidLine(f, Follow(f, q))
    ensures !LineAt(f, Follow(f, q)).stmt.Call?
  {
    hide Lines;
    if LineAt(f, Follow(f, q)).stmt.Call? {
      CallFollowsDo(f, Follow(f, q));
    }
  }

  /** Where a call that comes back goes on, if it does so in its caller. */
  lemma ReturnsToNoCall(p: Program, outer: Addr, h: HostState, h': HostState, m: Cpu, m': Cpu)
    requires Matches(p, outer, h, m) && h.at.Returned? && ReturnStep(p, h, h') && Matches(p, outer, h', m')
             && h'.at.Running?
    ensures |h'.stack| == |h.stack| - 1 && !LineAt(p.funcs[h'.at.fn], h'.at.pos).stmt.Call?
  {
    hide BodyOk, CodeOk, EndSafe, LineAt, ValidLine, Follow, JumpsTo, Translation, Same, Calm, Lines, Holds,
         HasFunction, Arrived, BackIsReturn;
    var top := Last(h.stack);
    var f := p.funcs[top.fn];
    TextLine(f, top.pos);
    var call := At(TextOf(p, top.fn), top.pos);
    var popped := h.(home := top.prev, stack := h.stack[..|h.stack| - 1]);
    var resumed := popped.(pending := false, target := 0);
    if !h.pending {
      AfterCallNoCall(f, top.pos);
    } else if JumpsTo(p, top.fn, Loc(h.target), top.vars, resumed, h') {
      var q := Landed(p, top.fn, Loc(h.target), top.vars, resumed, h');
    }
  }

  lemma InBetween(f: Func, q: Pos, depth: nat)
    requires Fits(f) && SlotsOk(f) && ValidLine(f, q) && !LineAt(f, q).stmt.Call?
    ensures TextRank(f, q, depth).phase <= 1 && TextRank(f, q, depth).depth == depth
  {
  }

  /** A call that comes back. */
  lemma ReturnLowers(p: Program, outer: Addr, h: HostState, h': HostState, m: Cpu, m': Cpu)
    requires Matches(p, outer, h, m) && h.at.Returned? && ReturnStep(p, h, h') && Matches(p, outer, h', m')
    ensures Lower(RankOf(p, h'), RankOf(p, h))
  {
    hide BodyOk, CodeOk, EndSafe, TextOk, LineAt, ValidLine, Follow, Translation, Same, Calm, Lines, Holds, TextRank,
         TextOf, At, HasFunction, FrameOk, Arrived;
    if h'.at.Running? {
      RunningRank(p, h');
      ReturnsToNoCall(p, outer, h, h', m, m');
      InBetween(p.funcs[h'.at.fn], h'.at.pos, |h'.stack|);
    }
  }

  /** Each step of the host moves the processor on or lowers the rank. */
  lemma StepMovesOrLowers(p: Program, outer: Addr, h: HostState, h': HostState, m: Cpu) returns (m': Cpu)
    requires ProgramOk(p) && Matches(p, outer, h, m) && Host.Steps(p, h, h')
    ensures Leads(p.image, m, m') && Matches(p, outer, h', m')
    ensures Advances(p.image, m, m') || Lower(RankOf(p, h'), RankOf(p, h))
  {
    hide BodyOk, CodeOk, EndSafe, TextOk, ProgramOk, LineAt, ValidLine, StackOk, RunStep, ReturnStep, Leads, Follow,
         Advances, Lower, RankOf, BusyAt, Holds;
    if h.at.Returned? {
      m' := SimulateReturned(p, outer, h, h', m);
      ReturnLowers(p, outer, h, h', m, m');
    } else {
      var f, pos := p.funcs[h.at.fn], h.at.pos;
      var line := LineAt(f, pos);
      AtItsLine(p, outer, h, m);
      if line.stmt.Call? {
        m' := SimulateRunning(p, outer, h, h', m);
        CallLowers(p, outer, h, h', f, pos, line, m, m');
      } else if !BusyAt(f, pos) {
        m' := SimulateRunning(p, outer, h, h', m);
        QuietLowers(p, outer, h, h', f, pos, line, m, m');
      } else {
        m' := BusyAdvances(p, outer, h, h', f, pos, line, m);
      }
    }
  }

  lemma BusyAdvances(p: Program, outer: Addr, h: HostState, h': HostState, f: Func, pos: Pos, line: Line,
                     m: Cpu) returns (m': Cpu)
    requires ProgramOk(p) && AtLine(p, outer, h, m, f, pos, line) && RunStep(p, h, h') && BusyAt(f, pos)
    ensures Leads(p.image, m, m') && Matches(p, outer, h', m') && Advances(p.image, m, m')
  {
    hide BodyOk, CodeOk, EndSafe, TextOk, ProgramOk, LineAt, ValidLine, StackOk, RunStep, Leads, Follow, Advances,
         Holds;
    if line.stmt.If? {
      m' := SimulateIf(p, outer, h, h', f, pos, line, m);
      StepAdvances(p.image, m, m');
    } else if Straight(line.stmt) {
      m' := SimulateStraight(p, outer, h, h', f, pos, line, m);
      StepAdvances(p.image, m, m');
    } else {
      RunsLine(p, outer, h, h', m, f, pos, line);
      m' := m;
    }
  }

  // ----- Runs -----

  /** The processor states of a run: each matches its host state and leads to the next,
      and each step moves the processor or lowers the rank. */
  ghost predicate Follows(p: Program, outer: Addr, run: seq<HostState>, guest: seq<Cpu>) {
    && |guest| == |run|
    && (forall k :: 0 <= k < |run| ==> Matches(p, outer, run[k], guest[k]))
    && (forall k :: 0 <= k < |run| - 1 ==> Leads(p.image, guest[k], guest[k + 1]))
    && (forall k :: 0 <= k < |run| - 1 ==>
          Advances(p.image, guest[k], guest[k + 1]) || Lower(RankOf(p, run[k + 1]), RankOf(p, run[k])))
  }

  /** Every run of the emitted code, from any matching start, is a run of the guest, and
      one that never stays where it is for good: the rank cannot fall forever. */
  lemma {:induction false} EveryRunIsAGuestRun(p: Program, outer: Addr, run: seq<HostState>,
                                               m: Cpu) returns (guest: seq<Cpu>)
    requires ProgramOk(p) && IsRun(p, run) && Matches(p, outer, run[0], m)
    ensures Follows(p, outer, run, guest) && guest[0] == m
    decreases |run|
  {
    hide ProgramOk, Matches, Host.Steps, Leads, Advances, Lower, RankOf;
    if |run| == 1 {
      guest := [m];
    } else {
      var n := |run| - 1;
      assert IsRun(p, run[..n]) by {
        forall k | 0 <= k < n - 1
          ensures Host.Steps(p, run[..n][k], run[..n][k + 1])
        {
          assert Host.Steps(p, run[k], run[k + 1]);
        }
      }
      var before := EveryRunIsAGuestRun(p, outer, run[..n], m);
      assert run[..n][n - 1] == run[n - 1] && Host.Steps(p, run[n - 1], run[n - 1 + 1]);
      var m' := StepMovesOrLowers(p, outer, run[n - 1], run[n], before[n - 1]);
      guest := before + [m'];
      assert forall k :: 0 <= k < n ==> run[..n][k] == run[k] && guest[k] == before[k];
    }
  }

  // ----- Endless runs -----

  ghost predicate IsEndless(p: Program, run: nat -> HostState) {
    forall i: nat :: Host.Steps(p, run(i), run(i + 1))
  }

  /** What a step of the host does to the processor. */
  ghost predicate GoesWith(p: Program, outer: Addr, h: HostState, h': HostState, m: Cpu, m': Cpu) {
    && Leads(p.image, m, m') && Matches(p, outer, h', m')
    && (Advances(p.image, m, m') || Lower(RankOf(p, h'), RankOf(p, h)))
  }

  /** The processor alongside step `n` of an endless run that begins at `m`. */
  ghost function GuestAt(p: Program, outer: Addr, run: nat -> HostState, m: Cpu, n: nat): (r: Cpu)
    requires ProgramOk(p) && IsEndless(p, run) && Matches(p, outer, run(0), m)
    ensures Matches(p, outer, run(n), r)
  {
    if n == 0 then m
    else
      var before := GuestAt(p, outer, run, m, n - 1);
      GoesOn(p, outer, run(n - 1), run(n - 1 + 1), before);
      var r: Cpu :| GoesWith(p, outer, run(n - 1), run(n - 1 + 1), before, r);
      r
  }

  lemma GoesOn(p: Program, outer: Addr, h: HostState, h': HostState, m: Cpu)
    requires ProgramOk(p) && Matches(p, outer, h, m) && Host.Steps(p, h, h')
    ensures exists m': Cpu :: GoesWith(p, outer, h, h', m, m')
  {
    hide ProgramOk, Matches, Host.Steps, Leads, Advances, Lower, RankOf;
    var m' := StepMovesOrLowers(p, outer, h, h', m);
    assert GoesWith(p, outer, h, h', m, m');
  }

  /** Every endless run of the emitted code, from any matching start, is an endless run of
      the guest: the states match all along, and after every step `n` there is another
      step that moves the processor. */
  lemma {:induction false} EndlessRunMoves(p: Program, outer: Addr, run: nat -> HostState, m: Cpu,
                                           n: nat) returns (k: nat)
    requires ProgramOk(p) && IsEndless(p, run) && Matches(p, outer, run(0), m)
    ensures Matches(p, outer, run(n), GuestAt(p, outer, run, m, n))
    ensures Leads(p.image, GuestAt(p, outer, run, m, n), GuestAt(p, outer, run, m, n + 1))
    ensures k >= n && Advances(p.image, GuestAt(p, outer, run, m, k), GuestAt(p, outer, run, m, k + 1))
    decreases RankOf(p, run(n)).phase, RankOf(p, run(n)).depth, RankOf(p, run(n)).chunks, RankOf(p, run(n)).lines
  {
    hide ProgramOk, Matches, Host.Steps, Leads, Advances, RankOf;
    assert GoesWith(p, outer, run(n), run(n + 1), GuestAt(p, outer, run, m, n), GuestAt(p, outer, run, m, n + 1)) by {
      GoesOn(p, outer, run(n + 1 - 1), run(n + 1 - 1 + 1), GuestAt(p, outer, run, m, n + 1 - 1));
    }
    if Advances(p.image, GuestAt(p, outer, run, m, n), GuestAt(p, outer, run, m, n + 1)) {
      k := n;
    } else {
      k := EndlessRunMoves(p, outer, run, m, n + 1);
    }
  }
}
