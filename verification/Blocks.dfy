/** Labels and blocks as control flow: a goto lands at its own guest point, and an
    untaken branch lands where the processor goes. */
module Blocks {
  import opened Machine
  import opened Emitted
  import opened Translator
  import opened Host
  import opened Points
  import opened WalkFacts
  import opened Edges
  import opened Flow
  import opened LabelFacts

  // ----- Lines of an instruction -----

  /** Which part of an instruction's chunk line `k` belongs to. */
  datatype Part = InGoto | InMark | InCore(at: nat) | InTrail(at: nat)

  ghost function PartOf(f: Func, i: nat, k: nat): (part: Part)
    requires Fits(f) && SlotsOk(f) && i < |f.instrs| && k < |InstrLines(f, i)|
    ensures part.InCore? ==> part.at < |CoreLines(f, i, CallsBefore(f, i))|
    ensures part.InTrail? ==> part.at < |TrailLines(f, i)|
  {
    var g, m, c := |GotoLines(f, i)|, |MarkLines(f, i)|, |CoreLines(f, i, CallsBefore(f, i))|;
    if k < g then InGoto else if k < g + m then InMark
    else if k < g + m + c then InCore(k - g - m) else InTrail(k - g - m - c)
  }

  /** The line before unreachable lines were marked. */
  ghost function LiveLine(f: Func, i: nat, k: nat): Line
    requires Fits(f) && SlotsOk(f) && i < |f.instrs| && k < |InstrLines(f, i)|
  {
    match PartOf(f, i, k)
    case InGoto => GotoLines(f, i)[0]
    case InMark => MarkLines(f, i)[0]
    case InCore(j) => CoreLines(f, i, CallsBefore(f, i))[j]
    case InTrail(j) => TrailLines(f, i)[j]
  }

  lemma LiveLineIs(f: Func, i: nat, k: nat)
    requires Fits(f) && SlotsOk(f) && i < |f.instrs| && k < |InstrLines(f, i)|
    ensures InstrLines(f, i)[k].stmt == LiveLine(f, i, k).stmt
    ensures !ChunkIsDead(f, i) ==> InstrLines(f, i)[k] == LiveLine(f, i, k)
    ensures ChunkIsDead(f, i) ==> InstrLines(f, i)[k].at.at.Never?
  {
    var g, m, c, t := GotoLines(f, i), MarkLines(f, i), CoreLines(f, i, CallsBefore(f, i)), TrailLines(f, i);
    var lines := g + (m + (c + t));
    assert lines[k] == LiveLine(f, i, k);
  }

  // ----- Labels -----

  /** A chunk that control cannot reach emits no label. */
  lemma DeadEmitsNothing(f: Func, l: Label)
    requires Fits(f) && SlotsOk(f) && EndSafe(f) && !EmitsTail(f)
    ensures |f.instrs| >= 2 && !Emits(f, |f.instrs|, l)
  {
  }

  /** The guest point of a label emitted by chunk `c`. */
  function LabelPoint(f: Func, c: nat, l: Label): Point
    requires Fits(f) && (l.Loc? || 0 < c <= |f.instrs|)
  {
    if l.Loc? then Seq(l.addr) else Seq(AddrAt(f, c - 1) + 4)
  }

  lemma InstrLabel(f: Func, slack: Slack, i: nat, k: nat, l: Label)
    requires BodyOk(f, slack) && SlotsOk(f) && i < |f.instrs| && k < |InstrLines(f, i)|
    requires LiveLine(f, i, k).stmt == LabelHere(l)
    ensures Emits(f, i + 1, l) && LiveLine(f, i, k).at == LabelPoint(f, i + 1, l)
  {
    hide InstrOk, BordersOk, CoreLines, CallsBefore, LikeliesBefore, Labels;
    var n, part := CallsBefore(f, i), PartOf(f, i, k);
    if part.InCore? {
      CoreBody(f, slack, i, n);
      BodyOnlyAt(f, i, n, CoreLines(f, i, n), part.at);
    }
  }

  lemma OuterLabel(f: Func, q: Pos, l: Label)
    requires Fits(f) && SlotsOk(f) && ValidLine(f, q) && LineAt(f, q).stmt == LabelHere(l)
             && !(0 < q.chunk <= |f.instrs|)
    ensures q.chunk == 0 && l == Loc(f.vram)
    ensures Emits(f, q.chunk, l) && LineAt(f, q).at == LabelPoint(f, q.chunk, l)
  {
    hide InstrLines, Labels, BodyLines;
  }

  lemma InnerLabel(f: Func, slack: Slack, i: nat, k: nat, l: Label)
    requires BodyOk(f, slack) && SlotsOk(f) && EndSafe(f) && i < |f.instrs| && k < |InstrLines(f, i)|
    requires InstrLines(f, i)[k].stmt == LabelHere(l)
    ensures Emits(f, i + 1, l) && InstrLines(f, i)[k].at == LabelPoint(f, i + 1, l)
  {
    LiveLineIs(f, i, k);
    InstrLabel(f, slack, i, k, l);
    if ChunkIsDead(f, i) {
      DeadEmitsNothing(f, l);
    }
  }

  lemma LabelLinePoint(f: Func, slack: Slack, q: Pos, l: Label)
    requires BodyOk(f, slack) && SlotsOk(f) && EndSafe(f) && ValidLine(f, q) && LineAt(f, q).stmt == LabelHere(l)
    ensures Emits(f, q.chunk, l) && LineAt(f, q).at == LabelPoint(f, q.chunk, l)
  {
    hide InstrLines, PrologueLines, EpilogueLines, Emits, LabelPoint, EndSafe;
    if 0 < q.chunk <= |f.instrs| {
      InnerLabel(f, slack, q.chunk - 1, q.line, l);
    } else {
      OuterLabel(f, q, l);
    }
  }

  /** The goto after a call: its label is emitted two chunks on, after the slot. */
  lemma ResumeGoto(f: Func, slack: Slack, i: nat, j: nat, l: Label)
    requires BodyOk(f, slack) && SlotsOk(f) && i < |f.instrs| && j < |CoreLines(f, i, CallsBefore(f, i))|
    requires CoreLines(f, i, CallsBefore(f, i))[j].stmt == Goto(l) && !l.Loc?
    ensures i + 2 <= |f.instrs| && Emits(f, i + 2, l)
    ensures CoreLines(f, i, CallsBefore(f, i))[j].at == LabelPoint(f, i + 2, l)
  {
    hide CoreLines, InstrOk, Emits, Labels, CallsBefore;
    var n := CallsBefore(f, i);
    CoreBody(f, slack, i, n);
    BodyOnlyAt(f, i, n, CoreLines(f, i, n), j);
    AfterEmitted(f, i);
  }

  /** A numbered goto: the chunk that emits its label, which lies ahead, and its guest point. */
  lemma NumberedGoto(f: Func, slack: Slack, i: nat, k: nat, l: Label) returns (c: nat)
    requires BodyOk(f, slack) && SlotsOk(f) && i < |f.instrs| && k < |InstrLines(f, i)|
    requires LiveLine(f, i, k).stmt == Goto(l) && !l.Loc?
    ensures 0 < c <= |f.instrs| && Emits(f, c, l) && LiveLine(f, i, k).at == LabelPoint(f, c, l)
    ensures c > i + 1 || (c == i + 1 && k == 0)
  {
    hide CoreLines, InstrOk, BordersOk, Labels, CallsBefore, LikeliesBefore;
    var part := PartOf(f, i, k);
    if part.InCore? {
      ResumeGoto(f, slack, i, part.at, l);
      c := i + 2;
    } else {
      c := i + 1;
    }
  }

  lemma OuterGoto(f: Func, q: Pos, l: Label)
    requires Fits(f) && SlotsOk(f) && ValidLine(f, q) && LineAt(f, q).stmt == Goto(l) && !(0 < q.chunk <= |f.instrs|)
    ensures l.Loc?
  {
  }

  /** A goto and its label stand at the same guest point. */
  lemma GotoAgrees(p: Program, f: Func, q: Pos, r: Pos, l: Label)
    requires Sound(p, f) && ValidLine(f, q) && ValidLine(f, r)
    requires LineAt(f, q).stmt == Goto(l) && LineAt(f, r).stmt == LabelHere(l) && !LineAt(f, q).at.at.Never?
    ensures LineAt(f, q).at == LineAt(f, r).at
  {
    hide BodyOk, CodeOk, TextOk, EndSafe, InstrLines, LiveLine, PrologueLines, EpilogueLines, Emits;
    LabelLinePoint(f, p.slack, r, l);
    if l.Loc? {
      FlowsOn(p, f, q);
    } else {
      if !(0 < q.chunk <= |f.instrs|) {
        OuterGoto(f, q, l);
      }
      LiveLineIs(f, q.chunk - 1, q.line);
      var c := NumberedGoto(f, p.slack, q.chunk - 1, q.line, l);
      OnlyOneEmits(f, c, r.chunk, l);
    }
  }

  lemma OnlyOneEmits(f: Func, c: nat, d: nat, l: Label)
    requires Fits(f) && Emits(f, c, l) && Emits(f, d, l)
    ensures c == d
  {
    if c < d {
      EmittedByOne(f, c, d, l);
    } else if d < c {
      EmittedByOne(f, d, c, l);
    }
  }

  /** A label of the function's own addresses stands at that address. */
  lemma AddressLabel(p: Program, f: Func, r: Pos, x: Addr)
    requires Sound(p, f) && ValidLine(f, r) && LineAt(f, r).stmt == LabelHere(Loc(x))
    ensures LineAt(f, r).at == Seq(x)
  {
    LabelLinePoint(f, p.slack, r, Loc(x));
  }

  // ----- Blocks -----

  ghost predicate Flat(s: Stmt) {
    !s.If? && !s.EndIf?
  }

  lemma {:induction false} BlockEndIs(chunk: seq<Stmt>, line: nat, end: nat)
    requires line <= end < |chunk| && chunk[end].EndIf?
    requires forall k :: line <= k < end ==> Flat(chunk[k])
    ensures BlockEnd(chunk, line, 0) == end
    decreases end - line
  {
    if line < end {
      BlockEndIs(chunk, line + 1, end);
    }
  }

  ghost predicate FlatLines(lines: seq<Line>) {
    forall k :: 0 <= k < |lines| ==> Flat(lines[k].stmt)
  }

  lemma FlatConcat(x: seq<Line>, y: seq<Line>)
    requires FlatLines(x) && FlatLines(y)
    ensures FlatLines(x + y)
  {
  }

  lemma FlatTree(f: Func, i: nat, target: Addr)
    requires Fits(f) && i < |f.instrs| && HasSlot(f, i)
    ensures FlatLines(TreeLines(f, i, target))
  {
    FlatConcat(SlotLines(f, i, Point(Slot(AddrAt(f, i) + 4, Const(target)), None)), TreeTail(f, i, target));
  }

  lemma FlatCall(f: Func, i: nat, links: nat, dest: Dest)
    requires Fits(f) && i < |f.instrs| && HasSlot(f, i)
    ensures FlatLines(CallLines(f, i, links, dest))
  {
    if !(dest.Const? && dest.addr !in f.callResolves) {
      FlatConcat(SlotLines(f, i, Point(Slot(AddrAt(f, i) + 4, dest), Some(AddrAt(f, i) + 8))),
                 CallTail(f, i, links, dest));
    }
  }

  /** A block has one closing brace, at its end. */
  lemma BlockShape(f: Func, i: nat, links: nat)
    requires Fits(f) && i < |f.instrs| && f.instrs[i].Branch? && HasSlot(f, i)
    ensures var block := BlockLines(f, i, links);
            block != [] && FlatLines(block[..|block| - 1]) && Last(block) == Line(EndIf, BodyExit(f, i))
  {
    var b := f.instrs[i];
    var inner := if b.link && !Inside(f, b.target) then CallLines(f, i, links, Const(b.target))
      else TreeLines(f, i, b.target);
    if b.link && !Inside(f, b.target) {
      FlatCall(f, i, links, Const(b.target));
    } else {
      FlatTree(f, i, b.target);
    }
    assert BlockLines(f, i, links) == inner + [Line(EndIf, BodyExit(f, i))];
    assert BlockLines(f, i, links)[..|inner|] == inner;
  }

  /** The test of a branch is followed by its block, and there is no other test. */
  lemma TestThenBlock(f: Func, i: nat, links: nat, j: nat)
    requires Fits(f) && SlotsOk(f) && i < |f.instrs| && f.instrs[i].Branch?
    requires j < |CoreLines(f, i, links)| && CoreLines(f, i, links)[j].stmt.If?
    ensures CoreLines(f, i, links)[j + 1..] == BlockLines(f, i, links)
    ensures CoreLines(f, i, links)[j].at.at == if f.instrs[i].link then Linked(AddrAt(f, i))
            else Goes(Const(AddrAt(f, i)))
  {
    hide BlockLines;
    BlockShape(f, i, links);
    var block, a, b := BlockLines(f, i, links), AddrAt(f, i), f.instrs[i];
    var note := Line(Comment(a), Seq(a));
    var head := if b.link then [note, Line(SetLink(RA, a + 8), Seq(a))] else [note];
    var test := Line(If(b.cond), if b.link then Point(Linked(a), None) else Seq(a));
    assert CoreLines(f, i, links) == head + [test] + block;
    OnlyTest(head, test, block, j);
  }

  lemma OnlyTest(head: seq<Line>, test: Line, block: seq<Line>, j: nat)
    requires FlatLines(head) && block != [] && FlatLines(block[..|block| - 1]) && Last(block).stmt.EndIf?
    requires j < |head + [test] + block| && (head + [test] + block)[j].stmt.If?
    ensures j == |head| && (head + [test] + block)[j] == test && (head + [test] + block)[j + 1..] == block
  {
    var lines := head + [test] + block;
    assert forall m :: 0 <= m < |head| ==> lines[m] == head[m];
    assert forall m :: |head| < m < |lines| ==> lines[m] == block[m - |head| - 1];
  }

  /** Only branches are tested. */
  lemma TestedIsBranch(f: Func, slack: Slack, i: nat, j: nat)
    requires BodyOk(f, slack) && SlotsOk(f) && i < |f.instrs|
    requires j < |CoreLines(f, i, CallsBefore(f, i))| && CoreLines(f, i, CallsBefore(f, i))[j].stmt.If?
    ensures f.instrs[i].Branch?
  {
    CoreBody(f, slack, i, CallsBefore(f, i));
    BodyOnlyAt(f, i, CallsBefore(f, i), CoreLines(f, i, CallsBefore(f, i)), j);
  }

  /** A block within a chunk: `core` occurs at `start`, and its end is the block. */
  lemma BlockInChunk(chunk: seq<Stmt>, start: nat, core: seq<Stmt>, j: nat)
    requires start + |core| <= |chunk| && chunk[start..start + |core|] == core
    requires j + 1 < |core| && core[|core| - 1].EndIf? && forall m :: j < m < |core| - 1 ==> Flat(core[m])
    ensures BlockEnd(chunk, start + j + 1, 0) == start + |core| - 1
  {
    forall m | start + j < m < start + |core| - 1
      ensures Flat(chunk[m])
    {
      assert chunk[m] == core[m - start];
    }
    assert chunk[start + |core| - 1] == core[|core| - 1];
    BlockEndIs(chunk, start + j + 1, start + |core| - 1);
  }

  /** In a branch the block runs to the end of the core. */
  lemma CoreBlock(f: Func, i: nat, links: nat, j: nat)
    requires Fits(f) && SlotsOk(f) && i < |f.instrs| && f.instrs[i].Branch?
    requires j < |CoreLines(f, i, links)| && CoreLines(f, i, links)[j].stmt.If?
    ensures var core := CoreLines(f, i, links);
            && j + 1 < |core| && core[|core| - 1] == Line(EndIf, BodyExit(f, i))
            && forall m :: j < m < |core| - 1 ==> Flat(core[m].stmt)
  {
    hide BodyLines;
    TestThenBlock(f, i, links, j);
    BlockShape(f, i, links);
    var core, block := CoreLines(f, i, links), BlockLines(f, i, links);
    forall m | j < m < |core|
      ensures core[m] == block[m - j - 1]
    {
      assert core[m] == core[j + 1..][m - j - 1];
    }
  }

  ghost function CoreStart(f: Func, i: nat): nat
    requires Fits(f) && i < |f.instrs|
  {
    |GotoLines(f, i)| + |MarkLines(f, i)|
  }

  lemma CoreWithin<T>(g: seq<T>, m: seq<T>, core: seq<T>, t: seq<T>)
    ensures var s, k := g + (m + (core + t)), |g| + |m|;
            k + |core| <= |s| && s[k..k + |core|] == core
  {
  }

  lemma CoreSlice(f: Func, i: nat)
    requires Fits(f) && SlotsOk(f) && i < |f.instrs|
    ensures var core, k := CoreLines(f, i, CallsBefore(f, i)), CoreStart(f, i);
            && k + |core| <= |InstrLines(f, i)|
            && Stmts(InstrLines(f, i))[k..k + |core|] == Stmts(core)
            && (!ChunkIsDead(f, i) ==> InstrLines(f, i)[k..k + |core|] == core)
  {
    hide BodyLines, CoreLines, GotoLines, MarkLines, TrailLines;
    var g, m, core, t := GotoLines(f, i), MarkLines(f, i), CoreLines(f, i, CallsBefore(f, i)), TrailLines(f, i);
    CoreWithin(g, m, core, t);
  }

  /** The statements from a test in the core of a chunk up to the end of its block. */
  lemma InstrBlock(f: Func, i: nat, j: nat)
    requires Fits(f) && SlotsOk(f) && i < |f.instrs| && f.instrs[i].Branch?
    requires j < |CoreLines(f, i, CallsBefore(f, i))| && CoreLines(f, i, CallsBefore(f, i))[j].stmt.If?
    ensures var end := CoreStart(f, i) + |CoreLines(f, i, CallsBefore(f, i))| - 1;
            && BlockEnd(Stmts(InstrLines(f, i)), CoreStart(f, i) + j + 1, 0) == end
            && (!ChunkIsDead(f, i) ==> InstrLines(f, i)[end] == Line(EndIf, BodyExit(f, i)))
  {
    hide BodyLines, CoreLines, InstrLines, CoreStart, CallsBefore, BodyExit, ChunkIsDead;
    CoreSlice(f, i);
    CoreBlock(f, i, CallsBefore(f, i), j);
    var core := CoreLines(f, i, CallsBefore(f, i));
    BlockInChunk(Stmts(InstrLines(f, i)), CoreStart(f, i), Stmts(core), j);
  }

  lemma TestIsCore(f: Func, i: nat, k: nat)
    requires Fits(f) && SlotsOk(f) && i < |f.instrs| && k < |InstrLines(f, i)| && LiveLine(f, i, k).stmt.If?
    ensures PartOf(f, i, k).InCore?
  {
  }

  /** An untaken branch goes, within its chunk, where the processor goes. */
  lemma UntakenInstr(p: Program, f: Func, i: nat, k: nat)
    requires Sound(p, f) && i < |f.instrs| && k < |InstrLines(f, i)|
    requires InstrLines(f, i)[k].stmt.If? && !InstrLines(f, i)[k].at.at.Never?
    ensures var end := BlockEnd(Stmts(InstrLines(f, i)), k + 1, 0);
            end < |InstrLines(f, i)| && InstrLines(f, i)[end] == Line(EndIf, BodyExit(f, i))
    ensures f.instrs[i].Branch?
    ensures InstrLines(f, i)[k].at.at == if f.instrs[i].link then Linked(AddrAt(f, i)) else Goes(Const(AddrAt(f, i)))
  {
    hide BodyLines, BlockLines, GotoLines, MarkLines, TrailLines, TextOk, CodeOk, EndSafe;
    LiveLineIs(f, i, k);
    TestIsCore(f, i, k);
    var j := PartOf(f, i, k).at;
    TestedIsBranch(f, p.slack, i, j);
    InstrBlock(f, i, j);
    TestThenBlock(f, i, CallsBefore(f, i), j);
    assert k == CoreStart(f, i) + j;
  }

  lemma OuterIsFlat(f: Func, q: Pos)
    requires Fits(f) && SlotsOk(f) && ValidLine(f, q) && !(0 < q.chunk <= |f.instrs|)
    ensures !LineAt(f, q).stmt.If? && !LineAt(f, q).stmt.Call?
  {
    hide InstrLines;
  }

  /** Where an untaken branch goes in the text is where the processor goes. */
  lemma UntakenLine(p: Program, f: Func, q: Pos)
    requires Sound(p, f) && ValidLine(f, q) && LineAt(f, q).stmt.If? && !LineAt(f, q).at.at.Never?
    ensures var r := Pos(q.chunk, BlockEnd(Stmts(Lines(f, q.chunk)), q.line + 1, 0));
            0 < q.chunk <= |f.instrs| && ValidLine(f, r) && UntakenPoint(p, AddrAt(f, q.chunk - 1), LineAt(f, r).at)
    ensures LineAt(f, q).at.at == Linked(AddrAt(f, q.chunk - 1))
            || LineAt(f, q).at.at == Goes(Const(AddrAt(f, q.chunk - 1)))
  {
    hide InstrLines, PrologueLines, EpilogueLines, TextOk, CodeOk, EndSafe;
    if !(0 < q.chunk <= |f.instrs|) {
      OuterIsFlat(f, q);
    }
    UntakenInstr(p, f, q.chunk - 1, q.line);
    InstrFacts(p, f, q.chunk - 1);
  }
}
