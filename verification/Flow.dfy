/** Control flow through a whole function text: which line follows which, where the
    labels are, and that every goto names a label that is emitted exactly once. */
module Flow {
  import opened Machine
  import opened Emitted
  import opened Translator
  import opened Host
  import opened Points
  import opened WalkFacts
  import opened Edges

  ghost predicate ValidLine(f: Func, q: Pos)
    requires Fits(f) && SlotsOk(f)
  {
    q.chunk < |f.instrs| + 2 && q.line < |Lines(f, q.chunk)|
  }

  ghost function LineAt(f: Func, q: Pos): Line
    requires Fits(f) && SlotsOk(f) && ValidLine(f, q)
  {
    Lines(f, q.chunk)[q.line]
  }

  ghost function Follow(f: Func, q: Pos): Pos
    requires Fits(f) && SlotsOk(f) && ValidLine(f, q)
  {
    if q.line + 1 < |Lines(f, q.chunk)| then Pos(q.chunk, q.line + 1) else Pos(q.chunk + 1, 0)
  }

  /** A function whose lines the theorems below speak about. */
  ghost predicate Sound(p: Program, f: Func) {
    Fits(f) && BodyOk(f, p.slack) && CodeOk(p, f) && EndSafe(f) && SlotsOk(f) && TextOk(f)
  }

  lemma SoundFunc(p: Program, f: Func)
    requires BodyOk(f, p.slack) && CodeOk(p, f) && EndSafe(f)
    ensures Sound(p, f)
  {
    SlotsAreOk(f, p.slack);
  }

  /** Positions in the text and positions in the lines are the same. */
  lemma TextLine(f: Func, q: Pos)
    requires TextOk(f)
    ensures ValidPos(Translation(f), q) <==> ValidLine(f, q)
    ensures ValidLine(f, q) ==>
      && At(Translation(f), q) == LineAt(f, q).stmt && Succ(Translation(f), q) == Follow(f, q)
  {
    if q.chunk < |f.instrs| + 2 {
      TranslationIsLines(f, q.chunk);
    } else {
      TranslationIsLines(f, 0);
    }
  }

  // ----- What follows a line -----

  lemma PrologueChain(p: Program, f: Func)
    requires Fits(f) && BordersOk(f, p.slack)
    ensures Chained(p, f, PrologueLines(f), Seq(f.vram))
    ensures PrologueLines(f) != []
            && First(PrologueLines(f), Seq(f.vram)) == if f.dispatch != {} then Point(Entering, None) else Seq(Entry(f))
  {
    var exit := Seq(f.vram);
    var mark := [Line(LabelHere(Loc(f.vram)), exit)];
    ChainOne(p, f, mark[0], exit);
    var goto := if EntryLabel(f) != {} then [Line(Goto(Loc(f.entry)), Seq(f.entry))] else [];
    if goto != [] {
      ChainCons(p, f, goto[0], mark, exit);
    }
    assert Chained(p, f, goto + mark, exit);
    assert First(goto + mark, exit) == Seq(Entry(f));
    if f.dispatch != {} {
      var enter := Line(EnterSwitch(DispatchEntries(f)), Point(Entering, None));
      ChainCons(p, f, enter, goto + mark, exit);
      assert PrologueLines(f) == [enter] + (goto + mark);
    } else {
      assert PrologueLines(f) == goto + mark;
    }
  }

  lemma EpilogueChain(p: Program, f: Func)
    requires Fits(f) && BordersOk(f, p.slack)
    ensures Chained(p, f, EpilogueLines(f), Point(Never, None))
    ensures First(EpilogueLines(f), Point(Never, None)) == if EmitsTail(f) then Seq(End(f)) else Point(Never, None)
  {
    var exit := Point(Never, None);
    var lines := EpilogueLines(f);
    var close := lines[|lines| - 1];
    ChainOne(p, f, close, exit);
    if EmitsTail(f) {
      ChainCons(p, f, lines[2], [close], exit);
      ChainCons(p, f, lines[1], [lines[2], close], exit);
      ChainCons(p, f, lines[0], [lines[1], lines[2], close], exit);
      assert lines == [lines[0]] + [lines[1], lines[2], close];
    } else {
      assert lines == [close];
    }
  }

  /** The point at which chunk `c` is left in sequence. */
  ghost function ExitOf(f: Func, c: nat): Point
    requires Fits(f) && c < |f.instrs| + 2
  {
    if c <= |f.instrs| then ChunkEntry(f, c) else Point(Never, None)
  }

  lemma NotEmpty(f: Func, c: nat)
    requires Fits(f) && SlotsOk(f) && c < |f.instrs| + 2
    ensures Lines(f, c) != []
  {
    if 0 < c <= |f.instrs| {
      assert |InstrLines(f, c - 1)| >= |CoreLines(f, c - 1, CallsBefore(f, c - 1))|;
    }
  }

  lemma ChunkChain(p: Program, f: Func, c: nat)
    requires Sound(p, f) && c < |f.instrs| + 2
    ensures Chained(p, f, Lines(f, c), ExitOf(f, c))
  {
    hide Chained, InstrLines, PrologueLines, EpilogueLines, TextOk, CodeOk;
    if c == 0 {
      PrologueChain(p, f);
    } else if c <= |f.instrs| {
      InstrChain(p, f, c - 1);
    } else {
      EpilogueChain(p, f);
    }
  }

  /** The lines of a chunk that control cannot reach. */
  lemma DeadLine(f: Func, i: nat, k: nat)
    requires Fits(f) && SlotsOk(f) && i < |f.instrs| && ChunkIsDead(f, i) && k < |InstrLines(f, i)|
    ensures InstrLines(f, i)[k].at == Point(Never, None)
  {
    hide CoreLines;
  }

  lemma EpilogueStops(f: Func)
    requires Fits(f)
    ensures EpilogueLines(f) != [] && !Falls(EpilogueLines(f)[|EpilogueLines(f)| - 1].stmt)
  {
  }

  /** The first point of chunk `c`. */
  lemma ChunkStart(p: Program, f: Func, c: nat)
    requires Sound(p, f) && 0 < c < |f.instrs| + 2
    ensures Lines(f, c) != []
    ensures Lines(f, c)[0].at == if c >= |f.instrs| && !EmitsTail(f) then Point(Never, None) else ExitOf(f, c - 1)
  {
    hide InstrLines, EpilogueLines, TextOk, CodeOk, InstrOk, Labels, Chained, EmitsTail;
    NotEmpty(f, c);
    if c <= |f.instrs| {
      InstrChain(p, f, c - 1);
      if ChunkIsDead(f, c - 1) {
        DeadLine(f, c - 1, 0);
      }
    } else {
      EpilogueChain(p, f);
    }
  }

  function Last<T>(s: seq<T>): T
    requires s != []
  {
    s[|s| - 1]
  }

  lemma LastOfConcat<T>(x: seq<T>, y: seq<T>)
    requires y != []
    ensures x + y != [] && Last(x + y) == Last(y)
  {
  }

  lemma TreeStops(f: Func, i: nat, target: Addr)
    requires Fits(f) && i < |f.instrs| && HasSlot(f, i)
    ensures TreeLines(f, i, target) != [] && !Falls(Last(TreeLines(f, i, target)).stmt)
  {
    LastOfConcat(SlotLines(f, i, Point(Slot(AddrAt(f, i) + 4, Const(target)), None)), TreeTail(f, i, target));
  }

  lemma BodyStops(f: Func, i: nat, links: nat)
    requires Fits(f) && SlotsOk(f) && i < |f.instrs| && IsControl(f.instrs[i]) && !ControlFallsThrough(f.instrs[i])
    ensures BodyLines(f, i, links) != [] && !Falls(Last(BodyLines(f, i, links)).stmt)
  {
    match f.instrs[i]
    case Jump(target) =>
      if target != AddrAt(f, i) {
        TreeStops(f, i, target);
      }
    case Jr(rs) =>
      if rs == RA {
        LastOfConcat(SlotLines(f, i, Point(Captured(AddrAt(f, i) + 4), None)), RaTail(f));
      }
    case Jalr(_, _) =>
    case TableJr(_, _) =>
  }

  lemma NoTrail(f: Func, i: nat)
    requires Fits(f) && SlotsOk(f) && i < |f.instrs| && IsControl(f.instrs[i])
    ensures TrailLines(f, i) == []
  {
    assert i > 0 ==> !IsControl(f.instrs[i - 1]);
  }

  /** Nothing follows an unconditional transfer in sequence. */
  lemma LastLineStops(f: Func, i: nat)
    requires Fits(f) && SlotsOk(f) && i < |f.instrs| && IsControl(f.instrs[i]) && !ControlFallsThrough(f.instrs[i])
    ensures InstrLines(f, i) != [] && !Falls(Last(InstrLines(f, i)).stmt)
  {
    var links := CallsBefore(f, i);
    BodyStops(f, i, links);
    NoTrail(f, i);
    var note := [Line(Comment(AddrAt(f, i)), Seq(AddrAt(f, i)))];
    LastOfConcat(note, BodyLines(f, i, links));
    var core := CoreLines(f, i, links);
    assert core + TrailLines(f, i) == core;
    LastOfConcat(MarkLines(f, i), core);
    LastOfConcat(GotoLines(f, i), MarkLines(f, i) + core);
  }

  /** Every reachable line satisfies its own condition, and is joined to the line
      after it whenever control can fall through. */
  lemma FlowsOn(p: Program, f: Func, q: Pos)
    requires Sound(p, f) && ValidLine(f, q) && !LineAt(f, q).at.at.Never?
    ensures LineOk(p, f, LineAt(f, q))
    ensures Falls(LineAt(f, q).stmt) ==>
              ValidLine(f, Follow(f, q)) && Edge(p, f, LineAt(f, q), LineAt(f, Follow(f, q)).at)
  {
    hide InstrLines, PrologueLines, EpilogueLines, LineOk, Edge, CodeOk, TextOk, InstrOk, BordersOk, Labels;
    var c, n := q.chunk, |f.instrs|;
    var lines := Lines(f, c);
    ChunkChain(p, f, c);
    ChainedAt(p, f, lines, ExitOf(f, c), q.line);
    if q.line + 1 == |lines| && Falls(LineAt(f, q).stmt) {
      if c < n + 1 {
        ChunkStart(p, f, c + 1);
        if c + 1 >= n && !EmitsTail(f) {
          assert LastIsDead(f);
          if c == n - 1 {
            LastLineStops(f, c - 1);
            assert false;
          }
          if c == n {
            DeadLine(f, n - 1, q.line);
          }
        }
      } else {
        EpilogueStops(f);
      }
    }
  }
}
