/** What the lines of each instruction mention, and which chunk of the text emits the
    label after a call. */
module LabelFacts {
  import opened Machine
  import opened Emitted
  import opened Translator
  import opened Host
  import opened Points
  import opened LabelWalk
  import opened WalkFacts
  import opened Edges
  import opened Flow

  // ----- What the lines of an instruction mention -----

  /** The lines of an instruction's body emit no label and jump only to targets of
      the function or to the label after their own call. */
  ghost predicate BodyLine(f: Func, i: nat, links: nat, line: Line)
    requires Fits(f) && i < |f.instrs|
  {
    match line.stmt
    case LabelHere(_) => false
    case EnterSwitch(_) => false
    case Goto(l) =>
      if l.Loc? then IsTarget(f, l.addr)
      else l == After(links) && NeedsLink(f, i) && line.at == Seq(AddrAt(f, i) + 8)
    case DispatchRa(labels) => labels == Labels(f)
    case Switch(_, entries) => forall e :: e in entries ==> IsTarget(f, e)
    case Call(_, locals, back) =>
      locals == LocalTailcalls(f) && back == ReturnLabel(f, i) && line.at.ra == Some(AddrAt(f, i) + 8)
    case If(_) => f.instrs[i].Branch?
    case _ => true
  }

  ghost predicate BodyOnly(f: Func, i: nat, links: nat, lines: seq<Line>)
    requires Fits(f) && i < |f.instrs|
  {
    lines == [] || (BodyLine(f, i, links, lines[0]) && BodyOnly(f, i, links, lines[1..]))
  }

  lemma {:induction false} BodyConcat(f: Func, i: nat, links: nat, x: seq<Line>, y: seq<Line>)
    requires Fits(f) && i < |f.instrs| && BodyOnly(f, i, links, x) && BodyOnly(f, i, links, y)
    ensures BodyOnly(f, i, links, x + y)
    decreases |x|
  {
    if x == [] {
      assert x + y == y;
    } else {
      BodyConcat(f, i, links, x[1..], y);
      assert (x + y)[1..] == x[1..] + y;
    }
  }

  lemma {:induction false} BodyOnlyAt(f: Func, i: nat, links: nat, lines: seq<Line>, k: nat)
    requires Fits(f) && i < |f.instrs| && BodyOnly(f, i, links, lines) && k < |lines|
    ensures BodyLine(f, i, links, lines[k])
    decreases k
  {
    if k > 0 {
      BodyOnlyAt(f, i, links, lines[1..], k - 1);
    }
  }

  lemma BodyOne(f: Func, i: nat, links: nat, x: Line)
    requires Fits(f) && i < |f.instrs| && BodyLine(f, i, links, x)
    ensures BodyOnly(f, i, links, [x])
  {
    assert [x][1..] == [];
  }

  lemma BodyTwo(f: Func, i: nat, links: nat, x: Line, y: Line)
    requires Fits(f) && i < |f.instrs| && BodyLine(f, i, links, x) && BodyLine(f, i, links, y)
    ensures BodyOnly(f, i, links, [x, y])
  {
    BodyOne(f, i, links, y);
    assert [x, y][1..] == [y];
  }

  lemma SlotBody(f: Func, i: nat, links: nat, at: Point)
    requires Fits(f) && i < |f.instrs| && HasSlot(f, i)
    ensures BodyOnly(f, i, links, SlotLines(f, i, at))
  {
    var lines := SlotLines(f, i, at);
    BodyTwo(f, i, links, lines[0], lines[1]);
  }

  lemma TreeBody(f: Func, i: nat, links: nat, target: Addr)
    requires Fits(f) && i < |f.instrs| && HasSlot(f, i) && target in LabelsOf(f, i)
    ensures BodyOnly(f, i, links, TreeLines(f, i, target))
  {
    if Inside(f, target) {
      AskedForIsTarget(f, i, target);
    }
    var tail := TreeTail(f, i, target);
    if |tail| == 3 {
      BodyTwo(f, i, links, tail[1], tail[2]);
      BodyOne(f, i, links, tail[0]);
      BodyConcat(f, i, links, [tail[0]], [tail[1], tail[2]]);
      assert tail == [tail[0]] + [tail[1], tail[2]];
    } else if |tail| == 2 {
      BodyTwo(f, i, links, tail[0], tail[1]);
    } else {
      BodyOne(f, i, links, tail[0]);
    }
    var at := Point(Slot(AddrAt(f, i) + 4, Const(target)), None);
    SlotBody(f, i, links, at);
    BodyConcat(f, i, links, SlotLines(f, i, at), tail);
  }

  lemma CallBody(f: Func, i: nat, links: nat, dest: Dest)
    requires Fits(f) && i < |f.instrs| && HasSlot(f, i)
    requires !(dest.Const? && dest.addr !in f.callResolves) ==> NeedsLink(f, i)
    ensures BodyOnly(f, i, links, CallLines(f, i, links, dest))
  {
    var at := Point(Slot(AddrAt(f, i) + 4, dest), Some(AddrAt(f, i) + 8));
    if dest.Const? && dest.addr !in f.callResolves {
      BodyOne(f, i, links, Line(UnhandledCall(dest.addr), at));
    } else {
      var tail := CallTail(f, i, links, dest);
      BodyTwo(f, i, links, tail[0], tail[1]);
      SlotBody(f, i, links, at);
      BodyConcat(f, i, links, SlotLines(f, i, at), tail);
    }
  }

  lemma TailcallBody(f: Func, i: nat, links: nat, rs: Reg)
    requires Fits(f) && i < |f.instrs| && HasSlot(f, i)
    ensures BodyOnly(f, i, links, TailcallLines(f, i, rs))
  {
    var at := Point(Slot(AddrAt(f, i) + 4, FromReg(rs)), None);
    var x, y := Line(RequestTailcall(FromReg(rs)), Point(Goes(FromReg(rs)), None)), Line(Return, Point(Pending, None));
    BodyTwo(f, i, links, x, y);
    SlotBody(f, i, links, at);
    BodyConcat(f, i, links, SlotLines(f, i, at), [x, y]);
  }

  lemma RaTailBody(f: Func, i: nat, links: nat)
    requires Fits(f) && i < |f.instrs|
    ensures BodyOnly(f, i, links, RaTail(f))
  {
    var back := Point(Returning, None);
    var x, y := Line(TailcallUnlessHome, back), Line(Return, Point(Home, None));
    BodyTwo(f, i, links, x, y);
    var dispatch := if Labels(f) != {} then [Line(DispatchRa(Labels(f)), back)] else [];
    if dispatch != [] {
      BodyOne(f, i, links, dispatch[0]);
    }
    BodyConcat(f, i, links, dispatch, [x, y]);
    BodyOne(f, i, links, Line(RebaseRa(f.sectionRam, f.sectionSize), back));
    BodyConcat(f, i, links, [Line(RebaseRa(f.sectionRam, f.sectionSize), back)], dispatch + [x, y]);
  }

  lemma JumpToRaBody(f: Func, i: nat, links: nat)
    requires Fits(f) && i < |f.instrs| && HasSlot(f, i)
    ensures BodyOnly(f, i, links, JumpToRaLines(f, i))
  {
    var at := Point(Captured(AddrAt(f, i) + 4), None);
    RaTailBody(f, i, links);
    SlotBody(f, i, links, at);
    BodyConcat(f, i, links, SlotLines(f, i, at), RaTail(f));
    BodyOne(f, i, links, Line(CaptureRa, Seq(AddrAt(f, i))));
    BodyConcat(f, i, links, [Line(CaptureRa, Seq(AddrAt(f, i)))], SlotLines(f, i, at) + RaTail(f));
  }

  lemma BlockBody(f: Func, i: nat, links: nat)
    requires Fits(f) && i < |f.instrs| && HasSlot(f, i) && f.instrs[i].Branch?
    ensures BodyOnly(f, i, links, BlockLines(f, i, links))
  {
    var b := f.instrs[i];
    var close := Line(EndIf, BodyExit(f, i));
    BodyOne(f, i, links, close);
    if b.link && !Inside(f, b.target) {
      CallBody(f, i, links, Const(b.target));
      BodyConcat(f, i, links, CallLines(f, i, links, Const(b.target)), [close]);
    } else {
      TreeBody(f, i, links, b.target);
      BodyConcat(f, i, links, TreeLines(f, i, b.target), [close]);
    }
  }

  lemma BranchBody(f: Func, i: nat, links: nat)
    requires Fits(f) && i < |f.instrs| && HasSlot(f, i) && f.instrs[i].Branch?
    ensures BodyOnly(f, i, links, BranchLines(f, i, links))
  {
    var a, b := AddrAt(f, i), f.instrs[i];
    var test := Line(If(b.cond), if b.link then Point(Linked(a), None) else Seq(a));
    BlockBody(f, i, links);
    BodyOne(f, i, links, test);
    BodyConcat(f, i, links, [test], BlockLines(f, i, links));
    if b.link {
      BodyOne(f, i, links, Line(SetLink(RA, a + 8), Seq(a)));
      BodyConcat(f, i, links, [Line(SetLink(RA, a + 8), Seq(a))], [test] + BlockLines(f, i, links));
    }
  }

  lemma JalBody(f: Func, i: nat, links: nat)
    requires Fits(f) && i < |f.instrs| && HasSlot(f, i) && f.instrs[i].Jal?
    ensures BodyOnly(f, i, links, BodyLines(f, i, links))
  {
    var a, target := AddrAt(f, i), f.instrs[i].target;
    BodyOne(f, i, links, Line(SetLink(RA, a + 8), Seq(a)));
    var rest;
    if Inside(f, target) {
      AskedForIsTarget(f, i, target);
      var at := Point(Slot(a + 4, Const(target)), None);
      var goto := Line(Goto(Loc(target)), Seq(target));
      BodyOne(f, i, links, goto);
      SlotBody(f, i, links, at);
      BodyConcat(f, i, links, SlotLines(f, i, at), [goto]);
      rest := SlotLines(f, i, at) + [goto];
    } else {
      CallBody(f, i, links, Const(target));
      rest := CallLines(f, i, links, Const(target));
    }
    BodyConcat(f, i, links, [Line(SetLink(RA, a + 8), Seq(a))], rest);
  }

  lemma JalrBody(f: Func, i: nat, links: nat)
    requires Fits(f) && i < |f.instrs| && HasSlot(f, i) && f.instrs[i].Jalr?
    ensures BodyOnly(f, i, links, BodyLines(f, i, links))
  {
    var a, rd, rs := AddrAt(f, i), f.instrs[i].rd, f.instrs[i].rs;
    var head := if rd != 0 then [Line(SetLink(rd, a + 8), Seq(a))] else [];
    if rd != 0 {
      BodyOne(f, i, links, head[0]);
    }
    if rd == RA {
      CallBody(f, i, links, FromReg(rs));
      BodyConcat(f, i, links, head, CallLines(f, i, links, FromReg(rs)));
    } else {
      TailcallBody(f, i, links, rs);
      BodyConcat(f, i, links, head, TailcallLines(f, i, rs));
    }
  }

  lemma TableBody(f: Func, i: nat, links: nat)
    requires Fits(f) && i < |f.instrs| && HasSlot(f, i) && f.instrs[i].TableJr?
    requires forall e :: e in f.instrs[i].entries ==> Inside(f, e)
    ensures BodyOnly(f, i, links, BodyLines(f, i, links))
  {
    var t := f.instrs[i];
    forall e | e in t.entries
      ensures IsTarget(f, e)
    {
      AskedForIsTarget(f, i, e);
    }
    var a := AddrAt(f, i);
    var at, switch := Point(Tabled(a + 4, a), None), Line(Switch(a, t.entries), Point(Chosen(a, t.entries), None));
    BodyOne(f, i, links, switch);
    SlotBody(f, i, links, at);
    BodyConcat(f, i, links, SlotLines(f, i, at), [switch]);
  }

  lemma OrdinaryBody(f: Func, i: nat, links: nat)
    requires Fits(f) && i < |f.instrs| && !IsControl(f.instrs[i])
    ensures BodyOnly(f, i, links, BodyLines(f, i, links))
  {
    var body := BodyLines(f, i, links);
    BodyOne(f, i, links, body[0]);
    if |body| == 2 {
      BodyTwo(f, i, links, body[0], body[1]);
    }
  }

  lemma CoreBody(f: Func, slack: Slack, i: nat, n: nat)
    requires BodyOk(f, slack) && SlotsOk(f) && i < |f.instrs|
    ensures BodyOnly(f, i, n, CoreLines(f, i, n))
  {
    assert InstrOk(f, slack, i);
    var body := BodyLines(f, i, n);
    match f.instrs[i] {
      case Jump(target) => if target != AddrAt(f, i) { TreeBody(f, i, n, target); } else { BodyOne(f, i, n, body[0]); }
      case Jal(_) => JalBody(f, i, n);
      case Jalr(_, _) => JalrBody(f, i, n);
      case Jr(rs) => if rs == RA { JumpToRaBody(f, i, n); } else { TailcallBody(f, i, n, rs); }
      case TableJr(_, _) => TableBody(f, i, n);
      case Branch(_, _, _, _) => BranchBody(f, i, n);
      case _ => OrdinaryBody(f, i, n);
    }
    var note := Line(Comment(AddrAt(f, i)), Seq(AddrAt(f, i)));
    BodyOne(f, i, n, note);
    BodyConcat(f, i, n, [note], body);
  }

  /** Chunk `c` emits label `l`. */
  ghost predicate Emits(f: Func, c: nat, l: Label)
    requires Fits(f)
  {
    match l
    case Loc(x) => if c == 0 then x == f.vram else c <= |f.instrs| && x == AddrAt(f, c - 1) && x in Labels(f)
    case After(n) => 2 <= c <= |f.instrs| && NeedsLink(f, c - 2) && n == CallsBefore(f, c - 1)
    case Skip(n) => 2 <= c <= |f.instrs| && IsLikely(f, c - 2) && n == LikeliesBefore(f, c - 1)
  }

  // ----- Numbering -----

  lemma {:induction false} NumbersGrow(f: Func, i: nat, j: nat)
    requires Fits(f) && i <= j <= |f.instrs|
    ensures CallsBefore(f, i) <= CallsBefore(f, j) && LikeliesBefore(f, i) <= LikeliesBefore(f, j)
    decreases j
  {
    if i < j {
      NumbersGrow(f, i, j - 1);
    }
  }

  /** The numbers a later chunk's labels carry are larger. */
  lemma NumbersDiffer(f: Func, c: nat, d: nat)
    requires Fits(f) && 2 <= c < d <= |f.instrs|
    ensures NeedsLink(f, c - 2) ==> CallsBefore(f, c - 1) < CallsBefore(f, d - 1)
    ensures IsLikely(f, c - 2) ==> LikeliesBefore(f, c - 1) < LikeliesBefore(f, d - 1)
  {
    NumbersGrow(f, c, d - 1);
  }

  /** No label is emitted by two chunks. */
  lemma EmittedByOne(f: Func, c: nat, d: nat, l: Label)
    requires Fits(f) && c < d && Emits(f, c, l)
    ensures !Emits(f, d, l)
  {
    if 2 <= c < d <= |f.instrs| {
      NumbersDiffer(f, c, d);
    }
  }

  /** The label after a call is emitted two chunks on. */
  lemma AfterEmitted(f: Func, i: nat)
    requires Fits(f) && SlotsOk(f) && i < |f.instrs| && NeedsLink(f, i)
    ensures Emits(f, i + 2, After(CallsBefore(f, i)))
  {
    assert HasSlot(f, i);
    NotAfterControl(f, i);
  }

  lemma NotAfterControl(f: Func, i: nat)
    requires SlotsOk(f) && i < |f.instrs| && IsControl(f.instrs[i])
    ensures i > 0 ==> !IsControl(f.instrs[i - 1])
  {
  }
}
