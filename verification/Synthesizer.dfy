/** Finding the functions of a code fragment in place: tables that grow until a round over
    all gaps, and then one over all calls, adds nothing. */
module Synthesizer {
  import opened Machine
  import opened Synthesis

  /** Where the tail after an indirect call begins: at the first place before it that a
      branch of the tail goes back to. */
  function BodyStart(code: Code, entry: nat, lo: nat, end: nat, scan: nat, found: nat): (r: nat)
    requires lo <= found <= entry && Aligned(found)
    ensures lo <= r <= found && Aligned(r)
    decreases end - scan
  {
    if scan + 4 > end || !code.valid(scan) then found
    else
      var next := Earlier(code, entry, lo, scan, found);
      if code.stops(scan) then next else BodyStart(code, entry, lo, end, scan + 4, next)
  }

  function Earlier(code: Code, entry: nat, lo: nat, scan: nat, found: nat): (r: nat)
    requires lo <= found <= entry && Aligned(found)
    ensures lo <= r <= found && Aligned(r)
  {
    match code.branchTo(scan)
    case None => found
    case Some(to) => if lo <= to < entry && Aligned(to) && to < found then to else found
  }

  /** A tail that ends in a return, small enough to be a function of its own. */
  predicate IsTail(code: Code, size: nat, start: nat, end: nat) {
    && code.discover(start).Some?
    && var n := code.discover(start).value;
       8 <= n <= MAX_PARENT && Aligned(n) && start + n <= end && code.isReturn(start + n - 8)
  }

  function TailStart(code: Code, p: Piece, o: nat): (r: nat)
    requires p.start <= o && Aligned(o)
    ensures p.start <= r <= o && Aligned(r)
  {
    BodyStart(code, o, p.start, if p.end < o + MAX_PARENT then p.end else o + MAX_PARENT, o, o)
  }

  /** An offset in the function to which a call returns. */
  predicate ReturnPoint(code: Code, p: Piece, o: nat) {
    p.start + 8 <= o < p.end && Aligned(o) && code.links(o - 8)
  }

  predicate Small(p: Piece) {
    p.end - p.start <= MAX_PARENT
  }

  /** Nothing can be added for the call that returns to `o`. */
  predicate CallDone(code: Code, size: nat, t: Table, p: Piece, o: nat)
    requires ReturnPoint(code, p, o)
  {
    o in t.emitted
    || (if Small(p) then !Discoverable(code, size, o, p.end)
        else if code.indirect(o - 8) then
          var s := TailStart(code, p, o);
          !IsTail(code, size, s, p.end) || !KnownFits(size, t, s, code.discover(s).value, p.end, o)
        else !(o + 8 <= p.end && code.resumes(o) && IsTail(code, size, o, p.end)) || o in t.aliased)
  }

  ghost predicate CallsDone(code: Code, size: nat, t: Table, p: Piece) {
    forall o: nat :: ReturnPoint(code, p, o) ==> CallDone(code, size, t, p, o)
  }

  /** Each function from number `n` on lies within an earlier one. */
  predicate Nested(pieces: seq<Piece>, n: nat) {
    forall i :: n <= i < |pieces| ==> Within(pieces[i], pieces[..i])
  }

  predicate Within(p: Piece, pieces: seq<Piece>) {
    exists j :: 0 <= j < |pieces| && pieces[j].start <= p.start && p.end <= pieces[j].end
  }

  /** Every call in function `i` returns to a dispatch entry or to the start of another. */
  ghost predicate Resumable(code: Code, t: Table, i: nat)
    requires i < |t.pieces| && i < |t.dispatch|
  {
    forall o: nat :: ReturnPoint(code, t.pieces[i], o) ==> o in t.emitted || o in t.dispatch[i]
  }

  /** A forced entry was placed, or there is no function to be placed there. */
  predicate Handled(code: Code, size: nat, t: Table, o: nat) {
    o == 0 || !Aligned(o) || o + 4 > size || o in t.emitted || o in t.aliased || !Discoverable(code, size, o, 0)
  }

  /** The first function that `o` lies strictly inside. */
  function Around(pieces: seq<Piece>, o: nat): (r: Option<nat>)
    ensures r.Some? ==> r.value < |pieces| && Inside(pieces[r.value], o)
    ensures forall i :: 0 <= i < (if r.Some? then r.value else |pieces|) ==> !Inside(pieces[i], o)
  {
    if pieces == [] then None
    else
      var before := Around(pieces[..|pieces| - 1], o);
      if before.Some? then before
      else if Inside(pieces[|pieces| - 1], o) then Some(|pieces| - 1)
      else None
  }

  /** One forced entry more: an alternate entry of the function around it, or else a
      function of its own. */
  function WithForced(code: Code, size: nat, t: Table, o: nat): (r: Table)
    requires |t.dispatch| == |t.pieces|
    ensures |r.dispatch| == |r.pieces|
  {
    if o == 0 || !Aligned(o) || o + 4 > size || o in t.emitted || o in t.aliased then t
    else match Around(t.pieces, o)
         case Some(parent) => WithAlias(t, parent, o)
         case None => if Discoverable(code, size, o, 0) then WithPiece(t, Discovered(code, o)) else t
  }

  lemma AroundIs(pieces: seq<Piece>, k: nat, o: nat)
    requires k <= |pieces| && (forall i :: 0 <= i < k ==> !Inside(pieces[i], o))
    requires k < |pieces| ==> Inside(pieces[k], o)
    ensures Around(pieces, o) == if k < |pieces| then Some(k) else None
  {
  }

  lemma ForcedIsHandled(code: Code, size: nat, t: Table, o: nat)
    requires |t.dispatch| == |t.pieces|
    ensures Handled(code, size, WithForced(code, size, t, o), o)
  {
  }

  function WithAllForced(code: Code, size: nat, t: Table, forced: seq<nat>): (r: Table)
    requires |t.dispatch| == |t.pieces|
    ensures |r.dispatch| == |r.pieces|
  {
    if forced == [] then t
    else WithForced(code, size, WithAllForced(code, size, t, forced[..|forced| - 1]), forced[|forced| - 1])
  }

  lemma HasDispatch(size: nat, t: Table)
    requires Valid(size, t)
    ensures |t.dispatch| == |t.pieces|
  {
  }

  lemma HandledStays(code: Code, size: nat, t: Table, u: Table, o: nat)
    requires Handled(code, size, t, o) && Grows(t, u)
    ensures Handled(code, size, u, o)
  {
  }

  lemma NestedMore(pieces: seq<Piece>, n: nat, j: nat, p: Piece)
    requires Nested(pieces, n) && j < |pieces| && pieces[j].start <= p.start && p.end <= pieces[j].end
    ensures Nested(pieces + [p], n)
  {
    assert Within(p, pieces);
    forall i | n <= i < |pieces + [p]| ensures Within((pieces + [p])[i], (pieces + [p])[..i]) {
      if i < |pieces| {
        assert (pieces + [p])[..i] == pieces[..i];
      } else {
        assert (pieces + [p])[..i] == pieces;
      }
    }
  }

  class Synthesizer {
    const size: nat
    const code: Code
    var t: Table

    constructor (size: nat, code: Code)
      ensures t == NOTHING && this.size == size && this.code == code
    {
      this.size, this.code := size, code;
      t := NOTHING;
    }

    /** `discover_and_add_function`. */
    method DiscoverAndAdd(entry: nat, limit: nat) returns (added: bool)
      requires Valid(size, t) && Aligned(entry)
      modifies this`t
      ensures added <==> entry !in old(t).emitted && Discoverable(code, size, entry, limit)
      ensures t == if added then WithPiece(old(t), Discovered(code, entry)) else old(t)
      ensures Valid(size, t) && Grows(old(t), t)
    {
      hide Valid, Grows, Aligned;
      if entry in t.emitted {
        GrowsNone(t);
        return false;
      }
      var found := code.discover(entry);
      if found.None? {
        GrowsNone(t);
        return false;
      }
      var end := entry + found.value;
      if found.value == 0 || end > size || !Aligned(found.value) || (limit != 0 && end > limit) {
        GrowsNone(t);
        return false;
      }
      AlignedSum(entry, found.value);
      WithPieceValid(size, t, Piece(entry, end, entry));
      t := WithPiece(t, Piece(entry, end, entry));
      added := true;
    }

    /** `add_known_size_function`: of known size, entered at `entry`. */
    method AddKnown(start: nat, n: nat, limit: nat, entry: nat) returns (added: bool)
      requires Valid(size, t) && Aligned(start) && Aligned(entry)
      modifies this`t
      ensures added <==> KnownFits(size, old(t), start, n, limit, entry)
      ensures t == if added then WithPiece(old(t), Piece(start, start + n, entry)) else old(t)
      ensures Valid(size, t) && Grows(old(t), t)
    {
      hide Valid, Grows, Aligned;
      if start in t.emitted || entry in t.emitted {
        GrowsNone(t);
        return false;
      }
      var end := start + n;
      if n == 0 || end > size || !Aligned(n) || entry < start || entry >= end || (limit != 0 && end > limit) {
        GrowsNone(t);
        return false;
      }
      AlignedSum(start, n);
      WithPieceValid(size, t, Piece(start, end, entry));
      t := WithPiece(t, Piece(start, end, entry));
      added := true;
    }

    /** `add_dispatch_alias`. */
    method AddAlias(parent: nat, offset: nat) returns (added: bool)
      requires Valid(size, t) && parent < |t.pieces|
      modifies this`t
      ensures parent < |old(t).dispatch|
      ensures added <==> offset !in old(t).emitted && offset !in old(t).aliased && Inside(old(t).pieces[parent], offset)
      ensures t == if added then WithAlias(old(t), parent, offset) else old(t)
      ensures Valid(size, t) && Grows(old(t), t)
    {
      GrowsNone(t);
      assert InBody(size, t.pieces[parent]);
      assert parent < |t.dispatch|;
      hide Valid, Grows;
      if !Aligned(offset) || offset >= size || offset in t.emitted || offset in t.aliased {
        return false;
      }
      if offset <= t.pieces[parent].start || offset >= t.pieces[parent].end {
        return false;
      }
      WithAliasValid(size, t, parent, offset);
      t := WithAlias(t, parent, offset);
      added := true;
    }

    /** `add_dispatch_label_only`. */
    method AddLabel(parent: nat, offset: nat)
      requires Valid(size, t) && parent < |t.pieces|
      modifies this`t
      ensures parent < |old(t).dispatch|
      ensures t == if offset !in old(t).emitted
              && Inside(old(t).pieces[parent], offset) then WithEntry(old(t), parent, offset) else old(t)
      ensures Valid(size, t) && Grows(old(t), t)
    {
      GrowsNone(t);
      assert InBody(size, t.pieces[parent]);
      assert parent < |t.dispatch|;
      hide Valid, Grows;
      if !Aligned(offset) || offset >= size || offset in t.emitted {
        return;
      }
      if offset <= t.pieces[parent].start || offset >= t.pieces[parent].end {
        return;
      }
      WithEntryValid(size, t, parent, offset);
      t := WithEntry(t, parent, offset);
    }

    /** `scan_gap_for_function`: the first function that can be added in a gap. */
    method ScanGap(lo: nat, hi: nat, overlap: nat) returns (added: bool)
      requires Valid(size, t)
      modifies this`t
      ensures Valid(size, t) && Grows(old(t), t)
      ensures added ==> exists p: Piece :: t == WithPiece(old(t), p) && p.start !in old(t).emitted && lo <= p.start < hi
      ensures !added ==> t == old(t) && GapDone(code, size, t, lo, hi, overlap)
    {
      hide Valid, Grows, Fits;
      GrowsNone(t);
      var first := GapStart(lo);
      var o := first;
      while o + 4 <= hi
        invariant first <= o && Aligned(o) && t == old(t)
        invariant forall x: nat :: InGap(lo, hi, x) && x < o ==>
                      !(code.prologue(x) && x !in t.emitted && Discoverable(code, size, x, hi))
      {
        if code.prologue(o) {
          added := DiscoverAndAdd(o, hi);
          if added { return; }
        }
        NextAligned(o);
        o := o + 4;
      }
      o := first;
      while o + 4 <= hi
        invariant first <= o && Aligned(o) && t == old(t)
        invariant forall x: nat :: InGap(lo, hi, x) && x < o ==>
                      !(code.fallthrough(x, hi, overlap) && x !in t.emitted && Discoverable(code, size, x, overlap))
      {
        if code.fallthrough(o, hi, overlap) {
          added := DiscoverAndAdd(o, overlap);
          if added { return; }
        }
        NextAligned(o);
        o := o + 4;
      }
      o := first;
      while o + 8 <= hi
        invariant first <= o && Aligned(o) && t == old(t)
        invariant forall x: nat :: InGap(lo, hi, x) && x < o ==>
                    !(x + 8 <= hi && code.leaf(x, first, hi).Some?
                      && KnownFits(size, t, x, code.leaf(x, first, hi).value, hi, x))
      {
        var n := code.leaf(o, first, hi);
        if n.Some? {
          added := AddKnown(o, n.value, hi, o);
          if added { return; }
        }
        NextAligned(o);
        o := o + 4;
      }
      added := false;
    }

    /** One round over the gaps between the functions, in order. */
    method FillOneGap() returns (added: bool)
      requires Valid(size, t)
      modifies this`t
      ensures Valid(size, t) && Grows(old(t), t)
      ensures added ==> exists p: Piece :: t == WithPiece(old(t), p) && p.start !in old(t).emitted
                                           && forall q :: q in old(t).pieces ==> !(q.start <= p.start < q.end)
      ensures !added ==> t == old(t) && GapsDone(code, size, t)
    {
      hide Valid, Grows, GapDone;
      var ranges := Sort(t.pieces);
      SortIs(t.pieces);
      var reach := IMPL_OFFSET;
      for k := 0 to |ranges|
        invariant t == old(t) && Valid(size, t) && reach == Reach(ranges, k)
        invariant forall n :: 0 <= n < k ==> GapDoneAt(code, size, t, ranges, n)
      {
        if ranges[k].start > reach {
          added := ScanGap(reach, ranges[k].start, ranges[k].end);
          if added {
            ghost var p: Piece :| t == WithPiece(old(t), p) && p.start !in old(t).emitted
              && reach <= p.start < ranges[k].start;
            GapIsEmpty(ranges, k, p.start);
            return;
          }
        }
        if ranges[k].end > reach {
          reach := ranges[k].end;
        }
      }
      GrowsNone(t);
      added := false;
      if reach < size {
        added := ScanGap(reach, size, size);
        if added {
          ghost var p: Piece :| t == WithPiece(old(t), p) && p.start !in old(t).emitted && reach <= p.start < size;
          GapIsEmpty(ranges, |ranges|, p.start);
        }
      }
    }

    /** Rounds over the gaps until one adds nothing. */
    method FillGaps()
      requires Valid(size, t)
      modifies this`t
      ensures Valid(size, t) && Grows(old(t), t) && GapsDone(code, size, t)
      ensures Apart(t.pieces, |old(t).pieces|)
    {
      hide Valid, GapsDone;
      var added := true;
      while added
        invariant Valid(size, t) && Grows(old(t), t) && (!added ==> GapsDone(code, size, t))
        invariant Apart(t.pieces, |old(t).pieces|)
        decreases Universe(size) - t.emitted, added
      {
        ghost var before := t;
        added := FillOneGap();
        EmittedBounded(size, t);
        GrowsOn(old(t), before, t);
        if added {
          ghost var p: Piece :| t == WithPiece(before, p) && p.start !in before.emitted
                                && forall q :: q in before.pieces ==> !(q.start <= p.start < q.end);
          assert p.start in t.emitted;
          ApartMore(before.pieces, |old(t).pieces|, p);
        }
      }
    }

    method FindBodyStart(entry: nat, lo: nat, end: nat) returns (found: nat)
      requires lo <= entry && Aligned(entry)
      ensures found == BodyStart(code, entry, lo, end, entry, entry)
    {
      hide Earlier, Aligned;
      found := entry;
      var scan := entry;
      while scan + 4 <= end && code.valid(scan)
        invariant lo <= found <= entry && Aligned(found)
        invariant BodyStart(code, entry, lo, end, scan, found) == BodyStart(code, entry, lo, end, entry, entry)
        decreases end - scan
      {
        var before := found;
        found := Earlier(code, entry, lo, scan, found);
        if code.stops(scan) {
          return;
        }
        scan := scan + 4;
      }
    }

    /** What the call that returns to `o` in the function `p`, number `parent`, adds. The
        functions from number `n` on are nested, and stay so. */
    method AddForCall(p: Piece, parent: nat, o: nat, ghost n: nat) returns (added: bool)
      requires Valid(size, t) && Lists(t, parent, p) && ReturnPoint(code, p, o) && Nested(t.pieces, n)
      modifies this`t
      ensures Valid(size, t) && Grows(old(t), t) && Nested(t.pieces, n)
      ensures added ==> Progress(old(t), t)
      ensures !added ==> t == old(t) && CallDone(code, size, t, p, o)
    {
      hide Valid, Grows, Nested, Aligned, WithAlias, Progress;
      PieceIs(size, t, parent, p);
      GrowsNone(t);
      if o in t.emitted {
        return false;
      }
      if p.end - p.start <= MAX_PARENT {
        added := DiscoverAndAdd(o, p.end);
        if added {
          NestedMore(old(t).pieces, n, parent, Discovered(code, o));
          Progresses(old(t), Discovered(code, o));
        }
      } else if code.indirect(o - 8) {
        var s := FindBodyStart(o, p.start, if p.end < o + MAX_PARENT then p.end else o + MAX_PARENT);
        if !IsTail(code, size, s, p.end) {
          return false;
        }
        added := AddKnown(s, code.discover(s).value, p.end, o);
        if added {
          NestedMore(old(t).pieces, n, parent, Piece(s, s + code.discover(s).value, o));
          Progresses(old(t), Piece(s, s + code.discover(s).value, o));
        }
      } else {
        if o + 8 > p.end || !code.resumes(o) || !IsTail(code, size, o, p.end) {
          return false;
        }
        added := AddAlias(parent, o);
        if added {
          AliasProgresses(old(t), parent, o);
        }
      }
    }

    /** The calls in one function. */
    method AddForCalls(p: Piece, parent: nat, ghost n: nat) returns (added: bool)
      requires Valid(size, t) && Lists(t, parent, p) && Nested(t.pieces, n)
      modifies this`t
      ensures Valid(size, t) && Grows(old(t), t) && Nested(t.pieces, n)
      ensures added ==> Progress(old(t), t)
      ensures !added ==> t == old(t) && CallsDone(code, size, t, p)
    {
      hide Valid, Nested, CallDone, Progress, Grows, Aligned;
      PieceIs(size, t, parent, p);
      GrowsNone(t);
      AlignedSum(p.start, 8);
      var o := p.start + 8;
      added := false;
      while o < p.end
        invariant Valid(size, t) && Grows(old(t), t) && Lists(t, parent, p) && Nested(t.pieces, n) && Aligned(o)
                  && p.start + 8 <= o
        invariant added ==> Progress(old(t), t)
        invariant !added ==> t == old(t) && forall x: nat :: ReturnPoint(code, p, x) && x < o ==>
                               CallDone(code, size, t, p, x)
      {
        if code.links(o - 8) {
          ghost var before := t;
          var more := AddForCall(p, parent, o, n);
          GrowsOn(old(t), before, t);
          StillLists(before, t, parent, p);
          if more {
            ProgressOn(old(t), before, t);
          }
          added := added || more;
        }
        NextAligned(o);
        o := o + 4;
      }
    }

    /** One round over all functions: first the small ones, then the large ones. */
    method AddOneRound(ghost n: nat) returns (added: bool)
      requires Valid(size, t) && Nested(t.pieces, n)
      modifies this`t
      ensures Valid(size, t) && Grows(old(t), t) && Nested(t.pieces, n)
      ensures added ==> Progress(old(t), t)
      ensures !added ==> t == old(t) && forall p :: p in t.pieces ==> CallsDone(code, size, t, p)
    {
      hide Valid, Nested, CallsDone, Progress, Grows, Sort;
      var ranges := Sort(t.pieces);
      SortIs(t.pieces);
      GrowsNone(t);
      added := false;
      for k := 0 to |ranges|
        invariant Valid(size, t) && Grows(old(t), t) && Nested(t.pieces, n) && (added ==> Progress(old(t), t))
        invariant !added ==> t == old(t) && forall i :: 0 <= i < k && Small(ranges[i]) ==>
                               CallsDone(code, size, t, ranges[i])
      {
        if Small(ranges[k]) {
          var more := AddForRange(ranges[k], old(t), n);
          added := added || more;
        }
      }
      for k := 0 to |ranges|
        invariant Valid(size, t) && Grows(old(t), t) && Nested(t.pieces, n) && (added ==> Progress(old(t), t))
        invariant !added ==> t == old(t) && forall i :: 0 <= i < |ranges| && (Small(ranges[i]) || i < k) ==>
                               CallsDone(code, size, t, ranges[i])
      {
        if !Small(ranges[k]) {
          var more := AddForRange(ranges[k], old(t), n);
          added := added || more;
        }
      }
    }

    /** The calls of a function that was there when the round began. */
    method AddForRange(p: Piece, ghost start: Table, ghost n: nat) returns (added: bool)
      requires Valid(size, t) && Nested(t.pieces, n) && Grows(start, t) && p in start.pieces
      modifies this`t
      ensures Valid(size, t) && Grows(start, t) && Nested(t.pieces, n)
      ensures Progress(start, old(t)) ==> Progress(start, t)
      ensures added ==> Progress(start, t)
      ensures !added ==> t == old(t) && CallsDone(code, size, t, p)
    {
      hide Valid, Nested, CallsDone, Progress, Grows;
      StillIn(start, t, p);
      Located(size, t, p);
      var parent := t.byOffset[p.start];
      added := AddForCalls(p, parent, n);
      GrowsOn(start, old(t), t);
      ProgressKept(start, old(t), t);
      if added {
        ProgressOn(start, old(t), t);
      }
    }

    /** Rounds over all calls until one adds nothing. */
    method AddContinuations(ghost n: nat)
      requires Valid(size, t) && Nested(t.pieces, n)
      modifies this`t
      ensures Valid(size, t) && Grows(old(t), t) && Nested(t.pieces, n)
      ensures forall p :: p in t.pieces ==> CallsDone(code, size, t, p)
    {
      hide Valid, Nested, CallsDone, Grows;
      GrowsNone(t);
      var added := true;
      while added
        invariant Valid(size, t) && Grows(old(t), t) && Nested(t.pieces, n)
        invariant !added ==> forall p :: p in t.pieces ==> CallsDone(code, size, t, p)
        decreases Universe(size) - t.emitted, Universe(size) - t.aliased, added
      {
        ghost var before := t;
        added := AddOneRound(n);
        GrowsOn(old(t), before, t);
        EmittedBounded(size, t);
        if added {
          assert Progress(before, t);
        }
      }
    }

    /** The address after each call becomes a dispatch entry. */
    method AddReturnLabels()
      requires Valid(size, t)
      modifies this`t
      ensures Valid(size, t) && Grows(old(t), t)
      ensures t == old(t).(dispatch := t.dispatch) && |t.dispatch| == |t.pieces|
      ensures forall i :: 0 <= i < |t.pieces| ==> Resumable(code, t, i)
    {
      hide Grows, Resumable, PiecesOk, EntriesOk;
      DispatchSize(size, t);
      GrowsNone(t);
      for i := 0 to |t.pieces|
        invariant Valid(size, t) && Grows(old(t), t) && |t.dispatch| == |t.pieces|
        invariant t == old(t).(dispatch := t.dispatch)
        invariant forall j :: 0 <= j < i ==> Resumable(code, t, j)
      {
        ghost var before := t;
        LabelReturns(i);
        GrowsOn(old(t), before, t);
        forall j | 0 <= j <= i ensures Resumable(code, t, j) {
          if j < i {
            StaysResumable(code, before, t, j);
          }
        }
      }
    }

    method LabelReturns(i: nat)
      requires Valid(size, t) && i < |t.pieces| && |t.dispatch| == |t.pieces|
      modifies this`t
      ensures Valid(size, t) && Grows(old(t), t)
      ensures t == old(t).(dispatch := t.dispatch) && |t.dispatch| == |t.pieces|
      ensures Resumable(code, t, i)
    {
      hide Valid, Grows;
      PieceIs(size, t, i, t.pieces[i]);
      hide Aligned;
      var p := t.pieces[i];
      GrowsNone(t);
      AlignedSum(p.start, 8);
      var o := p.start + 8;
      while o < p.end
        invariant Valid(size, t) && Grows(old(t), t) && |t.dispatch| == |t.pieces| && Aligned(o) && p.start + 8 <= o
        invariant t == old(t).(dispatch := t.dispatch)
        invariant forall x: nat :: ReturnPoint(code, p, x) && x < o ==> x in t.emitted || x in t.dispatch[i]
      {
        if code.links(o - 8) {
          ghost var before := t;
          AddLabel(i, o);
          GrowsOn(old(t), before, t);
        }
        NextAligned(o);
        o := o + 4;
      }
    }

    /** Entries that the analysis cannot see are placed: inside the first function that
        contains them, or as functions of their own. */
    method PlaceForced(forced: seq<nat>)
      requires Valid(size, t)
      modifies this`t
      ensures Valid(size, t) && Grows(old(t), t)
      ensures forall k :: 0 <= k < |forced| ==> Handled(code, size, t, forced[k])
      ensures |old(t).dispatch| == |old(t).pieces| && t == WithAllForced(code, size, old(t), forced)
    {
      HasDispatch(size, t);
      hide Valid, Grows, Handled, WithForced;
      GrowsNone(t);
      for k := 0 to |forced|
        invariant Valid(size, t) && Grows(old(t), t)
        invariant forall j :: 0 <= j < k ==> Handled(code, size, t, forced[j])
        invariant t == WithAllForced(code, size, old(t), forced[..k])
      {
        ghost var before := t;
        PlaceOne(forced[k]);
        assert forced[..k + 1][..k] == forced[..k] && forced[..k + 1][k] == forced[k];
        GrowsOn(old(t), before, t);
        forall j | 0 <= j <= k ensures Handled(code, size, t, forced[j]) {
          if j < k {
            HandledStays(code, size, before, t, forced[j]);
          }
        }
      }
      assert forced[..|forced|] == forced;
    }

    static method FindAround(pieces: seq<Piece>, o: nat) returns (parent: Option<nat>)
      requires Aligned(o)
      ensures parent == Around(pieces, o)
    {
      hide Around, Aligned;
      var k := 0;
      while k < |pieces| && !(pieces[k].start < o < pieces[k].end)
        invariant k <= |pieces| && forall i :: 0 <= i < k ==> !Inside(pieces[i], o)
      {
        k := k + 1;
      }
      AroundIs(pieces, k, o);
      return if k < |pieces| then Some(k) else None;
    }

    method PlaceOne(o: nat)
      requires Valid(size, t)
      modifies this`t
      ensures Valid(size, t) && Grows(old(t), t) && Handled(code, size, t, o)
      ensures |old(t).dispatch| == |old(t).pieces| && t == WithForced(code, size, old(t), o)
    {
      HasDispatch(size, t);
      hide Valid, Grows, Handled, WithAlias, WithPiece, Discoverable, Discovered, Around, Aligned;
      GrowsNone(t);
      ForcedIsHandled(code, size, t, o);
      if o == 0 || !Aligned(o) || o + 4 > size || o in t.emitted || o in t.aliased {
        return;
      }
      var parent := FindAround(t.pieces, o);
      var added;
      if parent.Some? {
        added := AddAlias(parent.value, o);
      } else {
        added := DiscoverAndAdd(o, 0);
      }
    }

    /** The functions of a fragment. It fails exactly if a seed is not a function. */
    method Synthesize(seeds: seq<nat>, forced: seq<nat>) returns (ok: bool)
      requires t == NOTHING && forall k :: 0 <= k < |seeds| ==> Aligned(seeds[k])
      requires forall j, k :: 0 <= j < k < |seeds| ==> seeds[j] != seeds[k]
      modifies this`t
      ensures Valid(size, t)
      ensures ok <==> forall k :: 0 <= k < |seeds| ==> Discoverable(code, size, seeds[k], 0)
      ensures ok ==> |seeds| <= |t.pieces| && forall k :: 0 <= k < |seeds| ==> t.pieces[k] == Discovered(code, seeds[k])
      ensures ok ==> forall k :: 0 <= k < |forced| ==> Handled(code, size, t, forced[k])
      ensures ok ==> exists gaps, tails ::
                       |seeds| <= gaps <= tails <= |t.pieces| && Phases(code, t, |seeds|, gaps, tails)
    {
      hide Valid, Grows, Nested, GapsDone, CallsDone, Handled, Resumable, Fits;
      NothingValid(size);
      for k := 0 to |seeds|
        invariant Valid(size, t) && |t.pieces| == k && t.emitted == set x | x in seeds[..k]
        invariant forall j :: 0 <= j < k ==>
                      Discoverable(code, size, seeds[j], 0) && t.pieces[j] == Discovered(code, seeds[j])
      {
        assert seeds[..k + 1] == seeds[..k] + [seeds[k]];
        ok := DiscoverAndAdd(seeds[k], 0);
        if !ok {
          return;
        }
      }
      ok := true;
      assert seeds[..|seeds|] == seeds;
      ghost var t0 := t;
      FillGaps();
      ghost var t1 := t;
      NestedNone(t.pieces);
      AddContinuations(|t.pieces|);
      ghost var t2 := t;
      AddReturnLabels();
      ghost var t3 := t;
      PlaceForced(forced);
      PhasesDone(code, size, t0, t1, t2, t3, t);
      PrefixKept(t0, t);
    }
  }

  /** How the functions came about: seeds, functions in gaps, tails of these, and then
      what was forced. */
  ghost predicate Phases(code: Code, t: Table, seeds: nat, gaps: nat, tails: nat)
    requires seeds <= gaps <= tails <= |t.pieces|
  {
    && Apart(t.pieces[..gaps], seeds) && Nested(t.pieces[..tails], gaps)
    && |t.dispatch| == |t.pieces| && forall i :: 0 <= i < tails ==> Resumable(code, t, i)
  }

  lemma PhasesDone(code: Code, size: nat, t0: Table, t1: Table, t2: Table, t3: Table, t: Table)
    requires Valid(size, t) && Grows(t0, t1) && Grows(t1, t2) && Grows(t2, t3) && Grows(t3, t)
    requires Apart(t1.pieces, |t0.pieces|) && Nested(t2.pieces, |t1.pieces|) && t3 == t2.(dispatch := t3.dispatch)
    requires |t3.dispatch| == |t3.pieces| && forall i :: 0 <= i < |t3.pieces| ==> Resumable(code, t3, i)
    ensures Grows(t0, t)
    ensures |t0.pieces| <= |t1.pieces| <= |t2.pieces| <= |t.pieces|
            && Phases(code, t, |t0.pieces|, |t1.pieces|, |t2.pieces|)
  {
    hide Apart, Nested, Resumable;
    DispatchSize(size, t);
    GrowsOn(t0, t1, t2);
    GrowsOn(t0, t2, t3);
    GrowsOn(t0, t3, t);
    assert t.pieces[..|t1.pieces|] == t1.pieces && t.pieces[..|t2.pieces|] == t2.pieces;
    forall i | 0 <= i < |t2.pieces| ensures Resumable(code, t, i) {
      StaysResumable(code, t3, t, i);
    }
  }

  lemma PrefixKept(t: Table, u: Table)
    requires Grows(t, u)
    ensures t.pieces <= u.pieces
  {
  }

  lemma NothingValid(size: nat)
    ensures Valid(size, NOTHING)
  {
  }

  lemma NestedNone(pieces: seq<Piece>)
    ensures Nested(pieces, |pieces|)
  {
  }

  lemma DispatchSize(size: nat, t: Table)
    requires Valid(size, t)
    ensures |t.dispatch| == |t.pieces|
  {
  }

  lemma StaysResumable(code: Code, t: Table, u: Table, i: nat)
    requires Grows(t, u) && i < |t.pieces| && i < |t.dispatch| && Resumable(code, t, i)
    ensures i < |u.pieces| && i < |u.dispatch| && Resumable(code, u, i)
  {
    assert u.pieces[i] == t.pieces[i];
  }

  lemma StillIn(t: Table, u: Table, p: Piece)
    requires Grows(t, u) && p in t.pieces
    ensures p in u.pieces
  {
  }

  lemma Located(size: nat, t: Table, p: Piece)
    requires Valid(size, t) && p in t.pieces
    ensures p.start in t.byOffset && Lists(t, t.byOffset[p.start], p)
  {
  }

  lemma ProgressKept(t: Table, u: Table, v: Table)
    requires Grows(u, v)
    ensures Progress(t, u) ==> Progress(t, v)
  {
  }

  predicate Lists(t: Table, i: nat, p: Piece) {
    i < |t.pieces| && t.pieces[i] == p
  }

  lemma PieceIs(size: nat, t: Table, i: nat, p: Piece)
    requires Valid(size, t) && Lists(t, i, p)
    ensures InBody(size, p) && p.start in t.byOffset && t.byOffset[p.start] == i
  {
  }

  /** Another offset is emitted, or else another alias is known. */
  predicate Progress(t: Table, u: Table) {
    t.emitted < u.emitted || (t.emitted == u.emitted && t.aliased < u.aliased)
  }

  lemma Progresses(t: Table, p: Piece)
    requires p.entry !in t.emitted
    ensures Progress(t, WithPiece(t, p))
  {
    assert p.entry in WithPiece(t, p).emitted;
  }

  lemma AliasProgresses(t: Table, parent: nat, offset: nat)
    requires parent < |t.dispatch| && offset !in t.aliased
    ensures Progress(t, WithAlias(t, parent, offset)) && WithAlias(t, parent, offset).pieces == t.pieces
  {
    assert offset in WithAlias(t, parent, offset).aliased;
  }

  lemma ProgressOn(t: Table, u: Table, v: Table)
    requires Grows(t, u) && Progress(u, v)
    ensures Progress(t, v)
  {
  }

  lemma StillLists(t: Table, u: Table, i: nat, p: Piece)
    requires Lists(t, i, p) && Grows(t, u)
    ensures Lists(u, i, p)
  {
  }

  lemma ApartMore(pieces: seq<Piece>, n: nat, p: Piece)
    requires Apart(pieces, n) && forall q :: q in pieces ==> !(q.start <= p.start < q.end)
    ensures Apart(pieces + [p], n)
  {
    forall i, j | n <= i < |pieces + [p]| && 0 <= j < i
      ensures !((pieces + [p])[j].start <= (pieces + [p])[i].start < (pieces + [p])[j].end)
    {
      if i == |pieces| {
        assert (pieces + [p])[j] == pieces[j] && pieces[j] in pieces;
      }
    }
  }

  lemma GrowsNone(t: Table)
    ensures Grows(t, t)
  {
  }

  /** Of four offsets in a row, one is aligned. */
  lemma NextAligned(o: nat)
    requires Aligned(o)
    ensures Aligned(o + 4) && forall x: nat :: Aligned(x) && x < o + 4 ==> x <= o
  {
  }
}
