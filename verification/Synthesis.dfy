/** Finding the functions of a code fragment: seeds, functions in the gaps between them,
    continuations after calls, and alternate entries into the functions found. */
module Synthesis {
  import opened Machine

  /** Where the first function of a fragment can be, after its header. */
  const IMPL_OFFSET := 0x20

  /** Above this size, a function gets aliases instead of copies of its tails. */
  const MAX_PARENT := 0x800

  predicate Aligned(x: int) {
    x % 4 == 0
  }

  lemma AlignedSum(x: int, y: int)
    requires Aligned(x) && Aligned(y)
    ensures Aligned(x + y)
  {
  }

  function AlignUp4(x: nat): (r: nat)
    ensures x <= r < x + 4 && Aligned(r)
  {
    (x + 3) / 4 * 4
  }

  /** A function covers the bytes from `start` to `end`; `entry` is where it is entered. */
  datatype Piece = Piece(start: nat, end: nat, entry: nat)

  /** An alternate entry into the function `parent`. */
  datatype Alias = Alias(offset: nat, parent: nat)

  /** What is read off the bytes of the fragment at an offset: how large the function there
      is, and what it looks like. */
  datatype Code = Code(
    discover: nat -> Option<nat>,
    prologue: nat -> bool, fallthrough: (nat, nat, nat) -> bool, leaf: (nat, nat, nat) -> Option<nat>,
    links: nat -> bool, indirect: nat -> bool, resumes: nat -> bool,
    valid: nat -> bool, branchTo: nat -> Option<int>, stops: nat -> bool, isReturn: nat -> bool)

  datatype Table = Table(pieces: seq<Piece>, emitted: set<nat>, byOffset: map<nat, nat>,
                         aliases: seq<Alias>, aliased: set<nat>, dispatch: seq<set<nat>>)

  const NOTHING := Table([], {}, map[], [], {}, [])

  // ----- The invariant -----

  predicate InBody(size: nat, p: Piece) {
    && p.start <= p.entry < p.end <= size && Aligned(p.start) && Aligned(p.entry) && Aligned(p.end)
  }

  predicate Inside(p: Piece, offset: nat) {
    p.start < offset < p.end && Aligned(offset)
  }

  predicate Owned(t: Table, x: nat) {
    exists i :: 0 <= i < |t.pieces| && (t.pieces[i].start == x || t.pieces[i].entry == x)
  }

  predicate AliasOk(t: Table, a: Alias) {
    && a.parent < |t.pieces| && |t.dispatch| == |t.pieces| && Inside(t.pieces[a.parent], a.offset)
    && a.offset in t.dispatch[a.parent] && a.offset in t.aliased
  }

  predicate PiecesOk(size: nat, t: Table) {
    && (forall i :: 0 <= i < |t.pieces| ==> InBody(size, t.pieces[i]))
    && (forall i :: 0 <= i < |t.pieces| ==> t.pieces[i].start in t.emitted && t.pieces[i].entry in t.emitted)
    && (forall x :: x in t.emitted ==> Owned(t, x))
    && (forall i :: 0 <= i < |t.pieces| ==> t.pieces[i].start in t.byOffset && t.byOffset[t.pieces[i].start] == i)
    && (forall x :: x in t.byOffset ==> t.byOffset[x] < |t.pieces| && t.pieces[t.byOffset[x]].start == x)
  }

  predicate EntriesOk(t: Table) {
    && |t.dispatch| == |t.pieces|
    && (forall i, d :: 0 <= i < |t.pieces| && d in t.dispatch[i] ==> Inside(t.pieces[i], d))
    && (forall k :: 0 <= k < |t.aliases| ==> AliasOk(t, t.aliases[k]))
    && (forall x :: x in t.aliased ==> Named(t, x))
    && (forall j, k :: 0 <= j < k < |t.aliases| ==> t.aliases[j].offset != t.aliases[k].offset)
  }

  predicate Named(t: Table, x: nat) {
    exists k :: 0 <= k < |t.aliases| && t.aliases[k].offset == x
  }

  /** Every function lies in the body and no two begin at one offset; every alias lies
      strictly inside its function and is one of its dispatch entries. */
  predicate Valid(size: nat, t: Table) {
    PiecesOk(size, t) && EntriesOk(t)
  }

  /** Nothing that was found is lost or moved. */
  predicate Grows(t: Table, u: Table) {
    && t.pieces <= u.pieces && t.emitted <= u.emitted && t.aliases <= u.aliases && t.aliased <= u.aliased
    && (|t.dispatch| <= |u.dispatch| && forall i :: 0 <= i < |t.dispatch| ==> t.dispatch[i] <= u.dispatch[i])
  }

  // ----- One function more, one entry more -----

  function WithPiece(t: Table, p: Piece): Table {
    t.(pieces := t.pieces + [p], emitted := t.emitted + {p.start, p.entry},
       byOffset := t.byOffset[p.start := |t.pieces|],
       dispatch := t.dispatch + [{}])
  }

  lemma WithPieceValid(size: nat, t: Table, p: Piece)
    requires Valid(size, t) && InBody(size, p) && p.start !in t.emitted && p.entry !in t.emitted
    ensures Valid(size, WithPiece(t, p)) && Grows(t, WithPiece(t, p))
  {
    hide PiecesOk, EntriesOk, InBody;
    WithPiecePieces(size, t, p);
    WithPieceEntries(t, p);
  }

  lemma WithPiecePieces(size: nat, t: Table, p: Piece)
    requires PiecesOk(size, t) && InBody(size, p) && p.start !in t.emitted && p.entry !in t.emitted
    ensures PiecesOk(size, WithPiece(t, p))
  {
    hide InBody;
    var u := WithPiece(t, p);
    assert u.pieces[|t.pieces|] == p;
    forall x | x in u.emitted ensures Owned(u, x) {
      if x in t.emitted {
        var i :| 0 <= i < |t.pieces| && (t.pieces[i].start == x || t.pieces[i].entry == x);
        assert u.pieces[i] == t.pieces[i];
      }
    }
  }

  lemma WithPieceEntries(t: Table, p: Piece)
    requires EntriesOk(t)
    ensures EntriesOk(WithPiece(t, p)) && Grows(t, WithPiece(t, p))
  {
    hide Inside;
    var u := WithPiece(t, p);
    forall k | 0 <= k < |u.aliases| ensures AliasOk(u, u.aliases[k]) {
      assert AliasOk(t, t.aliases[k]);
    }
    forall x | x in u.aliased ensures Named(u, x) {
      assert Named(t, x);
    }
  }

  /** A dispatch entry more, without an alias. */
  function WithEntry(t: Table, parent: nat, offset: nat): Table
    requires parent < |t.dispatch|
  {
    t.(dispatch := t.dispatch[parent := t.dispatch[parent] + {offset}])
  }

  lemma WithEntryValid(size: nat, t: Table, parent: nat, offset: nat)
    requires Valid(size, t) && parent < |t.pieces| && Inside(t.pieces[parent], offset)
    ensures Valid(size, WithEntry(t, parent, offset)) && Grows(t, WithEntry(t, parent, offset))
  {
    hide PiecesOk, Inside;
    var u := WithEntry(t, parent, offset);
    SamePieces(size, t, u);
    forall k | 0 <= k < |u.aliases| ensures AliasOk(u, u.aliases[k]) {
      assert AliasOk(t, t.aliases[k]);
    }
    forall x | x in u.aliased ensures Named(u, x) {
      assert Named(t, x);
    }
  }

  lemma SamePieces(size: nat, t: Table, u: Table)
    requires PiecesOk(size, t) && u.pieces == t.pieces && u.emitted == t.emitted && u.byOffset == t.byOffset
    ensures PiecesOk(size, u)
  {
    hide InBody;
    forall x | x in u.emitted ensures Owned(u, x) {
      assert Owned(t, x);
    }
  }

  function WithAlias(t: Table, parent: nat, offset: nat): Table
    requires parent < |t.dispatch|
  {
    WithEntry(t, parent, offset).(aliases := t.aliases + [Alias(offset, parent)], aliased := t.aliased + {offset})
  }

  lemma WithAliasValid(size: nat, t: Table, parent: nat, offset: nat)
    requires Valid(size, t) && parent < |t.pieces| && Inside(t.pieces[parent], offset) && offset !in t.aliased
    ensures Valid(size, WithAlias(t, parent, offset)) && Grows(t, WithAlias(t, parent, offset))
  {
    assert parent < |t.dispatch|;
    hide PiecesOk, EntriesOk, Inside;
    WithEntryValid(size, t, parent, offset);
    SamePieces(size, t, WithAlias(t, parent, offset));
    OneMoreAlias(WithEntry(t, parent, offset), parent, offset);
  }

  /** An entry becomes an alias as well. */
  lemma OneMoreAlias(e: Table, parent: nat, offset: nat)
    requires EntriesOk(e) && parent < |e.pieces| && Inside(e.pieces[parent], offset) && offset in e.dispatch[parent]
             && offset !in e.aliased
    ensures EntriesOk(e.(aliases := e.aliases + [Alias(offset, parent)], aliased := e.aliased + {offset}))
  {
    hide Inside;
    var u := e.(aliases := e.aliases + [Alias(offset, parent)], aliased := e.aliased + {offset});
    assert u.aliases[|e.aliases|] == Alias(offset, parent);
    forall k | 0 <= k < |u.aliases| ensures AliasOk(u, u.aliases[k]) {
      if k < |e.aliases| {
        assert AliasOk(e, e.aliases[k]);
      }
    }
    forall k | 0 <= k < |e.aliases| ensures e.aliases[k].offset != offset {
      assert AliasOk(e, e.aliases[k]);
    }
    forall x | x in u.aliased ensures Named(u, x) {
      if x in e.aliased {
        assert Named(e, x);
        var k :| 0 <= k < |e.aliases| && e.aliases[k].offset == x;
        assert u.aliases[k].offset == x;
      }
    }
  }

  lemma GrowsOn(t: Table, u: Table, v: Table)
    requires Grows(t, u) && Grows(u, v)
    ensures Grows(t, v)
  {
  }

  /** All that is emitted or aliased lies in the body. */
  function Universe(size: nat): (r: set<nat>)
    ensures forall x: nat :: x in r <==> x < size
  {
    if size == 0 then {} else Universe(size - 1) + {size - 1}
  }

  lemma EmittedBounded(size: nat, t: Table)
    requires Valid(size, t)
    ensures t.emitted <= Universe(size) && t.aliased <= Universe(size)
  {
    forall x | x in t.emitted ensures x in Universe(size) {
      assert Owned(t, x);
      var i :| 0 <= i < |t.pieces| && (t.pieces[i].start == x || t.pieces[i].entry == x);
      assert InBody(size, t.pieces[i]);
    }
    forall x | x in t.aliased ensures x in Universe(size) {
      assert Named(t, x);
      var k :| 0 <= k < |t.aliases| && t.aliases[k].offset == x;
      assert AliasOk(t, t.aliases[k]) && InBody(size, t.pieces[t.aliases[k].parent]);
    }
  }

  // ----- What can be added -----

  /** A function of `n` bytes at `start` fits; a `limit` of 0 is none. */
  predicate Fits(size: nat, start: nat, n: nat, limit: nat) {
    n != 0 && Aligned(n) && start + n <= size && (limit == 0 || start + n <= limit)
  }

  predicate Discoverable(code: Code, size: nat, start: nat, limit: nat) {
    code.discover(start).Some? && Fits(size, start, code.discover(start).value, limit)
  }

  function Discovered(code: Code, start: nat): Piece
    requires code.discover(start).Some?
  {
    Piece(start, start + code.discover(start).value, start)
  }

  predicate KnownFits(size: nat, t: Table, start: nat, n: nat, limit: nat, entry: nat) {
    start !in t.emitted && entry !in t.emitted && Fits(size, start, n, limit) && start <= entry < start + n
  }

  /** An offset that is looked at in a gap. */
  predicate InGap(lo: nat, hi: nat, o: nat) {
    AlignUp4(if lo < IMPL_OFFSET then IMPL_OFFSET else lo) <= o && o + 4 <= hi && Aligned(o)
  }

  /** Nothing in the gap can be added as a function. */
  ghost predicate GapDone(code: Code, size: nat, t: Table, lo: nat, hi: nat, overlap: nat) {
    forall o: nat :: InGap(lo, hi, o) ==>
      && !(code.prologue(o) && o !in t.emitted && Discoverable(code, size, o, hi))
      && !(code.fallthrough(o, hi, overlap) && o !in t.emitted && Discoverable(code, size, o, overlap))
      && !(o + 8 <= hi && code.leaf(o, GapStart(lo), hi).Some?
           && KnownFits(size, t, o, code.leaf(o, GapStart(lo), hi).value, hi, o))
  }

  function GapStart(lo: nat): nat {
    AlignUp4(if lo < IMPL_OFFSET then IMPL_OFFSET else lo)
  }

  // ----- Ranges in order -----

  predicate Sorted(s: seq<Piece>) {
    forall i, j :: 0 <= i < j < |s| ==> s[i].start <= s[j].start
  }

  function Insert(s: seq<Piece>, p: Piece): seq<Piece> {
    if s == [] || s[|s| - 1].start <= p.start then s + [p] else Insert(s[..|s| - 1], p) + [s[|s| - 1]]
  }

  function Sort(s: seq<Piece>): seq<Piece> {
    if s == [] then [] else Insert(Sort(s[..|s| - 1]), s[|s| - 1])
  }

  lemma {:induction false} InsertIs(s: seq<Piece>, p: Piece)
    requires Sorted(s)
    ensures Sorted(Insert(s, p)) && |Insert(s, p)| == |s| + 1
    ensures forall x :: x in Insert(s, p) <==> x in s || x == p
  {
    if s != [] && s[|s| - 1].start > p.start {
      InsertIs(s[..|s| - 1], p);
      assert s == s[..|s| - 1] + [s[|s| - 1]];
      var before := Insert(s[..|s| - 1], p);
      forall i | 0 <= i < |before| ensures before[i].start <= s[|s| - 1].start {
        assert before[i] in before;
      }
    }
  }

  lemma {:induction false} SortIs(s: seq<Piece>)
    ensures Sorted(Sort(s)) && |Sort(s)| == |s| && forall x :: x in Sort(s) <==> x in s
  {
    if s != [] {
      SortIs(s[..|s| - 1]);
      InsertIs(Sort(s[..|s| - 1]), s[|s| - 1]);
      assert s == s[..|s| - 1] + [s[|s| - 1]];
    }
  }

  /** Up to where the first `n` ranges leave no gap to look at. */
  function Reach(ranges: seq<Piece>, n: nat): nat
    requires n <= |ranges|
  {
    if n == 0 then IMPL_OFFSET
    else if ranges[n - 1].end > Reach(ranges, n - 1) then ranges[n - 1].end else Reach(ranges, n - 1)
  }

  lemma {:induction false} ReachCovers(ranges: seq<Piece>, n: nat)
    requires n <= |ranges|
    ensures forall i :: 0 <= i < n ==> ranges[i].end <= Reach(ranges, n)
  {
    if n > 0 {
      ReachCovers(ranges, n - 1);
    }
  }

  /** Before range `n`, and at the end, nothing can be added in the gap. */
  ghost predicate GapDoneAt(code: Code, size: nat, t: Table, ranges: seq<Piece>, n: nat)
    requires n <= |ranges|
  {
    var lo := Reach(ranges, n);
    if n < |ranges| then ranges[n].start > lo ==> GapDone(code, size, t, lo, ranges[n].start, ranges[n].end)
    else lo < size ==> GapDone(code, size, t, lo, size, size)
  }

  ghost predicate GapsDone(code: Code, size: nat, t: Table) {
    SortIs(t.pieces);
    forall n :: 0 <= n <= |t.pieces| ==> GapDoneAt(code, size, t, Sort(t.pieces), n)
  }

  /** Each function from number `n` on begins where none of the earlier ones lies. */
  predicate Apart(pieces: seq<Piece>, n: nat) {
    forall i, j :: n <= i < |pieces| && 0 <= j < i ==> !(pieces[j].start <= pieces[i].start < pieces[j].end)
  }

  /** Between two neighbours in order, and past the last, lies no function. */
  lemma GapIsEmpty(ranges: seq<Piece>, n: nat, o: nat)
    requires Sorted(ranges) && n <= |ranges| && Reach(ranges, n) <= o && (n < |ranges| ==> o < ranges[n].start)
    ensures forall i :: 0 <= i < |ranges| ==> !(ranges[i].start <= o < ranges[i].end)
  {
    ReachCovers(ranges, n);
  }
}
