/** Labels in the JIT back end: a jump to a label that is not there yet is remembered
    and bound when the label is emitted; switch tables are bound when their function
    ends, and calls within the batch when the batch is finished. */
module LiveLabels {
  import opened Machine

  /** What has been emitted, in order. A position is an index into this history. */
  datatype Op =
    | FunctionStart(index: nat)
    | FunctionEnd
    | LabelHere(name: string)
    | JumpTo(name: string)
    | SwitchOn(names: seq<string>)
    | CallTo(index: nat)

  // ----- What ought to be bound to what -----

  /** The first position of the function that contains position `i`. */
  function From(ops: seq<Op>, i: nat): (r: nat)
    requires i <= |ops|
    ensures r <= i && forall k :: r <= k < i ==> !ops[k].FunctionEnd?
    ensures r > 0 ==> ops[r - 1].FunctionEnd?
  {
    if i == 0 || ops[i - 1].FunctionEnd? then i else From(ops, i - 1)
  }

  /** One past its last position: its end, or the end of the history. */
  function To(ops: seq<Op>, i: nat): (r: nat)
    requires i <= |ops|
    ensures i <= r <= |ops| && forall k :: i <= k < r ==> !ops[k].FunctionEnd?
    ensures r < |ops| ==> ops[r].FunctionEnd?
    decreases |ops| - i
  {
    if i == |ops| || ops[i].FunctionEnd? then i else To(ops, i + 1)
  }

  /** The first label of that name in a range. */
  function First(ops: seq<Op>, start: nat, end: nat, name: string): (r: Option<nat>)
    requires start <= end <= |ops|
    ensures r.Some? ==> start <= r.value < end && ops[r.value] == LabelHere(name)
    ensures r.Some? ==> forall k :: start <= k < r.value ==> ops[k] != LabelHere(name)
    ensures r.None? ==> forall k :: start <= k < end ==> ops[k] != LabelHere(name)
    decreases end - start
  {
    if start == end then None else if ops[start] == LabelHere(name) then Some(start)
      else First(ops, start + 1, end, name)
  }

  /** Where a jump at position `i` to `name` goes: to the first such label of its function. */
  function Destination(ops: seq<Op>, i: nat, name: string): Option<nat>
    requires i <= |ops|
  {
    First(ops, From(ops, i), To(ops, i), name)
  }

  /** The last start of function `index`. */
  function Entry(ops: seq<Op>, index: nat): Option<nat> {
    if ops == [] then None
    else if ops[|ops| - 1] == FunctionStart(index) then Some(|ops| - 1)
    else Entry(ops[..|ops| - 1], index)
  }

  /** The switches of a range, in order. */
  function SwitchesIn(ops: seq<Op>, start: nat, end: nat): seq<seq<string>>
    requires start <= end <= |ops|
  {
    if start == end then []
    else SwitchesIn(ops, start, end - 1) + if ops[end - 1].SwitchOn? then [ops[end - 1].names] else []
  }

  // ----- Extending the history -----

  lemma {:induction false} FromKept(ops: seq<Op>, op: Op, i: nat)
    requires i <= |ops|
    ensures From(ops + [op], i) == From(ops, i)
    decreases i
  {
    if i > 0 && !ops[i - 1].FunctionEnd? {
      FromKept(ops, op, i - 1);
    }
  }

  lemma {:induction false} ToClosed(ops: seq<Op>, op: Op, i: nat)
    requires i <= |ops|
    ensures To(ops, i) < |ops| ==> To(ops + [op], i) == To(ops, i)
    ensures To(ops, i) == |ops| ==> To(ops + [op], i) == if op.FunctionEnd? then |ops| else |ops| + 1
    decreases |ops| - i
  {
    if i < |ops| && !ops[i].FunctionEnd? {
      ToClosed(ops, op, i + 1);
    }
  }

  lemma {:induction false} FirstKept(ops: seq<Op>, op: Op, start: nat, end: nat, name: string)
    requires start <= end <= |ops|
    ensures First(ops + [op], start, end, name) == First(ops, start, end, name)
    decreases end - start
  {
    if start < end {
      FirstKept(ops, op, start + 1, end, name);
    }
  }

  lemma {:induction false} FirstGrows(ops: seq<Op>, start: nat, end: nat, name: string)
    requires start <= end < |ops|
    ensures First(ops, start, end + 1, name)
            == if First(ops, start, end, name).Some? then First(ops, start, end, name)
               else if ops[end] == LabelHere(name) then Some(end) else None
    decreases end - start
  {
    if start < end {
      FirstGrows(ops, start + 1, end, name);
    }
  }

  /** How a new emission changes where a jump goes: only a label that was missing, in
      the function being emitted, can. */
  lemma DestinationGrows(ops: seq<Op>, op: Op, i: nat, name: string)
    requires i <= |ops|
    ensures Destination(ops + [op], i, name)
            == if Destination(ops, i, name) == None && To(ops, i) == |ops| && op == LabelHere(name) then Some(|ops|)
               else Destination(ops, i, name)
  {
    FromKept(ops, op, i);
    ToClosed(ops, op, i);
    var start, end := From(ops, i), To(ops, i);
    FirstKept(ops, op, start, end, name);
    if end == |ops| && !op.FunctionEnd? {
      FirstGrows(ops + [op], start, end, name);
    }
  }

  /** Positions of the function being emitted go to the end of the history. */
  lemma {:induction false} OpenIsCurrent(ops: seq<Op>, i: nat)
    requires i <= |ops|
    ensures To(ops, i) == |ops| <==> i >= From(ops, |ops|)
    ensures i >= From(ops, |ops|) ==> From(ops, i) == From(ops, |ops|)
  {
    var s := From(ops, |ops|);
    if i >= s {
      SameFrom(ops, i, |ops|);
    } else {
      assert ops[s - 1].FunctionEnd?;
    }
  }

  lemma {:induction false} SameFrom(ops: seq<Op>, i: nat, n: nat)
    requires n <= |ops| && From(ops, n) <= i <= n
    ensures From(ops, i) == From(ops, n)
    decreases n
  {
    if i < n {
      SameFrom(ops, i, n - 1);
    }
  }

  // ----- Whether a batch is well formed -----

  /** Every jump and every switch entry of the function that ends at `e` has a label in it. */
  ghost predicate FunctionOk(ops: seq<Op>, e: nat)
    requires e <= |ops|
  {
    && (forall i :: From(ops, e) <= i < e && ops[i].JumpTo? ==> First(ops, From(ops, e), e, ops[i].name).Some?)
    && SwitchesOk(ops, From(ops, e), e, SwitchesIn(ops, From(ops, e), e))
  }

  ghost predicate SwitchesOk(ops: seq<Op>, start: nat, end: nat, switches: seq<seq<string>>)
    requires start <= end <= |ops|
  {
    forall k, j :: 0 <= k < |switches| && 0 <= j < |switches[k]| ==> First(ops, start, end, switches[k][j]).Some?
  }

  ghost predicate Malformed(ops: seq<Op>, n: nat)
    requires n <= |ops|
  {
    n > 0 && (Malformed(ops, n - 1) || (ops[n - 1].FunctionEnd? && !FunctionOk(ops, n - 1)))
  }

  function LinkAll(ops: seq<Op>, start: nat, end: nat, switches: seq<seq<string>>): (r: seq<seq<Option<nat>>>)
    requires start <= end <= |ops|
    ensures |r| == |switches| && forall k :: 0 <= k < |r| ==> r[k] == LinkOne(ops, start, end, switches[k])
  {
    seq(|switches|, k requires 0 <= k < |switches| => LinkOne(ops, start, end, switches[k]))
  }

  function LinkOne(ops: seq<Op>, start: nat, end: nat, names: seq<string>): (r: seq<Option<nat>>)
    requires start <= end <= |ops|
    ensures |r| == |names| && forall k :: 0 <= k < |names| ==> r[k] == First(ops, start, end, names[k])
  {
    seq(|names|, k requires 0 <= k < |names| => First(ops, start, end, names[k]))
  }

  /** The tables of all functions that have ended before `n`. */
  ghost function TablesOf(ops: seq<Op>, n: nat): seq<seq<Option<nat>>>
    requires n <= |ops|
  {
    if n == 0 then []
    else TablesOf(ops, n - 1)
         + if ops[n - 1].FunctionEnd?
           then LinkAll(ops, From(ops, n - 1), n - 1, SwitchesIn(ops, From(ops, n - 1), n - 1)) else []
  }

  lemma {:induction false} SwitchesKept(ops: seq<Op>, op: Op, start: nat, end: nat)
    requires start <= end <= |ops|
    ensures SwitchesIn(ops + [op], start, end) == SwitchesIn(ops, start, end)
    decreases end - start
  {
    if start < end {
      SwitchesKept(ops, op, start, end - 1);
    }
  }

  lemma LinksKept(ops: seq<Op>, op: Op, start: nat, end: nat, switches: seq<seq<string>>)
    requires start <= end <= |ops|
    ensures SwitchesOk(ops + [op], start, end, switches) == SwitchesOk(ops, start, end, switches)
    ensures LinkAll(ops + [op], start, end, switches) == LinkAll(ops, start, end, switches)
  {
    hide First;
    forall name: string
      ensures First(ops + [op], start, end, name) == First(ops, start, end, name)
    {
      FirstKept(ops, op, start, end, name);
    }
    forall k | 0 <= k < |switches|
      ensures LinkOne(ops + [op], start, end, switches[k]) == LinkOne(ops, start, end, switches[k])
    {
    }
  }

  lemma FunctionKept(ops: seq<Op>, op: Op, e: nat)
    requires e <= |ops|
    ensures FunctionOk(ops + [op], e) == FunctionOk(ops, e)
    ensures From(ops + [op], e) == From(ops, e)
    ensures LinkAll(ops + [op], From(ops, e), e, SwitchesIn(ops, From(ops, e), e))
            == LinkAll(ops, From(ops, e), e, SwitchesIn(ops, From(ops, e), e))
  {
    hide First, From, SwitchesOk, LinkAll, SwitchesIn;
    FromKept(ops, op, e);
    var start := From(ops, e);
    SwitchesKept(ops, op, start, e);
    LinksKept(ops, op, start, e, SwitchesIn(ops, start, e));
    forall i | start <= i < e && ops[i].JumpTo?
      ensures (ops + [op])[i] == ops[i] && First(ops + [op], start, e, ops[i].name) == First(ops, start, e, ops[i].name)
    {
      FirstKept(ops, op, start, e, ops[i].name);
    }
    assert forall i :: start <= i < e ==> (ops + [op])[i] == ops[i];
  }

  lemma {:induction false} ClosedKept(ops: seq<Op>, op: Op, n: nat)
    requires n <= |ops|
    ensures Malformed(ops + [op], n) == Malformed(ops, n) && TablesOf(ops + [op], n) == TablesOf(ops, n)
    decreases n
  {
    hide FunctionOk, LinkAll, From, SwitchesIn;
    if n > 0 {
      ClosedKept(ops, op, n - 1);
      FunctionKept(ops, op, n - 1);
      SwitchesKept(ops, op, From(ops, n - 1), n - 1);
      assert (ops + [op])[n - 1] == ops[n - 1];
    }
  }

  // ----- The generator -----

  datatype InnerCall = InnerCall(target: nat, jump: nat)

  /** Jumps whose destination is there are bound to it; the others wait for it, and are
      all in the function being emitted. */
  ghost predicate JumpsBound(ops: seq<Op>, bound: map<nat, nat>, pending: map<string, seq<nat>>) {
    forall i :: 0 <= i < |ops| && ops[i].JumpTo? ==>
      match Destination(ops, i, ops[i].name)
      case Some(l) => i in bound && bound[i] == l
      case None => i >= From(ops, |ops|) && ops[i].name in pending && i in pending[ops[i].name]
  }

  /** Bound names are the labels of the function being emitted, each at its first place. */
  ghost predicate LabelsBound(ops: seq<Op>, labels: map<string, nat>) {
    forall name :: (if name in labels then Some(labels[name]) else None) == First(ops, From(ops, |ops|), |ops|, name)
  }

  /** Pending names are disjoint from bound ones, and only jumps to them wait. */
  ghost predicate PendingOk(ops: seq<Op>, labels: map<string, nat>, pending: map<string, seq<nat>>) {
    forall name :: name in pending ==>
      && name !in labels && pending[name] != []
      && forall i :: i in pending[name] ==> From(ops, |ops|) <= i < |ops| && ops[i] == JumpTo(name)
  }

  ghost predicate CallsKnown(ops: seq<Op>, calls: seq<InnerCall>) {
    && (forall i :: 0 <= i < |ops| && ops[i].CallTo? ==> InnerCall(ops[i].index, i) in calls)
    && (forall c :: c in calls ==> c.jump < |ops| && ops[c.jump] == CallTo(c.target))
  }

  ghost predicate EntriesKnown(ops: seq<Op>, entries: map<nat, nat>) {
    forall index :: (if index in entries then Some(entries[index]) else None) == Entry(ops, index)
  }

  // ----- One more emission -----

  /** What an emission that does not end the function leaves alone. */
  lemma Extended(ops: seq<Op>, op: Op)
    requires !op.FunctionEnd?
    ensures var n, more := |ops|, ops + [op];
            && From(more, n + 1) == From(ops, n) && Malformed(more, n + 1) == Malformed(ops, n)
              && TablesOf(more, n + 1) == TablesOf(ops, n)
            && SwitchesIn(more, From(ops, n), n + 1) == SwitchesIn(ops, From(ops, n), n)
              + (if op.SwitchOn? then [op.names] else [])
  {
    hide FunctionOk, LinkAll;
    FromKept(ops, op, |ops|);
    ClosedKept(ops, op, |ops|);
    SwitchesKept(ops, op, From(ops, |ops|), |ops|);
  }

  lemma EntriesExtended(ops: seq<Op>, op: Op, entries: map<nat, nat>)
    requires EntriesKnown(ops, entries)
    ensures EntriesKnown(ops + [op], if op.FunctionStart? then entries[op.index := |ops|] else entries)
  {
    assert (ops + [op])[..|ops|] == ops;
    assert forall index :: Entry(ops + [op], index) == if op == FunctionStart(index) then Some(|ops|)
             else Entry(ops, index);
  }

  lemma CallsExtended(ops: seq<Op>, op: Op, calls: seq<InnerCall>)
    requires CallsKnown(ops, calls)
    ensures CallsKnown(ops + [op], if op.CallTo? then calls + [InnerCall(op.index, |ops|)] else calls)
  {
    var all := if op.CallTo? then calls + [InnerCall(op.index, |ops|)] else calls;
    forall i | 0 <= i < |ops + [op]| && (ops + [op])[i].CallTo?
      ensures InnerCall((ops + [op])[i].index, i) in all
    {
      if i < |ops| {
        assert InnerCall(ops[i].index, i) in calls;
      } else {
        assert all[|calls|] == InnerCall(op.index, |ops|);
      }
    }
  }

  /** Labels and pending names are as they were, unless a label was emitted. */
  lemma NamesExtended(ops: seq<Op>, op: Op, labels: map<string, nat>, pending: map<string, seq<nat>>)
    requires LabelsBound(ops, labels) && PendingOk(ops, labels, pending) && !op.FunctionEnd? && !op.LabelHere?
    ensures LabelsBound(ops + [op], labels) && PendingOk(ops + [op], labels, pending)
  {
    hide First;
    Extended(ops, op);
    var start, n := From(ops, |ops|), |ops|;
    forall name: string
      ensures First(ops + [op], start, n + 1, name) == First(ops, start, n, name)
    {
      FirstKept(ops, op, start, n, name);
      FirstGrows(ops + [op], start, n, name);
    }
  }

  /** Jumps already made go where they went, unless a label was emitted. */
  lemma JumpsExtended(ops: seq<Op>, op: Op, bound: map<nat, nat>, pending: map<string, seq<nat>>)
    requires JumpsBound(ops, bound, pending) && !op.FunctionEnd? && !op.LabelHere? && !op.JumpTo?
    ensures JumpsBound(ops + [op], bound, pending)
  {
    hide Destination, From;
    Extended(ops, op);
    forall i | 0 <= i < |ops + [op]| && (ops + [op])[i].JumpTo?
      ensures match Destination(ops + [op], i, (ops + [op])[i].name)
              case Some(l) => i in bound && bound[i] == l
              case None =>
                i >= From(ops, |ops|) && (ops + [op])[i].name in pending && i in pending[(ops + [op])[i].name]
    {
      DestinationGrows(ops, op, i, ops[i].name);
    }
  }

  /** Where a jump that is emitted now goes: to a label already bound, if there is one. */
  lemma NewDestination(ops: seq<Op>, name: string)
    ensures Destination(ops + [JumpTo(name)], |ops|, name) == First(ops, From(ops, |ops|), |ops|, name)
  {
    hide First;
    var n, start := |ops|, From(ops, |ops|);
    DestinationGrows(ops, JumpTo(name), n, name);
    assert To(ops, n) == n;
  }

  lemma GotoBinds(ops: seq<Op>, name: string, labels: map<string, nat>, pending: map<string, seq<nat>>, bound: map<nat,
                  nat>,
                  pending': map<string, seq<nat>>, bound': map<nat, nat>)
    requires JumpsBound(ops, bound, pending) && LabelsBound(ops, labels) && PendingOk(ops, labels, pending)
    requires if name in labels then bound' == bound[|ops| := labels[name]] && pending' == pending
             else
               && bound' == bound
               && pending' == pending[name := (if name in pending then pending[name] else []) + [|ops|]]
    ensures JumpsBound(ops + [JumpTo(name)], bound', pending') && PendingOk(ops + [JumpTo(name)], labels, pending')
    ensures LabelsBound(ops + [JumpTo(name)], labels)
  {
    hide Destination, First, From, JumpsBound, LabelsBound, PendingOk;
    NamesExtended(ops, JumpTo(name), labels, pending);
    GotoBound(ops, name, labels, pending, bound, pending', bound');
    GotoPending(ops, name, labels, pending, pending');
  }

  lemma GotoPending(ops: seq<Op>, name: string, labels: map<string, nat>, pending: map<string, seq<nat>>,
                    pending': map<string, seq<nat>>)
    requires LabelsBound(ops, labels) && PendingOk(ops, labels, pending)
    requires if name in labels then pending' == pending
             else pending' == pending[name := (if name in pending then pending[name] else []) + [|ops|]]
    ensures PendingOk(ops + [JumpTo(name)], labels, pending')
  {
    hide First, From, TablesOf, Malformed;
    Extended(ops, JumpTo(name));
    WaitsInCurrent(ops);
  }

  lemma GotoBound(ops: seq<Op>, name: string, labels: map<string, nat>, pending: map<string, seq<nat>>, bound: map<nat,
                  nat>,
                  pending': map<string, seq<nat>>, bound': map<nat, nat>)
    requires JumpsBound(ops, bound, pending) && LabelsBound(ops, labels) && PendingOk(ops, labels, pending)
    requires if name in labels then bound' == bound[|ops| := labels[name]] && pending' == pending
             else
               && bound' == bound
               && pending' == pending[name := (if name in pending then pending[name] else []) + [|ops|]]
    ensures JumpsBound(ops + [JumpTo(name)], bound', pending')
  {
    hide Destination, First, From, TablesOf, Malformed;
    var more := ops + [JumpTo(name)];
    Extended(ops, JumpTo(name));
    NewDestination(ops, name);
    WaitsInCurrent(ops);
    forall i | 0 <= i < |more| && more[i].JumpTo?
      ensures match Destination(more, i, more[i].name)
              case Some(l) => i in bound' && bound'[i] == l
              case None => i >= From(ops, |ops|) && more[i].name in pending' && i in pending'[more[i].name]
    {
      if i < |ops| {
        DestinationGrows(ops, JumpTo(name), i, ops[i].name);
      } else if name !in labels {
        assert pending'[name][|pending'[name]| - 1] == i;
      }
    }
  }

  lemma WaitsInCurrent(ops: seq<Op>)
    ensures From(ops, |ops|) <= |ops|
  {
  }

  /** A label is bound the first time it is emitted in its function. */
  lemma LabelBinds(ops: seq<Op>, name: string, labels: map<string, nat>)
    requires LabelsBound(ops, labels)
    ensures LabelsBound(ops + [LabelHere(name)], if name in labels then labels else labels[name := |ops|])
  {
    hide First, From, TablesOf, Malformed;
    Extended(ops, LabelHere(name));
    var start, n := From(ops, |ops|), |ops|;
    forall x: string
      ensures First(ops + [LabelHere(name)], start, n + 1, x) == if First(ops, start, n, x) == None
              && x == name then Some(n) else First(ops, start, n, x)
    {
      FirstKept(ops, LabelHere(name), start, n, x);
      FirstGrows(ops + [LabelHere(name)], start, n, x);
    }
  }

  /** The jumps that wait for a label are bound to it, and wait no longer. */
  lemma PendingBinds(ops: seq<Op>, name: string, labels: map<string, nat>, pending: map<string, seq<nat>>,
                     bound: map<nat, nat>,
                     pending': map<string, seq<nat>>, bound': map<nat, nat>)
    requires JumpsBound(ops, bound, pending) && LabelsBound(ops, labels) && PendingOk(ops, labels, pending)
    requires pending' == pending - {name}
    requires forall i :: i in bound' <==> i in bound || (name in pending && i in pending[name])
    requires forall i :: i in bound' ==> bound'[i] == if name in pending && i in pending[name] then |ops| else bound[i]
    ensures JumpsBound(ops + [LabelHere(name)], bound', pending')
    ensures PendingOk(ops + [LabelHere(name)], if name in labels then labels else labels[name := |ops|], pending')
  {
    hide Destination, First, From, To;
    var more := ops + [LabelHere(name)];
    Extended(ops, LabelHere(name));
    forall i | 0 <= i < |more| && more[i].JumpTo?
      ensures match Destination(more, i, more[i].name)
              case Some(l) => i in bound' && bound'[i] == l
              case None => i >= From(ops, |ops|) && more[i].name in pending' && i in pending'[more[i].name]
    {
      DestinationGrows(ops, LabelHere(name), i, ops[i].name);
      OpenIsCurrent(ops, i);
      WaitingHasNone(ops, labels, pending, name, i);
    }
  }

  /** A jump that waits has no label yet. */
  lemma WaitingHasNone(ops: seq<Op>, labels: map<string, nat>, pending: map<string, seq<nat>>, name: string, i: nat)
    requires LabelsBound(ops, labels) && PendingOk(ops, labels, pending) && i < |ops|
    ensures name in pending && i in pending[name] ==> ops[i] == JumpTo(name) && Destination(ops, i, name) == None
  {
    hide First;
    if name in pending && i in pending[name] {
      OpenIsCurrent(ops, i);
    }
  }

  /** An emission that is no jump, no label and no end of a function. */
  lemma QuietExtended(ops: seq<Op>, op: Op, labels: map<string, nat>, pending: map<string, seq<nat>>, bound: map<nat,
                      nat>)
    requires JumpsBound(ops, bound, pending) && LabelsBound(ops, labels) && PendingOk(ops, labels, pending)
    requires !op.FunctionEnd? && !op.LabelHere? && !op.JumpTo?
    ensures JumpsBound(ops + [op], bound, pending) && LabelsBound(ops + [op], labels)
            && PendingOk(ops + [op], labels, pending)
  {
    hide JumpsBound, LabelsBound, PendingOk;
    JumpsExtended(ops, op, bound, pending);
    NamesExtended(ops, op, labels, pending);
  }

  // ----- The end of a function -----

  predicate AllIn(switches: seq<seq<string>>, labels: map<string, nat>) {
    forall k, j :: 0 <= k < |switches| && 0 <= j < |switches[k]| ==> switches[k][j] in labels
  }

  /** The checks at the end of a function find exactly the functions that are not well formed. */
  lemma EndChecks(ops: seq<Op>, labels: map<string, nat>, pending: map<string, seq<nat>>, bound: map<nat, nat>,
                  switches: seq<seq<string>>)
    requires JumpsBound(ops, bound, pending) && LabelsBound(ops, labels) && PendingOk(ops, labels, pending)
    requires switches == SwitchesIn(ops, From(ops, |ops|), |ops|)
    ensures pending == map[] && AllIn(switches, labels) <==> FunctionOk(ops, |ops|)
  {
    hide First, SwitchesIn;
    var start, n := From(ops, |ops|), |ops|;
    assert AllIn(switches, labels) <==> SwitchesOk(ops, start, n, switches);
    if pending == map[] {
      forall i | start <= i < n && ops[i].JumpTo?
        ensures First(ops, start, n, ops[i].name).Some?
      {
        OpenIsCurrent(ops, i);
      }
    } else {
      var name :| name in pending;
      var i := pending[name][0];
      assert i in pending[name];
      assert First(ops, start, n, name) == None;
    }
  }

  /** After the end of a well-formed function nothing is bound or pending. */
  lemma Ended(ops: seq<Op>, bound: map<nat, nat>)
    requires JumpsBound(ops, bound, map[])
    ensures var more := ops + [FunctionEnd];
            JumpsBound(more, bound, map[]) && LabelsBound(more, map[]) && PendingOk(more, map[], map[])
            && From(more, |more|) == |more| && SwitchesIn(more, |more|, |more|) == []
  {
    hide Destination, From;
    var more := ops + [FunctionEnd];
    forall i | 0 <= i < |more| && more[i].JumpTo?
      ensures match Destination(more, i, more[i].name)
              case Some(l) => i in bound && bound[i] == l
              case None => false
    {
      DestinationGrows(ops, FunctionEnd, i, ops[i].name);
    }
    assert From(more, |more|) == |more| by { EndsHere(more); }
  }

  lemma EndsHere(ops: seq<Op>)
    requires ops != [] && ops[|ops| - 1].FunctionEnd?
    ensures From(ops, |ops|) == |ops|
  {
  }

  lemma ClosedBy(ops: seq<Op>)
    ensures var n, more := |ops|, ops + [FunctionEnd];
            && Malformed(more, n + 1) == (Malformed(ops, n) || !FunctionOk(ops, n))
            && TablesOf(more, n + 1) == TablesOf(ops, n)
              + LinkAll(ops, From(ops, n), n, SwitchesIn(ops, From(ops, n), n))
  {
    hide FunctionOk, LinkAll;
    ClosedKept(ops, FunctionEnd, |ops|);
    FunctionKept(ops, FunctionEnd, |ops|);
    SwitchesKept(ops, FunctionEnd, From(ops, |ops|), |ops|);
  }

  /** Looks the cases of one switch up; the rest is left out once one is missing. */
  method LinkSwitch(names: seq<string>, labels: map<string, nat>) returns (table: seq<Option<nat>>, ok: bool)
    ensures |table| == |names| && (ok <==> forall j :: 0 <= j < |names| ==> names[j] in labels)
    ensures ok ==> forall j :: 0 <= j < |names| ==> table[j] == Some(labels[names[j]])
  {
    table, ok := seq(|names|, _ => None), true;
    for j := 0 to |names|
      invariant |table| == |names| && ok
      invariant forall k :: 0 <= k < j ==> names[k] in labels && table[k] == Some(labels[names[k]])
    {
      if names[j] !in labels {
        ok := false;
        break;
      }
      table := table[j := Some(labels[names[j]])];
    }
  }

  method LinkSwitches(switches: seq<seq<string>>, labels: map<string,
                      nat>) returns (tables: seq<seq<Option<nat>>>, ok: bool)
    ensures |tables| == |switches| && (ok <==> AllIn(switches, labels))
    ensures ok ==> forall k, j :: 0 <= k < |tables| && 0 <= j < |switches[k]| ==>
                     |tables[k]| == |switches[k]| && tables[k][j] == Some(labels[switches[k][j]])
    ensures ok ==> forall k :: 0 <= k < |tables| ==> |tables[k]| == |switches[k]|
  {
    tables, ok := [], true;
    for k := 0 to |switches|
      invariant |tables| == k
      invariant ok <==> forall i, j :: 0 <= i < k && 0 <= j < |switches[i]| ==> switches[i][j] in labels
      invariant ok ==> forall i :: 0 <= i < k ==> |tables[i]| == |switches[i]|
      invariant ok ==> forall i, j :: 0 <= i < k && 0 <= j < |switches[i]| ==>
                         |tables[i]| == |switches[i]| && tables[i][j] == Some(labels[switches[i][j]])
    {
      var table, found := LinkSwitch(switches[k], labels);
      if !found {
        ok := false;
      }
      tables := tables + [table];
    }
  }

  lemma TablesLinked(ops: seq<Op>, labels: map<string, nat>, switches: seq<seq<string>>, tables: seq<seq<Option<nat>>>)
    requires LabelsBound(ops, labels) && AllIn(switches, labels) && |tables| == |switches|
    requires forall k :: 0 <= k < |tables| ==> |tables[k]| == |switches[k]|
    requires forall k, j :: 0 <= k < |tables| && 0 <= j < |switches[k]| ==>
                 |tables[k]| == |switches[k]| && tables[k][j] == Some(labels[switches[k][j]])
    ensures tables == LinkAll(ops, From(ops, |ops|), |ops|, switches)
  {
    hide First;
    forall k | 0 <= k < |tables|
      ensures tables[k] == LinkOne(ops, From(ops, |ops|), |ops|, switches[k])
    {
    }
  }

  class LiveGenerator {
    ghost var ops: seq<Op>
    var size: nat
    var labels: map<string, nat>
    var pendingJumps: map<string, seq<nat>>
    var funcLabels: map<nat, nat>
    var innerCalls: seq<InnerCall>
    var switchLabels: seq<seq<string>>
    var unlinked: seq<seq<Option<nat>>>
    var bound: map<nat, nat>
    var errored: bool

    ghost predicate Valid()
      reads this
    {
      && size == |ops|
      && errored == Malformed(ops, |ops|)
      && (!errored ==>
            && JumpsBound(ops, bound, pendingJumps) && LabelsBound(ops, labels) && PendingOk(ops, labels, pendingJumps)
            && switchLabels == SwitchesIn(ops, From(ops, |ops|), |ops|) && unlinked == TablesOf(ops, |ops|))
      && CallsKnown(ops, innerCalls) && EntriesKnown(ops, funcLabels)
    }

    constructor ()
      ensures Valid() && ops == []
    {
      ops := [];
      size := 0;
      labels, pendingJumps, funcLabels, bound := map[], map[], map[], map[];
      innerCalls, switchLabels, unlinked := [], [], [];
      errored := false;
    }

    method EmitGoto(target: string)
      requires Valid()
      modifies this
      ensures Valid() && ops == old(ops) + [JumpTo(target)]
    {
      hide JumpsBound, LabelsBound, PendingOk, CallsKnown, EntriesKnown, Malformed, TablesOf, SwitchesIn, From;
      var jump := size;
      if target in labels {
        bound := bound[jump := labels[target]];
      } else {
        pendingJumps := pendingJumps[target := (if target in pendingJumps then pendingJumps[target] else []) + [jump]];
      }
      size := size + 1;
      Extended(ops, JumpTo(target));
      CallsExtended(ops, JumpTo(target), innerCalls);
      EntriesExtended(ops, JumpTo(target), funcLabels);
      if !errored {
        GotoBinds(ops, target, labels, old(pendingJumps), old(bound), pendingJumps, bound);
      }
      ops := ops + [JumpTo(target)];
    }

    method EmitLabel(name: string)
      requires Valid()
      modifies this
      ensures Valid() && ops == old(ops) + [LabelHere(name)]
    {
      hide JumpsBound, LabelsBound, PendingOk, CallsKnown, EntriesKnown, Malformed, TablesOf, SwitchesIn, From;
      var here := size;
      size := size + 1;
      if name in pendingJumps {
        var jumps := pendingJumps[name];
        for k := 0 to |jumps|
          invariant forall i :: i in bound <==> i in old(bound) || i in jumps[..k]
          invariant forall i :: i in bound ==> bound[i] == if i in jumps[..k] then here else old(bound)[i]
          invariant ops == old(ops) && pendingJumps == old(pendingJumps) && labels == old(labels)
                    && size == old(size) + 1
          invariant innerCalls == old(innerCalls) && funcLabels == old(funcLabels) && errored == old(errored)
          invariant switchLabels == old(switchLabels) && unlinked == old(unlinked)
        {
          assert jumps[..k + 1] == jumps[..k] + [jumps[k]];
          bound := bound[jumps[k] := here];
        }
        assert jumps[..|jumps|] == jumps;
        pendingJumps := pendingJumps - {name};
      } else {
        assert pendingJumps - {name} == pendingJumps;
      }
      if name !in labels {
        labels := labels[name := here];
      }
      Extended(ops, LabelHere(name));
      CallsExtended(ops, LabelHere(name), innerCalls);
      EntriesExtended(ops, LabelHere(name), funcLabels);
      if !errored {
        LabelBinds(ops, name, old(labels));
        PendingBinds(ops, name, old(labels), old(pendingJumps), old(bound), pendingJumps, bound);
      }
      ops := ops + [LabelHere(name)];
    }

    method EmitFunctionStart(index: nat)
      requires Valid()
      modifies this
      ensures Valid() && ops == old(ops) + [FunctionStart(index)]
    {
      hide JumpsBound, LabelsBound, PendingOk, CallsKnown, EntriesKnown, Malformed, TablesOf, SwitchesIn, From;
      Extended(ops, FunctionStart(index));
      CallsExtended(ops, FunctionStart(index), innerCalls);
      EntriesExtended(ops, FunctionStart(index), funcLabels);
      if !errored {
        QuietExtended(ops, FunctionStart(index), labels, pendingJumps, bound);
      }
      funcLabels := funcLabels[index := size];
      size := size + 1;
      ops := ops + [FunctionStart(index)];
    }

    method EmitFunctionCall(index: nat)
      requires Valid()
      modifies this
      ensures Valid() && ops == old(ops) + [CallTo(index)]
    {
      hide JumpsBound, LabelsBound, PendingOk, CallsKnown, EntriesKnown, Malformed, TablesOf, SwitchesIn, From;
      Extended(ops, CallTo(index));
      CallsExtended(ops, CallTo(index), innerCalls);
      EntriesExtended(ops, CallTo(index), funcLabels);
      if !errored {
        QuietExtended(ops, CallTo(index), labels, pendingJumps, bound);
      }
      innerCalls := innerCalls + [InnerCall(index, size)];
      size := size + 1;
      ops := ops + [CallTo(index)];
    }

    method EmitSwitch(names: seq<string>)
      requires Valid()
      modifies this
      ensures Valid() && ops == old(ops) + [SwitchOn(names)]
    {
      hide JumpsBound, LabelsBound, PendingOk, CallsKnown, EntriesKnown, Malformed, TablesOf, SwitchesIn, From;
      Extended(ops, SwitchOn(names));
      CallsExtended(ops, SwitchOn(names), innerCalls);
      EntriesExtended(ops, SwitchOn(names), funcLabels);
      if !errored {
        QuietExtended(ops, SwitchOn(names), labels, pendingJumps, bound);
      }
      switchLabels := switchLabels + [names];
      size := size + 1;
      ops := ops + [SwitchOn(names)];
    }

    method EmitFunctionEnd()
      requires Valid()
      modifies this
      ensures Valid() && ops == old(ops) + [FunctionEnd]
    {
      hide JumpsBound, LabelsBound, PendingOk, CallsKnown, EntriesKnown, Malformed, TablesOf, SwitchesIn, From,
           FunctionOk, AllIn, LinkAll;
      var wasErrored := errored;
      if pendingJumps != map[] {
        errored := true;
      }
      var tables, ok := LinkSwitches(switchLabels, labels);
      unlinked := unlinked + tables;
      if !ok {
        errored := true;
      }
      ClosedBy(ops);
      CallsExtended(ops, FunctionEnd, innerCalls);
      EntriesExtended(ops, FunctionEnd, funcLabels);
      if !wasErrored {
        EndChecks(ops, labels, pendingJumps, bound, switchLabels);
        if !errored {
          TablesLinked(ops, labels, switchLabels, tables);
          Ended(ops, bound);
        }
      }
      switchLabels := [];
      labels := map[];
      size := size + 1;
      ops := ops + [FunctionEnd];
    }

    /** Binds the calls within the batch. It is good if no function was malformed and
        every callee was emitted; then every jump of an ended function goes to the first
        label of its name there, every call to its callee's entry, and every switch
        entry likewise. */
    method Finish() returns (good: bool)
      requires Valid()
      modifies this`bound
      ensures good <==> !Malformed(ops, |ops|) && forall i :: 0 <= i < |ops| && ops[i].CallTo? ==>
                          Entry(ops, ops[i].index).Some?
      ensures good ==> forall i :: 0 <= i < From(ops, |ops|) && ops[i].JumpTo? ==>
                         i in bound && Destination(ops, i, ops[i].name) == Some(bound[i])
      ensures good ==> forall i :: 0 <= i < |ops| && ops[i].CallTo? ==>
                         i in bound && Entry(ops, ops[i].index) == Some(bound[i])
      ensures good ==> unlinked == TablesOf(ops, |ops|)
    {
      hide LabelsBound, PendingOk, Malformed, TablesOf, SwitchesIn, From, Destination, Entry;
      if errored { return false; }
      for k := 0 to |innerCalls|
        invariant forall i :: 0 <= i < |ops| && ops[i].JumpTo? ==>
                      (i in bound <==> i in old(bound)) && (i in bound ==> bound[i] == old(bound)[i])
        invariant forall j :: 0 <= j < k ==>
                    var c := innerCalls[j];
                    c.target in funcLabels && c.jump in bound && bound[c.jump] == funcLabels[c.target]
      {
        var call := innerCalls[k];
        assert call in innerCalls;
        if call.target !in funcLabels {
          MissingCallee(ops, innerCalls, funcLabels, call);
          return false;
        }
        SameCallSameTarget(ops, innerCalls);
        bound := bound[call.jump := funcLabels[call.target]];
      }
      good := true;
      CallsBound(ops, innerCalls, funcLabels, bound);
    }
  }

  lemma MissingCallee(ops: seq<Op>, calls: seq<InnerCall>, entries: map<nat, nat>, c: InnerCall)
    requires CallsKnown(ops, calls) && EntriesKnown(ops, entries) && c in calls && c.target !in entries
    ensures c.jump < |ops| && ops[c.jump].CallTo? && Entry(ops, ops[c.jump].index) == None
  {
    hide Entry;
  }

  /** Two records of one call position have the same target. */
  lemma SameCallSameTarget(ops: seq<Op>, calls: seq<InnerCall>)
    requires CallsKnown(ops, calls)
    ensures forall c, d :: c in calls && d in calls && c.jump == d.jump ==> c.target == d.target
    ensures forall c :: c in calls ==> c.jump < |ops| && ops[c.jump].CallTo?
  {
  }

  lemma CallsBound(ops: seq<Op>, calls: seq<InnerCall>, entries: map<nat, nat>, bound: map<nat, nat>)
    requires CallsKnown(ops, calls) && EntriesKnown(ops, entries)
    requires forall j :: 0 <= j < |calls| ==>
                 calls[j].target in entries && calls[j].jump in bound
                 && bound[calls[j].jump] == entries[calls[j].target]
    ensures forall i :: 0 <= i < |ops| && ops[i].CallTo? ==> i in bound && Entry(ops, ops[i].index) == Some(bound[i])
  {
    hide Entry;
    forall i | 0 <= i < |ops| && ops[i].CallTo?
      ensures i in bound && Entry(ops, ops[i].index) == Some(bound[i])
    {
      var c := InnerCall(ops[i].index, i);
      assert c in calls;
      var j :| 0 <= j < |calls| && calls[j] == c;
    }
  }
}
