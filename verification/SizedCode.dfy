/** What a size means to those who ask for it: the walk of the control flow is what sizes
    the functions that are added to a fragment, and those that are moved back. */
module SizedCode {
  import opened Machine
  import opened Bounds
  import Synthesis
  import RangeRepair

  /** An answer of `DiscoverFunctionBounds` for `entry`. */
  ghost predicate IsWalked(b: Body, entry: nat, size: nat) {
    exists decoded, found, visited ::
      Explored(b, entry, decoded, found, visited, {}) && entry in visited && Covers(b, entry, visited, size)
  }

  /** Every size that `discover` gives for an offset in the body comes from a walk. */
  ghost predicate AnswersWalk(b: Body, discover: nat -> Option<nat>) {
    forall o :: InBody(b, o) && discover(o).Some? ==> IsWalked(b, o, discover(o).value)
  }

  /** The range of `n` bytes at `start` holds the function there: its last instruction is
      visited, and if no transfer goes to a delay slot, every instruction that control
      reaches behind `start`, with its delay slot, is inside. */
  ghost predicate HoldsFunction(b: Body, start: nat, n: nat) {
    exists decoded, found, visited ::
      && Explored(b, start, decoded, found, visited, {}) && start + n - 4 in visited && n >= 4
      && (SlotsAreShadows(b, start, found) ==>
            forall o, s :: InBody(b, o) && Reachable(b, found, start, o) && start <= s && s in {o} + SlotOf(b, o)
              ==> s + 4 <= start + n)
  }

  lemma WalkedHoldsFunction(b: Body, start: nat, n: nat)
    requires IsWalked(b, start, n)
    ensures HoldsFunction(b, start, n)
  {
    hide Explored, Reachable, SlotOf, SlotsAreShadows;
    var decoded, found, visited :| Explored(b, start, decoded, found, visited, {}) && start in visited
                                   && Covers(b, start, visited, n);
    if SlotsAreShadows(b, start, found) {
      VisitsExactlyTheReachable(b, start, decoded, found, visited);
      forall o, s | InBody(b, o) && Reachable(b, found, start, o) && start <= s && s in {o} + SlotOf(b, o)
        ensures s + 4 <= start + n
      {
        SlotIsVisited(b, decoded, o, s);
      }
    }
  }

  lemma SlotIsVisited(b: Body, decoded: set<nat>, o: nat, s: nat)
    requires o in decoded && s in {o} + SlotOf(b, o)
    ensures s in decoded + SlotsOf(b, decoded)
  {
  }

  /** A function that is added where one is discovered holds the code there. */
  lemma PieceHoldsFunction(b: Body, code: Synthesis.Code, start: nat, limit: nat)
    requires AnswersWalk(b, code.discover) && Synthesis.Discoverable(code, |b.bytes|, start, limit)
    ensures var p := Synthesis.Discovered(code, start); HoldsFunction(b, p.start, p.end - p.start) && p.end <= |b.bytes|
  {
    hide IsWalked, HoldsFunction;
    assert Synthesis.Aligned(code.discover(start).value);
    WalkedHoldsFunction(b, start, code.discover(start).value);
  }

  /** A function that is moved back holds the code at its new start: everything reached
      from there ends at its end at the latest, and something ends just there. */
  lemma MovedBackHoldsFunction(b: Body, s: RangeRepair.Section, before: seq<RangeRepair.Function>,
                               functions: seq<RangeRepair.Function>, n: nat, order: seq<nat>,
                               discover: nat -> Option<nat>, m: nat)
    requires RangeRepair.OnlyMovedBack(s, before, functions, n, order, discover) && AnswersWalk(b, discover)
    requires m < |before| && functions[m] != before[m]
    requires s.ram <= functions[m].vram ==> InBody(b, functions[m].vram - s.ram)
    ensures s.ram <= functions[m].vram && HoldsFunction(b, functions[m].vram - s.ram, 4 * |functions[m].words|)
    ensures RangeRepair.End(functions[m]) == RangeRepair.End(before[m])
  {
    hide IsWalked, HoldsFunction;
    assert RangeRepair.SizedAt(s, discover, functions[m]);
    WalkedHoldsFunction(b, functions[m].vram - s.ram, 4 * |functions[m].words|);
  }
}
