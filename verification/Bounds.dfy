/** Sizing a function by walking its control flow: a worklist of blocks, each scanned
    in sequence with a fresh register simulation that finds its jump table. */
module Bounds {
  import opened Machine
  import opened JumpTables
  import opened Switches

  /** How an instruction passes control on. A `jr` is told by its operation. */
  datatype Flow = Falls | Jumps | Links | Branches(target: Option<Addr>)

  datatype Insn = Insn(op: Op, flow: Flow)

  datatype Body = Body(bytes: seq<Byte>, base: Addr, decode: (Addr, Addr) -> Insn)

  predicate InBody(b: Body, off: nat) {
    off + 4 <= |b.bytes|
  }

  function VramOf(b: Body, off: nat): Addr {
    Add(b.base, off)
  }

  function InsnAt(b: Body, off: nat): Insn
    requires InBody(b, off)
  {
    b.decode(BigWordAt(b.bytes, off), VramOf(b, off))
  }

  // ----- Tables in the body -----

  /** An address of the body that an instruction can start at. */
  predicate IsTargetWord(b: Body, word: Addr) {
    b.base <= word < b.base + |b.bytes| && (word - b.base) % 4 == 0
  }

  /** The offsets that the table at offset `off` lists. */
  function TargetsFrom(b: Body, off: nat): seq<nat>
    decreases |b.bytes| - off
  {
    if InBody(b, off) && IsTargetWord(b, BigWordAt(b.bytes, off))
    then [BigWordAt(b.bytes, off) - b.base] + TargetsFrom(b, off + 4)
    else []
  }

  function TableTargets(b: Body, table: Addr): seq<nat> {
    if table < b.base || table - b.base >= |b.bytes| then [] else TargetsFrom(b, table - b.base)
  }

  method ReadJumpTableTargets(b: Body, table: Addr) returns (targets: seq<nat>)
    ensures targets == TableTargets(b, table)
  {
    targets := [];
    if table < b.base { return; }
    var off := table - b.base;
    if off >= |b.bytes| { return; }
    while InBody(b, off)
      invariant targets + TargetsFrom(b, off) == TableTargets(b, table)
      decreases |b.bytes| - off
    {
      var word := BigWordAt(b.bytes, off);
      if word < b.base || word >= b.base + |b.bytes| { break; }
      if (word - b.base) % 4 != 0 { break; }
      assert targets + TargetsFrom(b, off) == (targets + [word - b.base]) + TargetsFrom(b, off + 4);
      targets := targets + [word - b.base];
      off := off + 4;
    }
  }

  // ----- The control flow of a body -----

  /** The tables found, by the offset of their `jr`. */
  type Found = map<nat, Addr>

  predicate IsTransfer(b: Body, off: nat)
    requires InBody(b, off)
  {
    InsnAt(b, off).op.JumpReg? || !InsnAt(b, off).flow.Falls?
  }

  /** The offset control passes to in sequence. */
  function Next(b: Body, off: nat): nat
    requires InBody(b, off)
  {
    if IsTransfer(b, off) then off + 8 else off + 4
  }

  function BranchTarget(b: Body, target: Option<Addr>): set<nat> {
    if target.Some? && b.base <= target.value < b.base + |b.bytes| then {target.value - b.base} else {}
  }

  /** Where control goes after the instruction at `off` and its slot, within the function. */
  function Successors(b: Body, found: Found, off: nat): set<nat>
    requires InBody(b, off)
  {
    var i := InsnAt(b, off);
    if i.op.JumpReg? then
      if i.op.rs != RA && off in found then set t | t in TableTargets(b, found[off]) else {}
    else match i.flow
         case Falls => {Next(b, off)}
         case Jumps => {}
         case Links => {Next(b, off)}
         case Branches(target) => {Next(b, off)} + BranchTarget(b, target)
  }

  /** The delay slot of the instruction at `off`, if it has one in the body. */
  function SlotOf(b: Body, off: nat): set<nat> {
    if InBody(b, off) && IsTransfer(b, off) && InBody(b, off + 4) then {off + 4} else {}
  }

  function SlotsOf(b: Body, decoded: set<nat>): set<nat> {
    set o, s | o in decoded && s in SlotOf(b, o) :: s
  }

  ghost predicate IsFlow(b: Body, found: Found, path: seq<nat>) {
    forall k :: 0 <= k < |path| - 1 ==> InBody(b, path[k]) && path[k + 1] in Successors(b, found, path[k])
  }

  /** Control can get from `entry` to `off`. */
  ghost predicate Reachable(b: Body, found: Found, entry: nat, off: nat) {
    exists path :: path != [] && path[0] == entry && path[|path| - 1] == off && IsFlow(b, found, path)
  }

  lemma ReachableEntry(b: Body, found: Found, entry: nat)
    ensures Reachable(b, found, entry, entry)
  {
    assert IsFlow(b, found, [entry]);
  }

  lemma ReachableStep(b: Body, found: Found, entry: nat, off: nat, next: nat)
    requires Reachable(b, found, entry, off) && InBody(b, off) && next in Successors(b, found, off)
    ensures Reachable(b, found, entry, next)
  {
    var path :| path != [] && path[0] == entry && path[|path| - 1] == off && IsFlow(b, found, path);
    assert IsFlow(b, found, path + [next]);
    assert (path + [next])[|path|] == next;
  }

  /** Finding more tables makes no offset unreachable. */
  lemma ReachableGrows(b: Body, found: Found, more: Found, entry: nat, off: nat)
    requires Reachable(b, found, entry, off) && found.Keys <= more.Keys
             && forall o :: o in found ==> more[o] == found[o]
    ensures Reachable(b, more, entry, off)
  {
    var path :| path != [] && path[0] == entry && path[|path| - 1] == off && IsFlow(b, found, path);
    assert IsFlow(b, more, path) by {
      forall k | 0 <= k < |path| - 1
        ensures path[k + 1] in Successors(b, more, path[k])
      {
        assert path[k + 1] in Successors(b, found, path[k]);
      }
    }
  }

  // ----- How tables are found -----

  /** Offsets scanned one after another in one block. */
  ghost predicate IsScan(b: Body, path: seq<nat>) {
    && (forall k :: 0 <= k < |path| ==> InBody(b, path[k]))
    && (forall k :: 0 <= k < |path| - 1 ==> path[k + 1] == Next(b, path[k]))
  }

  /** The state of the register simulation after a scan. */
  ghost function ScanState(b: Body, path: seq<nat>): Option<Analysis>
    requires IsScan(b, path)
  {
    if path == [] then Some(Fresh())
    else
      var init, last := path[..|path| - 1], path[|path| - 1];
      match ScanState(b, init)
      case None => None
      case Some(a) => Analyze(a, InsnAt(b, last).op, VramOf(b, last), false)
  }

  /** A scan of decoded instructions that ends at `off` finds `table`, or none. */
  ghost predicate Finds(b: Body, decoded: set<nat>, off: nat, table: Option<Addr>) {
    exists path ::
      && path != [] && path[|path| - 1] == off && IsScan(b, path) && (forall o :: o in path ==> o in decoded)
      && ScanState(b, path).Some?
      && var tables := ScanState(b, path).value.tables;
         table == if tables == [] then None else Some(tables[|tables| - 1].vram)
  }

  function TableOf(found: Found, off: nat): Option<Addr> {
    if off in found then Some(found[off]) else None
  }

  predicate IsTableJump(b: Body, off: nat)
    requires InBody(b, off)
  {
    InsnAt(b, off).op.JumpReg? && InsnAt(b, off).op.rs != RA
  }

  // ----- The invariant of the walk -----

  /** Control gets to `o` from a decoded instruction. */
  ghost predicate IsFollowed(b: Body, found: Found, decoded: set<nat>, o: nat) {
    exists d :: d in decoded && InBody(b, d) && o in Successors(b, found, d)
  }

  /** What the walk knows: `decoded` instructions and their delay slots are visited,
      everything decoded or still `todo` is reachable, and is the entry or follows a decoded
      instruction, and what follows a decoded instruction in the body is visited or still
      to do. */
  ghost predicate Explored(b: Body, entry: nat, decoded: set<nat>, found: Found, visited: set<nat>, todo: set<nat>) {
    && visited == decoded + SlotsOf(b, decoded)
    && (forall o :: o in decoded ==> InBody(b, o))
    && (forall o :: o in decoded || o in todo ==> Reachable(b, found, entry, o))
    && (forall o :: o in decoded || o in todo ==> o == entry || IsFollowed(b, found, decoded, o))
    && (forall o, s :: o in decoded && s in Successors(b, found, o) && InBody(b, s) ==> s in visited || s in todo)
    && (InBody(b, entry) ==> entry in visited || entry in todo)
    && found.Keys <= decoded
    && (forall o :: o in decoded && IsTableJump(b, o) ==> Finds(b, decoded, o, TableOf(found, o)))
  }

  lemma Begins(b: Body, entry: nat)
    ensures Explored(b, entry, {}, map[], {}, {entry})
  {
    ReachableEntry(b, map[], entry);
  }

  /** Offsets that are visited, or outside the body, need not be done. */
  lemma Drops(b: Body, entry: nat, decoded: set<nat>, found: Found, visited: set<nat>, todo: set<nat>, less: set<nat>)
    requires Explored(b, entry, decoded, found, visited, todo) && less <= todo
    requires forall o :: o in todo && o !in less ==> o in visited || !InBody(b, o)
    ensures Explored(b, entry, decoded, found, visited, less)
  {
    hide Reachable, Successors, Finds, SlotOf, IsFollowed;
  }

  lemma FindsGrows(b: Body, decoded: set<nat>, more: set<nat>, off: nat, table: Option<Addr>)
    requires Finds(b, decoded, off, table) && decoded <= more
    ensures Finds(b, more, off, table)
  {
    hide IsScan, ScanState;
    var path :|
      && path != [] && path[|path| - 1] == off && IsScan(b, path) && (forall o :: o in path ==> o in decoded)
      && ScanState(b, path).Some?
      && var tables := ScanState(b, path).value.tables;
         table == if tables == [] then None else Some(tables[|tables| - 1].vram);
    assert forall o :: o in path ==> o in more;
  }

  /** The tables known once the `jr` at `o` has been scanned. */
  function Learn(b: Body, found: Found, o: nat, tables: seq<Table>): Found
    requires InBody(b, o)
  {
    if IsTableJump(b, o) && tables != [] then found[o := tables[|tables| - 1].vram] else found
  }

  /** The successors of an instruction depend on its own table only. */
  lemma SuccessorsKept(b: Body, found: Found, more: Found, o: nat)
    requires InBody(b, o) && TableOf(found, o) == TableOf(more, o)
    ensures Successors(b, found, o) == Successors(b, more, o)
  {
  }

  lemma DecodesReachable(b: Body, entry: nat, decoded: set<nat>, found: Found, visited: set<nat>, todo: set<nat>,
                         o: nat, more: Found, x: nat)
    requires Explored(b, entry, decoded, found, visited, todo) && o in todo && InBody(b, o)
    requires found.Keys <= more.Keys && forall q :: q in found ==> more[q] == found[q]
    requires x in decoded || x in todo || x in Successors(b, more, o)
    ensures Reachable(b, more, entry, x)
  {
    hide Reachable, Finds, SlotOf, Successors;
    if x in decoded || x in todo {
      ReachableGrows(b, found, more, entry, x);
    } else {
      ReachableGrows(b, found, more, entry, o);
      ReachableStep(b, more, entry, o, x);
    }
  }

  lemma DecodesFollowed(b: Body, entry: nat, decoded: set<nat>, found: Found, visited: set<nat>, todo: set<nat>,
                        o: nat, more: Found, x: nat)
    requires Explored(b, entry, decoded, found, visited, todo) && InBody(b, o) && o in todo && o !in decoded
    requires found.Keys <= more.Keys <= found.Keys + {o} && forall q :: q in found ==> more[q] == found[q]
    requires x in decoded || x in todo || x in Successors(b, more, o)
    ensures x == entry || IsFollowed(b, more, decoded + {o}, x)
  {
    hide Reachable, Finds, SlotOf, Successors;
    if (x in decoded || x in todo) && x != entry {
      var d :| d in decoded && InBody(b, d) && x in Successors(b, found, d);
      SuccessorsKept(b, found, more, d);
    }
  }

  lemma DecodesSlots(b: Body, decoded: set<nat>, o: nat)
    ensures SlotsOf(b, decoded + {o}) == SlotsOf(b, decoded) + SlotOf(b, o)
  {
    hide SlotOf;
  }

  lemma DecodesFinds(b: Body, entry: nat, decoded: set<nat>, found: Found, visited: set<nat>, todo: set<nat>, o: nat,
                     path: seq<nat>)
    requires Explored(b, entry, decoded, found, visited, todo) && InBody(b, o) && o !in decoded
    requires path != [] && path[|path| - 1] == o && IsScan(b, path) && (forall q :: q in path ==> q in decoded + {o})
    requires ScanState(b, path).Some?
    ensures var more := Learn(b, found, o, ScanState(b, path).value.tables);
            forall q :: q in decoded + {o} && IsTableJump(b, q) ==> Finds(b, decoded + {o}, q, TableOf(more, q))
  {
    hide Reachable, Successors, SlotOf, ScanState, Finds, IsScan;
    var more := Learn(b, found, o, ScanState(b, path).value.tables);
    forall q | q in decoded + {o} && IsTableJump(b, q)
      ensures Finds(b, decoded + {o}, q, TableOf(more, q))
    {
      if q == o {
        FindsHere(b, decoded + {o}, o, path);
      } else {
        FindsGrows(b, decoded, decoded + {o}, q, TableOf(found, q));
      }
    }
  }

  lemma FindsHere(b: Body, decoded: set<nat>, o: nat, path: seq<nat>)
    requires path != [] && path[|path| - 1] == o && IsScan(b, path) && (forall q :: q in path ==> q in decoded)
    requires ScanState(b, path).Some?
    ensures var tables := ScanState(b, path).value.tables;
            Finds(b, decoded, o, if tables == [] then None else Some(tables[|tables| - 1].vram))
  {
    hide IsScan, ScanState;
  }

  /** Decoding an instruction that is still to do, at the end of a scan. */
  lemma Decodes(b: Body, entry: nat, decoded: set<nat>, found: Found, visited: set<nat>, todo: set<nat>, o: nat,
                path: seq<nat>)
    requires Explored(b, entry, decoded, found, visited, todo) && o in todo && InBody(b, o) && o !in visited
    requires path != [] && path[|path| - 1] == o && IsScan(b, path) && (forall q :: q in path ==> q in decoded + {o})
    requires ScanState(b, path).Some?
    ensures var more := Learn(b, found, o, ScanState(b, path).value.tables);
            Explored(b, entry, decoded + {o}, more, visited + {o} + SlotOf(b, o), todo + Successors(b, more, o))
  {
    hide Reachable, Successors, SlotOf, ScanState, Finds, IsScan, IsFollowed;
    var more := Learn(b, found, o, ScanState(b, path).value.tables);
    DecodesSlots(b, decoded, o);
    DecodesFinds(b, entry, decoded, found, visited, todo, o, path);
    forall x | x in decoded || x in todo || x in Successors(b, more, o)
      ensures Reachable(b, more, entry, x)
    {
      DecodesReachable(b, entry, decoded, found, visited, todo, o, more, x);
    }
    forall x | x in decoded || x in todo || x in Successors(b, more, o)
      ensures x == entry || IsFollowed(b, more, decoded + {o}, x)
    {
      DecodesFollowed(b, entry, decoded, found, visited, todo, o, more, x);
    }
    forall q, s | q in decoded && s in Successors(b, more, q) && InBody(b, s)
      ensures s in visited || s in todo
    {
      SuccessorsKept(b, found, more, q);
    }
  }

  // ----- The order of the walk -----

  function SetOf(s: seq<nat>): set<nat> {
    set x | x in s
  }

  /** What is visited once the instructions of `order` are decoded. */
  function Seen(b: Body, order: seq<nat>): set<nat> {
    SetOf(order) + SlotsOf(b, SetOf(order))
  }

  /** The scan goes on in sequence after `o`, to an instruction not visited yet. */
  predicate ScansOn(b: Body, o: nat, seen: set<nat>) {
    && InBody(b, o) && !InsnAt(b, o).op.JumpReg? && !InsnAt(b, o).flow.Jumps?
    && InBody(b, Next(b, o)) && Next(b, o) !in seen
  }

  /** The instructions in the order in which they are decoded: the entry first, none that
      is visited already, as a slot or itself, and a block to its end before another. */
  ghost predicate IsOrder(b: Body, entry: nat, order: seq<nat>) {
    && (order != [] && InBody(b, entry) ==> order[0] == entry)
    && (forall k :: 0 <= k < |order| ==> InBody(b, order[k]) && order[k] !in Seen(b, order[..k]))
    && (forall k :: 0 <= k < |order| - 1 && ScansOn(b, order[k], Seen(b, order[..k + 1])) ==>
          order[k + 1] == Next(b, order[k]))
  }

  /** No block is left half scanned. */
  ghost predicate Ended(b: Body, order: seq<nat>) {
    order != [] ==> !ScansOn(b, order[|order| - 1], Seen(b, order))
  }

  lemma OrderExtends(b: Body, entry: nat, order: seq<nat>, o: nat)
    requires IsOrder(b, entry, order) && InBody(b, o) && o !in Seen(b, order)
    requires order == [] && InBody(b, entry) ==> o == entry
    requires order != [] && ScansOn(b, order[|order| - 1], Seen(b, order)) ==> o == Next(b, order[|order| - 1])
    ensures IsOrder(b, entry, order + [o]) && SetOf(order + [o]) == SetOf(order) + {o}
  {
    hide SlotsOf, ScansOn, Next, Seen;
    var more := order + [o];
    Prefixes(order, o);
    forall k | 0 <= k < |more| - 1 && ScansOn(b, more[k], Seen(b, more[..k + 1]))
      ensures more[k + 1] == Next(b, more[k])
    {
      assert more[k] == order[k] && more[..k + 1] == order[..k + 1];
    }
  }

  lemma Prefixes(order: seq<nat>, o: nat)
    ensures forall k :: 0 <= k <= |order| ==> (order + [o])[..k] == order[..k]
    ensures order[..|order|] == order && SetOf(order + [o]) == SetOf(order) + {o}
  {
  }

  // ----- The walk -----

  datatype Failure = PastEnd | Rejected(off: nat) | EmptyTable(off: nat) | NothingReached

  datatype Sized = Size(size: nat) | Failed(why: Failure)

  /** The scan of a block comes to `off` and ends in `state`. */
  ghost predicate ScansTo(b: Body, decoded: set<nat>, off: nat, state: Option<Analysis>) {
    exists path ::
      && path != [] && path[|path| - 1] == off && IsScan(b, path) && ScanState(b, path) == state
      && forall k :: 0 <= k < |path| - 1 ==> path[k] in decoded
  }

  /** The table that is found when the scan ends in `state` has no entry. */
  predicate FindsEmpty(b: Body, state: Option<Analysis>) {
    state.Some? && var tables := state.value.tables; tables != [] && TableTargets(b, tables[|tables| - 1].vram) == []
  }

  /** Why the walk fails at an instruction that it has come to: the register simulation
      gives up, or the `jr` has a table without entries. */
  ghost predicate Fails(b: Body, entry: nat, decoded: set<nat>, found: Found, why: Failure) {
    match why
    case Rejected(off) => InBody(b, off) && Reachable(b, found, entry, off) && ScansTo(b, decoded, off, None)
    case EmptyTable(off) =>
      && InBody(b, off) && Reachable(b, found, entry, off) && IsTableJump(b, off)
      && exists state :: ScansTo(b, decoded, off, state) && FindsEmpty(b, state)
    case _ => false
  }

  lemma FailsHere(b: Body, entry: nat, w: Walked, decoded: set<nat>, found: Found, o: nat, path: seq<nat>)
    requires WalkOk(b, entry, w, decoded, found, {o}) && InBody(b, o)
    requires IsScan(b, path + [o]) && forall q :: q in path ==> q in decoded
    ensures ScanState(b, path + [o]) == None ==> Fails(b, entry, decoded, found, Rejected(o))
    ensures IsTableJump(b, o) && FindsEmpty(b, ScanState(b, path + [o])) ==>
              Fails(b, entry, decoded, found, EmptyTable(o))
  {
    hide IsScan, ScanState, Reachable, TableTargets, IsFollowed, Finds, SlotOf;
    var all := path + [o];
    assert forall k :: 0 <= k < |all| - 1 ==> all[k] == path[k] && path[k] in path;
    assert ScansTo(b, decoded, o, ScanState(b, all));
  }

  /** `m` is the largest of `entry` and the visited offsets. */
  ghost predicate IsMax(m: nat, entry: nat, visited: set<nat>) {
    (m == entry || m in visited) && m >= entry && forall v :: v in visited ==> v <= m
  }

  method Push(targets: seq<nat>, visited: set<nat>, worklist: seq<nat>) returns (r: seq<nat>)
    ensures SetOf(r) == SetOf(worklist) + (SetOf(targets) - visited)
  {
    r := worklist;
    for i := 0 to |targets|
      invariant SetOf(r) == SetOf(worklist) + (SetOf(targets[..i]) - visited)
    {
      assert targets[..i + 1] == targets[..i] + [targets[i]];
      assert SetOf(targets[..i + 1]) == SetOf(targets[..i]) + {targets[i]};
      if targets[i] !in visited {
        assert SetOf(r + [targets[i]]) == SetOf(r) + {targets[i]};
        r := r + [targets[i]];
      }
    }
    assert targets[..|targets|] == targets;
  }

  lemma ScanExtends(b: Body, path: seq<nat>, o: nat)
    requires IsScan(b, path) && InBody(b, o) && (path != [] ==> o == Next(b, path[|path| - 1]))
    ensures IsScan(b, path + [o])
    ensures ScanState(b, path + [o]) ==
            match ScanState(b, path)
            case None => None
            case Some(a) => Analyze(a, InsnAt(b, o).op, VramOf(b, o), false)
  {
    assert (path + [o])[..|path|] == path;
  }

  /** The state of the walk between two blocks. */
  datatype Walked = Walked(visited: set<nat>, worklist: seq<nat>, furthest: nat)

  ghost predicate WalkOk(b: Body, entry: nat, w: Walked, decoded: set<nat>, found: Found, pending: set<nat>) {
    && Explored(b, entry, decoded, found, w.visited, SetOf(w.worklist) + pending)
    && IsMax(w.furthest, entry, w.visited)
    && (forall o :: o in found ==> TableTargets(b, found[o]) != [])
  }

  /** Marks the delay slot of the instruction at `off`. */
  method MarkSlot(b: Body, off: nat, visited: set<nat>, furthest: nat) returns (visited': set<nat>, furthest': nat)
    requires InBody(b, off) && IsTransfer(b, off)
    ensures visited' == visited + SlotOf(b, off)
    ensures forall entry :: IsMax(furthest, entry, visited) ==> IsMax(furthest', entry, visited')
  {
    visited', furthest' := visited, furthest;
    var delay := off + 4;
    if InBody(b, delay) {
      visited' := visited + {delay};
      if delay > furthest { furthest' := delay; }
    }
  }

  function Pending(open: bool, cursor: nat): set<nat> {
    if open then {cursor} else {}
  }

  /** What following an instruction adds to the work: each successor is scanned next,
      put on the worklist, or visited already. */
  ghost predicate Follows(b: Body, succ: set<nat>, w: Walked, w': Walked, pending: set<nat>) {
    && SetOf(w.worklist) <= SetOf(w'.worklist) <= SetOf(w.worklist) + succ && pending <= succ
    && forall x :: x in succ ==> x in SetOf(w'.worklist) || x in pending || x in w'.visited
  }

  /** The end of a block: a `jr`. */
  method FollowJumpReg(b: Body, off: nat, tables: seq<Table>, w: Walked,
                       ghost found: Found) returns (ok: bool, w': Walked)
    requires InBody(b, off) && InsnAt(b, off).op.JumpReg? && off !in found
    ensures ok ==> w'.visited == w.visited + SlotOf(b, off)
    ensures ok ==> forall entry :: IsMax(w.furthest, entry, w.visited) ==> IsMax(w'.furthest, entry, w'.visited)
    ensures ok ==> Follows(b, Successors(b, Learn(b, found, off, tables), off), w, w', {})
    ensures ok && IsTableJump(b, off) && tables != [] ==> TableTargets(b, tables[|tables| - 1].vram) != []
    ensures !ok ==> IsTableJump(b, off) && tables != [] && TableTargets(b, tables[|tables| - 1].vram) == []
  {
    ok := true;
    var visited, furthest := MarkSlot(b, off, w.visited, w.furthest);
    w' := Walked(visited, w.worklist, furthest);
    if InsnAt(b, off).op.rs != RA && tables != [] {
      var targets := ReadJumpTableTargets(b, tables[|tables| - 1].vram);
      if targets == [] {
        return false, w';
      }
      var worklist := Push(targets, visited, w.worklist);
      w' := w'.(worklist := worklist);
    }
  }

  /** Any other instruction. */
  method FollowOther(b: Body, off: nat, w: Walked, ghost found: Found) returns (w': Walked, next: nat, open: bool)
    requires InBody(b, off) && !InsnAt(b, off).op.JumpReg?
    ensures w'.visited == w.visited + SlotOf(b, off)
    ensures forall entry :: IsMax(w.furthest, entry, w.visited) ==> IsMax(w'.furthest, entry, w'.visited)
    ensures Follows(b, Successors(b, found, off), w, w', Pending(open, next)) && next == Next(b, off)
    ensures open <==> !InsnAt(b, off).flow.Jumps?
  {
    w' := w;
    match InsnAt(b, off).flow {
      case Falls => next, open := off + 4, true;
      case Jumps =>
        var visited, furthest := MarkSlot(b, off, w.visited, w.furthest);
        w' := Walked(visited, w.worklist, furthest);
        next, open := off + 8, false;
      case Links =>
        var visited, furthest := MarkSlot(b, off, w.visited, w.furthest);
        w' := Walked(visited, w.worklist, furthest);
        next, open := off + 8, true;
      case Branches(target) =>
        var visited, furthest := MarkSlot(b, off, w.visited, w.furthest);
        var worklist := w.worklist;
        if target.Some? && target.value >= b.base && target.value < b.base + |b.bytes| {
          worklist := Push([target.value - b.base], visited, worklist);
        }
        w' := Walked(visited, worklist, furthest);
        next, open := off + 8, true;
    }
  }

  lemma MaxVisits(off: nat, entry: nat, visited: set<nat>, furthest: nat)
    requires IsMax(furthest, entry, visited)
    ensures IsMax(if off > furthest then off else furthest, entry, visited + {off})
  {
  }

  /** Decoding and following one instruction keeps the invariant. */
  lemma Settles(b: Body, entry: nat, w: Walked, w': Walked, decoded: set<nat>, found: Found, more: Found, o: nat,
                pending: set<nat>)
    requires InBody(b, o) && Explored(b, entry, decoded, more, w'.visited,
                                      SetOf(w.worklist) + {o} + Successors(b, more, o))
    requires o in w'.visited && Follows(b, Successors(b, more, o), w, w', pending)
    ensures Explored(b, entry, decoded, more, w'.visited, SetOf(w'.worklist) + pending)
  {
    hide Explored, Successors;
    Drops(b, entry, decoded, more, w'.visited, SetOf(w.worklist) + {o} + Successors(b, more, o),
          SetOf(w'.worklist) + pending);
  }

  function Offsets(b: Body): set<nat> {
    set o: nat | o < |b.bytes| && InBody(b, o)
  }

  lemma StopsHere(b: Body, entry: nat, w: Walked, decoded: set<nat>, found: Found, cursor: nat)
    requires WalkOk(b, entry, w, decoded, found, {cursor}) && (cursor in w.visited || !InBody(b, cursor))
    ensures WalkOk(b, entry, w, decoded, found, {})
  {
    hide Explored;
    Drops(b, entry, decoded, found, w.visited, SetOf(w.worklist) + {cursor}, SetOf(w.worklist) + {});
  }

  lemma NotFoundYet(b: Body, entry: nat, w: Walked, decoded: set<nat>, found: Found, pending: set<nat>, o: nat)
    requires WalkOk(b, entry, w, decoded, found, pending) && o !in w.visited
    ensures o !in found && o !in decoded
  {
  }

  lemma SeenIsVisited(b: Body, entry: nat, w: Walked, decoded: set<nat>, found: Found, pending: set<nat>,
                      order: seq<nat>)
    requires WalkOk(b, entry, w, decoded, found, pending) && SetOf(order) == decoded
    ensures Seen(b, order) == w.visited
  {
  }

  /** The bookkeeping of one decoded instruction, before control is followed. */
  lemma Notes(b: Body, entry: nat, w: Walked, decoded: set<nat>, found: Found, o: nat, path: seq<nat>,
              tables: seq<Table>)
    requires WalkOk(b, entry, w, decoded, found, {o}) && InBody(b, o) && o !in w.visited
    requires path != [] && path[|path| - 1] == o && IsScan(b, path) && (forall q :: q in path ==> q in decoded + {o})
    requires ScanState(b, path).Some? && ScanState(b, path).value.tables == tables
    ensures var more := Learn(b, found, o, tables);
            Explored(b, entry, decoded + {o}, more, w.visited + {o} + SlotOf(b, o),
                     SetOf(w.worklist) + {o} + Successors(b, more, o))
  {
    hide Explored, ScanState, IsScan, SlotOf, Successors, Learn;
    Decodes(b, entry, decoded, found, w.visited, SetOf(w.worklist) + {o}, o, path);
  }

  /** Decodes the instruction at `cursor`, which ends the scan `path`. */
  method DecodeAt(b: Body, entry: nat, cursor: nat, w: Walked, an: Analyzer, ghost decoded: set<nat>,
                  ghost found: Found, ghost path: seq<nat>, ghost order: seq<nat>)
    returns (failure: Option<Failure>, w': Walked, cursor': nat, open: bool, ghost decoded': set<nat>,
             ghost found': Found, ghost path': seq<nat>)
    requires IsOrder(b, entry, order) && SetOf(order) == decoded
             && (order == [] && InBody(b, entry) ==> cursor == entry)
    requires order != [] && ScansOn(b, order[|order| - 1], Seen(b, order)) ==> cursor == Next(b, order[|order| - 1])
    requires an.Valid() && InBody(b, cursor) && cursor !in w.visited
    requires WalkOk(b, entry, w, decoded, found, {cursor})
    requires IsScan(b, path) && (forall o :: o in path ==> o in decoded) && ScanState(b, path) == Some(an.State())
    requires path != [] ==> cursor == Next(b, path[|path| - 1])
    modifies an`stack, an`tables, an.regs
    ensures an.Valid() && w.visited + {cursor} <= w'.visited
    ensures failure.Some? ==> failure.value.Rejected? || failure.value.EmptyTable?
    ensures failure.Some? ==> Fails(b, entry, decoded', found', failure.value)
    ensures path' == path + [cursor] && IsScan(b, path')
    ensures failure == None ==> WalkOk(b, entry, w', decoded', found', Pending(open, cursor'))
    ensures failure == None ==> forall o :: o in path' ==> o in decoded'
    ensures failure == None ==> ScanState(b, path') == Some(an.State()) && cursor' == Next(b, cursor)
    ensures failure == None ==> decoded' == decoded + {cursor} && IsOrder(b, entry, order + [cursor])
                                && SetOf(order + [cursor]) == decoded'
    ensures failure == None ==> (open <==> !InsnAt(b, cursor).op.JumpReg? && !InsnAt(b, cursor).flow.Jumps?)
  {
    hide IsOrder, ScansOn, Seen, Explored, Successors, SlotOf, Follows, TableTargets, ScanState, SlotsOf, Analyze,
         Learn, IsMax, Fails;
    failure, w', cursor', open, decoded', found', path' := None, w, cursor, false, decoded, found, path + [cursor];
    ScanExtends(b, path, cursor);
    SeenIsVisited(b, entry, w, decoded, found, {cursor}, order);
    OrderExtends(b, entry, order, cursor);
    FailsHere(b, entry, w, decoded, found, cursor, path);
    NotFoundYet(b, entry, w, decoded, found, {cursor}, cursor);
    var visited := w.visited + {cursor};
    var furthest := if cursor > w.furthest then cursor else w.furthest;
    w' := Walked(visited, w.worklist, furthest);
    MaxVisits(cursor, entry, w.visited, w.furthest);
    var insn := InsnAt(b, cursor);
    var ok := an.AnalyzeInstruction(insn.op, VramOf(b, cursor), false);
    if !ok {
      failure := Some(Rejected(cursor));
      return;
    }
    decoded', found' := decoded + {cursor}, Learn(b, found, cursor, an.tables);
    Notes(b, entry, w, decoded, found, cursor, path', an.tables);
    ghost var noted := w';
    if insn.op.JumpReg? {
      ok, w' := FollowJumpReg(b, cursor, an.tables, w', found);
      cursor' := Next(b, cursor);
      if !ok {
        w' := Walked(visited, w.worklist, furthest);
        failure, decoded', found' := Some(EmptyTable(cursor)), decoded, found;
        return;
      }
    } else {
      LearnsNothing(b, found, cursor, an.tables);
      w', cursor', open := FollowOther(b, cursor, w', found');
    }
    Settles(b, entry, noted, w', decoded', found, found', cursor, Pending(open, cursor'));
    LearnedTables(b, found, cursor, an.tables);
  }

  lemma LearnsNothing(b: Body, found: Found, o: nat, tables: seq<Table>)
    requires InBody(b, o) && !InsnAt(b, o).op.JumpReg?
    ensures Learn(b, found, o, tables) == found
  {
  }

  lemma LearnedTables(b: Body, found: Found, o: nat, tables: seq<Table>)
    requires InBody(b, o) && (forall q :: q in found ==> TableTargets(b, found[q]) != [])
    requires IsTableJump(b, o) && tables != [] ==> TableTargets(b, tables[|tables| - 1].vram) != []
    ensures forall q :: q in Learn(b, found, o, tables) ==> TableTargets(b, Learn(b, found, o, tables)[q]) != []
  {
  }

  lemma ScanNothing(b: Body)
    ensures IsScan(b, []) && ScanState(b, []) == Some(Fresh())
  {
  }

  /** Scans from `off` to the end of its block, or to an instruction already visited. */
  method ScanBlock(b: Body, entry: nat, off: nat, w0: Walked, ghost decoded0: set<nat>, ghost found0: Found,
                   ghost order0: seq<nat>)
    returns (failure: Option<Failure>, w: Walked, ghost decoded: set<nat>, ghost found: Found, ghost order: seq<nat>)
    requires WalkOk(b, entry, w0, decoded0, found0, {off}) && off !in w0.visited
    requires IsOrder(b, entry, order0) && SetOf(order0) == decoded0 && Ended(b, order0)
    requires order0 == [] && InBody(b, entry) ==> off == entry
    ensures failure == None ==> IsOrder(b, entry, order) && SetOf(order) == decoded && Ended(b, order)
    ensures if InBody(b, off) then failure == None ==> order != [] else order == order0
    ensures failure == None ==> WalkOk(b, entry, w, decoded, found, {})
    ensures if InBody(b, off) then off in w.visited && w0.visited <= w.visited else failure == None && w == w0
    ensures failure.Some? ==> failure.value.Rejected? || failure.value.EmptyTable?
    ensures failure.Some? ==> Fails(b, entry, decoded, found, failure.value)
  {
    hide Explored, Successors, SlotOf, IsMax, Follows, TableTargets, ScanState, IsTableJump, SlotsOf, Analyze, InsnAt,
         Learn, Fails, IsOrder, Seen, Next;
    failure, w, decoded, found, order := None, w0, decoded0, found0, order0;
    var an := new Analyzer();
    ScanNothing(b);
    var cursor, open := off, true;
    ghost var path: seq<nat> := [];
    while open && InBody(b, cursor)
      invariant fresh(an) && fresh(an.regs) && an.Valid()
      invariant WalkOk(b, entry, w, decoded, found, Pending(open, cursor))
      invariant IsScan(b, path) && (forall o :: o in path ==> o in decoded)
      invariant open ==> ScanState(b, path) == Some(an.State())
      invariant if path == [] then open && cursor == off && w == w0
                else InBody(b, off) && off in w.visited && (open ==> cursor == Next(b, path[|path| - 1]))
      invariant w0.visited <= w.visited && failure == None
      invariant IsOrder(b, entry, order) && SetOf(order) == decoded
      invariant if path == [] then order == order0 else order != [] && order[|order| - 1] == path[|path| - 1]
      invariant !open ==> Ended(b, order)
      decreases Offsets(b) - w.visited, open
    {
      if cursor in w.visited {
        open := false;
        SeenIsVisited(b, entry, w, decoded, found, {cursor}, order);
        StopsHere(b, entry, w, decoded, found, cursor);
        break;
      }
      ghost var before := cursor;
      failure, w, cursor, open, decoded, found, path := DecodeAt(b, entry, cursor, w, an, decoded, found, path, order);
      if failure.Some? { return; }
      order := order + [before];
    }
    if open {
      StopsHere(b, entry, w, decoded, found, cursor);
    }
  }

  lemma Pops(b: Body, entry: nat, w: Walked, decoded: set<nat>, found: Found)
    requires WalkOk(b, entry, w, decoded, found, {}) && w.worklist != []
    ensures var n := |w.worklist| - 1;
            WalkOk(b, entry, w.(worklist := w.worklist[..n]), decoded, found, {w.worklist[n]})
  {
    hide Explored;
    var n := |w.worklist| - 1;
    assert SetOf(w.worklist) + {} == SetOf(w.worklist[..n]) + {w.worklist[n]};
  }

  lemma Starts(b: Body, entry: nat)
    ensures WalkOk(b, entry, Walked({}, [entry], entry), {}, map[], {})
  {
    hide Explored;
    Begins(b, entry);
    assert SetOf([entry]) + {} == {entry};
  }

  /** What the size covers: it is the distance from the entry to the end of the
      furthest visited instruction. */
  ghost predicate Covers(b: Body, entry: nat, visited: set<nat>, size: nat) {
    && size >= 4 && entry + size <= |b.bytes|
    && entry + size - 4 in visited
    && forall o :: o in visited && o >= entry ==> o + 4 <= entry + size
  }

  /** The size of the function at `entry`, by walking its control flow. */
  method DiscoverFunctionBounds(b: Body, entry: Addr)
    returns (r: Sized, ghost visited: set<nat>, ghost decoded: set<nat>, ghost found: Found, ghost order: seq<nat>)
    ensures r.Size? ==> Explored(b, entry, decoded, found, visited, {})
    ensures r.Size? ==> IsOrder(b, entry, order) && SetOf(order) == decoded && Ended(b, order)
    ensures r.Size? ==> forall o :: o in found ==> TableTargets(b, found[o]) != []
    ensures r.Size? && InBody(b, entry) ==> entry in visited && Covers(b, entry, visited, r.size)
    ensures !InBody(b, entry) && |b.bytes| <= entry ==>
              r == Failed(if Add(entry, 4) > |b.bytes| then PastEnd else NothingReached)
    ensures InBody(b, entry) && |b.bytes| < WORD - 4 ==> r != Failed(PastEnd) && r != Failed(NothingReached)
    ensures r.Failed? && !r.why.PastEnd? && !r.why.NothingReached? ==> Fails(b, entry, decoded, found, r.why)
  {
    hide Explored, Fails, IsOrder, Ended;
    visited, decoded, found, order := {}, {}, map[], [];
    if Add(entry, 4) > |b.bytes| {
      return Failed(PastEnd), visited, decoded, found, order;
    }
    NoOrder(b, entry);
    var w := Walked({}, [entry], entry);
    Starts(b, entry);
    while w.worklist != []
      invariant WalkOk(b, entry, w, decoded, found, {})
      invariant !InBody(b, entry) ==> w == Walked({}, [entry], entry) || w == Walked({}, [], entry)
      invariant IsOrder(b, entry, order) && SetOf(order) == decoded && Ended(b, order)
      invariant order == [] && InBody(b, entry) ==> w == Walked({}, [entry], entry)
      decreases Offsets(b) - w.visited, |w.worklist|
    {
      var n := |w.worklist| - 1;
      var off := w.worklist[n];
      Pops(b, entry, w, decoded, found);
      ghost var before := w.visited;
      w := w.(worklist := w.worklist[..n]);
      if off in w.visited {
        StopsHere(b, entry, w, decoded, found, off);
      } else {
        var failure;
        failure, w, decoded, found, order := ScanBlock(b, entry, off, w, decoded, found, order);
        if failure.Some? {
          return Failed(failure.value), w.visited, decoded, found, order;
        }
      }
    }
    visited := w.visited;
    EndsInBody(b, entry, w, decoded, found);
    var end := if w.furthest + 4 > |b.bytes| then |b.bytes| else w.furthest + 4;
    if end <= entry {
      return Failed(NothingReached), visited, decoded, found, order;
    }
    r := Size(end - entry);
  }

  lemma NoOrder(b: Body, entry: nat)
    ensures IsOrder(b, entry, []) && SetOf([]) == {} && Ended(b, [])
  {
  }

  lemma EndsInBody(b: Body, entry: nat, w: Walked, decoded: set<nat>, found: Found)
    requires WalkOk(b, entry, w, decoded, found, {}) && w.worklist == []
    ensures Explored(b, entry, decoded, found, w.visited, {})
    ensures InBody(b, entry) ==> entry in w.visited
    ensures forall o :: o in w.visited ==> InBody(b, o)
  {
    assert SetOf(w.worklist) + {} == {};
  }

  // ----- What the walk finds -----

  /** Every reachable instruction of the body is visited. */
  ghost predicate FindsAll(b: Body, entry: nat, found: Found, visited: set<nat>) {
    forall o :: InBody(b, o) && Reachable(b, found, entry, o) ==> o in visited
  }

  /** Delay slots that control also reaches on its own lead to visited instructions. */
  ghost predicate SlotsLeadToVisited(b: Body, entry: nat, decoded: set<nat>, found: Found, visited: set<nat>) {
    forall o, s :: o in visited && o !in decoded && InBody(b, o) && Reachable(b, found, entry, o)
      && s in Successors(b, found, o) && InBody(b, s)
      ==> s in visited
  }

  lemma {:induction false} PathIsVisited(b: Body, entry: nat, decoded: set<nat>, found: Found, visited: set<nat>,
                                         path: seq<nat>)
    requires Explored(b, entry, decoded, found, visited, {}) && SlotsLeadToVisited(b, entry, decoded, found, visited)
    requires path != [] && path[0] == entry && IsFlow(b, found, path) && InBody(b, path[|path| - 1])
    ensures path[|path| - 1] in visited
    decreases |path|
  {
    hide SlotOf, Finds, Successors;
    if |path| > 1 {
      var init := path[..|path| - 1];
      var o := init[|init| - 1];
      assert path[|path| - 2 + 1] in Successors(b, found, path[|path| - 2]);
      assert IsFlow(b, found, init);
      PathIsVisited(b, entry, decoded, found, visited, init);
      assert Reachable(b, found, entry, o);
    }
  }

  /** The walk finds everything reachable exactly when no delay slot that is also
      reached on its own leads anywhere the walk did not go. */
  lemma FindsAllExactly(b: Body, entry: nat, decoded: set<nat>, found: Found, visited: set<nat>)
    requires Explored(b, entry, decoded, found, visited, {})
    ensures FindsAll(b, entry, found, visited) <==> SlotsLeadToVisited(b, entry, decoded, found, visited)
  {
    hide SlotOf, Finds, Successors, IsFlow, Explored;
    if FindsAll(b, entry, found, visited) {
      forall o, s | o in visited && o !in decoded && InBody(b, o) && Reachable(b, found, entry, o)
        && s in Successors(b, found, o) && InBody(b, s)
        ensures s in visited
      {
        ReachableStep(b, found, entry, o, s);
      }
    }
    if SlotsLeadToVisited(b, entry, decoded, found, visited) {
      forall o | InBody(b, o) && Reachable(b, found, entry, o)
        ensures o in visited
      {
        var path :| path != [] && path[0] == entry && path[|path| - 1] == o && IsFlow(b, found, path);
        PathIsVisited(b, entry, decoded, found, visited, path);
      }
    }
  }

  /** No transfer goes to a delay slot: no reachable instruction is the slot of another. */
  ghost predicate SlotsAreShadows(b: Body, entry: nat, found: Found) {
    forall o, s :: Reachable(b, found, entry, o) && Reachable(b, found, entry, s) ==> s !in SlotOf(b, o)
  }

  /** With no transfer into a delay slot, the visited set is exactly the reachable
      instructions and their delay slots. */
  lemma VisitsExactlyTheReachable(b: Body, entry: nat, decoded: set<nat>, found: Found, visited: set<nat>)
    requires Explored(b, entry, decoded, found, visited, {}) && SlotsAreShadows(b, entry, found)
    ensures forall o :: InBody(b, o) ==> (o in decoded <==> Reachable(b, found, entry, o))
    ensures visited == decoded + SlotsOf(b, decoded)
  {
    hide SlotOf, Finds, Successors, IsFlow, Reachable;
    forall o | o in visited && o !in decoded
      ensures !Reachable(b, found, entry, o)
    {
      var t :| t in decoded && o in SlotOf(b, t);
    }
    FindsAllExactly(b, entry, decoded, found, visited);
  }

  /** Branches are relative, so they keep the alignment of the instruction. */
  ghost predicate DecodesAligned(b: Body) {
    forall o :: InBody(b, o) && InsnAt(b, o).flow.Branches? && InsnAt(b, o).flow.target.Some? ==>
      (InsnAt(b, o).flow.target.value - VramOf(b, o)) % 4 == 0
  }

  lemma {:induction false} TargetsAligned(b: Body, off: nat)
    ensures forall t :: t in TargetsFrom(b, off) ==> t % 4 == 0
    decreases |b.bytes| - off
  {
    if InBody(b, off) {
      TargetsAligned(b, off + 4);
    }
  }

  lemma SuccessorsAligned(b: Body, found: Found, o: nat, s: nat)
    requires DecodesAligned(b) && InBody(b, o) && o % 4 == 0 && s in Successors(b, found, o)
    ensures s % 4 == 0
  {
    var i := InsnAt(b, o);
    if i.op.JumpReg? {
      if o in found && found[o] >= b.base {
        TargetsAligned(b, found[o] - b.base);
      }
    } else if i.flow.Branches? && i.flow.target.Some? && s in BranchTarget(b, i.flow.target) {
      TargetOffset(b.base, o, i.flow.target.value);
    }
  }

  lemma TargetOffset(base: Addr, o: nat, target: Addr)
    requires o % 4 == 0 && (target - Add(base, o)) % 4 == 0 && target >= base
    ensures (target - base) % 4 == 0
  {
    assert Add(base, o) == base + o - WORD * ((base + o) / WORD);
  }

  lemma {:induction false} PathAligned(b: Body, found: Found, path: seq<nat>)
    requires DecodesAligned(b) && path != [] && path[0] % 4 == 0 && IsFlow(b, found, path)
    ensures path[|path| - 1] % 4 == 0
    decreases |path|
  {
    hide Successors, DecodesAligned;
    if |path| > 1 {
      var init := path[..|path| - 1];
      assert path[|path| - 2 + 1] in Successors(b, found, path[|path| - 2]);
      assert IsFlow(b, found, init);
      PathAligned(b, found, init);
      SuccessorsAligned(b, found, path[|path| - 2], path[|path| - 1]);
    }
  }

  /** From an aligned entry, sizes are whole numbers of instructions. */
  lemma SizesAreAligned(b: Body, entry: nat, decoded: set<nat>, found: Found, visited: set<nat>, size: nat)
    requires Explored(b, entry, decoded, found, visited, {}) && Covers(b, entry, visited, size)
    requires DecodesAligned(b) && entry % 4 == 0
    ensures size % 4 == 0
  {
    hide Explored, Reachable, DecodesAligned, SlotOf;
    var last := entry + size - 4;
    assert last in decoded + SlotsOf(b, decoded) by { VisitedIs(b, entry, decoded, found, visited); }
    if last in decoded {
      DecodedAligned(b, entry, decoded, found, visited, last);
    } else {
      var t :| t in decoded && last in SlotOf(b, t);
      DecodedAligned(b, entry, decoded, found, visited, t);
      SlotAligned(b, t, last);
    }
  }

  lemma VisitedIs(b: Body, entry: nat, decoded: set<nat>, found: Found, visited: set<nat>)
    requires Explored(b, entry, decoded, found, visited, {})
    ensures visited == decoded + SlotsOf(b, decoded)
  {
  }

  lemma SlotAligned(b: Body, t: nat, s: nat)
    requires s in SlotOf(b, t) && t % 4 == 0
    ensures s % 4 == 0
  {
  }

  lemma DecodedAligned(b: Body, entry: nat, decoded: set<nat>, found: Found, visited: set<nat>, o: nat)
    requires Explored(b, entry, decoded, found, visited, {}) && o in decoded && DecodesAligned(b) && entry % 4 == 0
    ensures o % 4 == 0
  {
    hide Successors, DecodesAligned, Finds, SlotsOf, IsFlow;
    var path :| path != [] && path[0] == entry && path[|path| - 1] == o && IsFlow(b, found, path);
    PathAligned(b, found, path);
  }

  // ----- A slot that hides code -----

  /** A branch to the delay slot of a jump: `beq` to 12; `nop`; `j` elsewhere; its slot; code. */
  function HidingAt(a: Addr): Insn {
    if a == 0 then Insn(Other(None, None), Branches(Some(12)))
    else if a == 8 then Insn(Other(None, None), Jumps)
    else Insn(Other(None, None), Falls)
  }

  const HIDING: Body := Body(seq(20, _ => 0), 0, (word: Addr, a: Addr) => HidingAt(a))

  lemma HidingFacts(found: Found, o: nat)
    requires InBody(HIDING, o)
    ensures o <= 16
    ensures Successors(HIDING, found, o) == if o == 0 then {8, 12} else if o == 8 then {} else {o + 4}
    ensures SlotOf(HIDING, o) == if o == 0 || o == 8 then {o + 4} else {}
  {
    assert InsnAt(HIDING, o) == HidingAt(o);
  }

  /** The walk decodes the branch, then the jump. */
  lemma HidingOrder(order: seq<nat>)
    requires IsOrder(HIDING, 0, order) && Ended(HIDING, order) && order != []
    ensures |order| >= 2 && order[0] == 0 && order[1] == 8
  {
    hide ScansOn, Seen;
    assert order[..1] == [0];
    assert |order| == 1 ==> order == [0];
    HidingScansOn();
    assert Next(HIDING, 0) == 8 by { assert InsnAt(HIDING, 0) == HidingAt(0); }
  }

  lemma HidingScansOn()
    ensures ScansOn(HIDING, 0, Seen(HIDING, [0]))
  {
    HidingFacts(map[], 0);
    assert InsnAt(HIDING, 0) == HidingAt(0);
    assert SetOf([0]) == {0};
  }

  lemma SlotIsSeen(order: seq<nat>)
    requires |order| >= 2 && order[1] == 8
    ensures 12 in Seen(HIDING, order)
  {
    hide SlotOf;
    HidingFacts(map[], 8);
    assert 8 in SetOf(order) && 12 in SlotOf(HIDING, 8);
  }

  /** So the slot of the jump is visited before it is popped, and never decoded. */
  lemma SlotNotDecoded(order: seq<nat>)
    requires IsOrder(HIDING, 0, order) && Ended(HIDING, order) && order != []
    ensures 12 !in order
  {
    hide ScansOn, Ended, Next, Seen;
    HidingOrder(order);
    forall k | 0 <= k < |order| ensures order[k] != 12 {
      if k >= 2 {
        SlotIsSeen(order[..k]);
      }
    }
  }

  lemma {:induction false} NothingElseDecoded(decoded: set<nat>, found: Found, visited: set<nat>, o: nat)
    requires Explored(HIDING, 0, decoded, found, visited, {}) && 12 !in decoded && o in decoded
    ensures o == 0 || o == 8
    decreases o
  {
    hide Finds, Reachable, Successors, SlotOf, SlotsOf;
    if o != 0 {
      var d :| d in decoded && InBody(HIDING, d) && o in Successors(HIDING, found, d);
      HidingFacts(found, d);
      if d != 0 && d != 8 {
        NothingElseDecoded(decoded, found, visited, d);
      }
    }
  }

  lemma HiddenIsReachable(found: Found)
    ensures InBody(HIDING, 16) && Reachable(HIDING, found, 0, 16)
  {
    hide Successors;
    HidingFacts(found, 0);
    HidingFacts(found, 12);
    assert IsFlow(HIDING, found, [0, 12, 16]);
  }

  /** Whatever the walk of that body returns, it has decoded the branch and the jump only.
      The code at 16 is reached through the slot at 12: it is not visited, and the size
      ends before it. */
  lemma SlotHidesCode(decoded: set<nat>, found: Found, visited: set<nat>, order: seq<nat>, size: nat)
    requires Explored(HIDING, 0, decoded, found, visited, {}) && Covers(HIDING, 0, visited, size)
    requires IsOrder(HIDING, 0, order) && SetOf(order) == decoded && Ended(HIDING, order)
    ensures decoded == {0, 8} && visited == {0, 4, 8, 12} && size == 16
    ensures InBody(HIDING, 16) && Reachable(HIDING, found, 0, 16)
  {
    hide Finds, Reachable, Successors, SlotOf, IsOrder, Ended, Covers, IsFollowed;
    HiddenIsReachable(found);
    HidingFacts(found, 0);
    HidingFacts(found, 8);
    assert order != [];
    HidingOrder(order);
    SlotNotDecoded(order);
    assert 0 in SetOf(order) && 8 in SetOf(order) && 12 !in SetOf(order);
    forall o | o in decoded ensures o == 0 || o == 8 {
      NothingElseDecoded(decoded, found, visited, o);
    }
    assert decoded == {0, 8};
    assert SlotsOf(HIDING, {0, 8}) == {4, 12};
    HidingSize(visited, size);
  }

  lemma HidingSize(visited: set<nat>, size: nat)
    requires Covers(HIDING, 0, visited, size) && visited == {0, 4, 8, 12}
    ensures size == 16
  {
    assert 12 in visited;
  }
}
