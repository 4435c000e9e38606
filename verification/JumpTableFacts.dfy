/** What a recognised jump table means: the address the `jr` goes to is the word that
    the recorded load read, at the recorded base plus the recorded register. */
module JumpTableFacts {
  import opened Halves
  import opened Machine
  import opened JumpTables

  type Registers = s: seq<Addr> | |s| == 32 witness seq(32, _ => 0)

  /** The running program: registers (low words) and the words of memory. */
  datatype Conc = Conc(gpr: Registers, word: Addr -> Addr)

  function Value(c: Conc, r: Reg): Addr {
    if r == 0 then 0 else c.gpr[r]
  }

  /** Registers other than those in `changed` keep their values. */
  ghost predicate Only(c: Conc, c': Conc, changed: set<Reg>) {
    forall r: Reg :: r !in changed ==> Value(c', r) == Value(c, r)
  }

  function Writes(op: Op): set<Reg> {
    match op
    case Lui(rt, _) => {rt}
    case Addiu(rt, _, _) => {rt}
    case Addu(rd, _, _) => {rd}
    case Copy(rd, _, _) => {rd}
    case Lw(rt, _, _) => {rt}
    case Sw(_, _, _) => {}
    case JumpReg(_) => {}
    case Other(first, second) =>
      (if first.Some? then {first.value} else {}) + (if second.Some? then {second.value} else {})
  }

  /** One instruction of the program. Memory may change in any way; a `Copy` that is
      not a move, and any other instruction, may leave anything in what it writes. */
  ghost predicate Runs(op: Op, c: Conc, c': Conc) {
    && Only(c, c', Writes(op))
    && match op
       case Lui(rt, imm) => rt != 0 ==> Value(c', rt) == Upper(imm)
       case Addiu(rt, rs, imm) => rt != 0 ==> Value(c', rt) == Add(Value(c, rs), Extended(imm))
       case Addu(rd, rs, rt) => rd != 0 ==> Value(c', rd) == Add(Value(c, rs), Value(c, rt))
       case Copy(rd, rs, rt) =>
         && (rd != 0 && rs == 0 ==> Value(c', rd) == Value(c, rt))
         && (rd != 0 && rt == 0 ==> Value(c', rd) == Value(c, rs))
       case Lw(rt, base, imm) => rt != 0 ==> Value(c', rt) == c.word(Add(Value(c, base), Extended(imm)))
       case _ => true
  }

  /** The instruction that is translated: a load of a table entry, named in `lws`, becomes
      the addition of its address. */
  function Rewritten(op: Op, vram: Addr, lws: set<Addr>): Op {
    if op.Lw? && vram in lws then Addiu(op.rt, op.base, op.imm) else op
  }

  /** A run of straight-line code, with the loads `lws` rewritten. */
  ghost predicate IsTrace(ops: seq<Op>, trace: seq<Conc>, start: Addr, lws: set<Addr>)
    requires start + 4 * |ops| < WORD
  {
    |trace| == |ops| + 1 &&
    forall i :: 0 <= i < |ops| ==> Runs(Rewritten(ops[i], start + 4 * i, lws), trace[i], trace[i + 1])
  }

  /** The uses of registers that the simulation gets right: nothing is written to
      register 0, no register that holds a base plus an index gets a second index, and a
      loaded word is not added to. */
  predicate Clean(a: Analysis, op: Op) {
    match op
    case Lui(rt, _) => rt != 0
    case Addiu(rt, rs, _) => rt != 0 && (a.regs[rs].validLoaded ==> a.regs[rs].validAddiu)
    case Addu(rd, rs, rt) =>
      && rd != 0
      && (a.regs[rs].validLui != a.regs[rt].validLui ==>
            !(if a.regs[rs].validLui then a.regs[rs] else a.regs[rt]).validAddend)
    case Copy(rd, _, _) => rd != 0
    case Lw(rt, base, imm) => rt != 0
    case _ => true
  }

  ghost predicate CleanAll(ops: seq<Op>, start: Addr)
    requires start + 4 * |ops| < WORD
  {
    forall i :: 0 <= i < |ops| && Scan(ops, start, i, false).Some? ==> Clean(Scan(ops, start, i, false).value, ops[i])
  }

  // ----- What the stack holds -----

  predicate IsStore(op: Op, slot: nat) {
    op.Sw? && op.base == SP && op.imm / 4 == slot
  }

  /** The last of the first `n` instructions that stores to the stack slot. */
  function LastStore(ops: seq<Op>, n: nat, slot: nat): (r: Option<nat>)
    requires n <= |ops|
    ensures r.Some? ==> r.value < n && IsStore(ops[r.value], slot)
    ensures forall k :: (if r.Some? then r.value + 1 else 0) <= k < n ==> !IsStore(ops[k], slot)
  {
    if n == 0 then None
    else if IsStore(ops[n - 1], slot) then Some(n - 1)
    else LastStore(ops, n - 1, slot)
  }

  /** Whether instruction `i` loads back a tracked value from the stack. */
  predicate Reloads(ops: seq<Op>, start: Addr, i: nat)
    requires start + 4 * |ops| < WORD && i < |ops|
  {
    && ops[i].Lw? && ops[i].base == SP && Scan(ops, start, i, false).Some?
    && var stack := Scan(ops, start, i, false).value.stack;
       Grown(stack, ops[i].imm / 4)[ops[i].imm / 4] != BLANK
  }

  /** In the run, a tracked value that is loaded back from the stack is the one that the
      code last stored there: nothing else has written to that place, and the stack
      pointer is the same. */
  ghost predicate StackKept(ops: seq<Op>, trace: seq<Conc>, start: Addr)
    requires start + 4 * |ops| < WORD && |trace| == |ops| + 1
  {
    forall i :: 0 <= i < |ops| && Reloads(ops, start, i) ==>
      match LastStore(ops, i, ops[i].imm / 4)
      case Some(j) => Value(trace[i + 1], ops[i].rt) == Value(trace[j], ops[j].rt)
      case None => true
  }

  // ----- What the tracked states say about values -----

  /** `vram` is an instruction before the one at index `i`. */
  predicate Past(start: Addr, vram: Addr, i: nat) {
    start <= vram && (vram - start) % 4 == 0 && (vram - start) / 4 < i
  }

  function Index(start: Addr, vram: Addr): nat
    requires start <= vram
  {
    (vram - start) / 4
  }

  /** `v` is the tracked base, plus the index register as it was at the `addu`. */
  ghost predicate IsSum(s: RegState, v: Addr, trace: seq<Conc>, start: Addr, i: nat)
    requires i < |trace|
  {
    var base := Add(s.prevLui, s.prevAddiu);
    if s.validAddend then
      Past(start, s.prevAddu, i) && v == Add(base, Value(trace[Index(start, s.prevAddu)], s.addendReg))
    else v == base
  }

  /** The load at `lw`: the word at `a`, or `a` itself if the load is rewritten. */
  function Loaded(c: Conc, a: Addr, lw: Addr, lws: set<Addr>): Addr {
    if lw in lws then a else c.word(a)
  }

  /** `v` is what the load at `lw` left, indexed by `addend` as it was at `addu`. */
  ghost predicate IsEntry(base: Addr, addend: Reg, lw: Addr, addu: Addr, v: Addr, trace: seq<Conc>, start: Addr,
                          lws: set<Addr>, i: nat)
    requires i < |trace|
  {
    && Past(start, lw, i) && Past(start, addu, Index(start, lw))
    && v == Loaded(trace[Index(start, lw)], Add(base, Value(trace[Index(start, addu)], addend)), lw, lws)
  }

  ghost predicate RegOk(s: RegState, r: Reg, v: Addr, trace: seq<Conc>, start: Addr, lws: set<Addr>, i: nat)
    requires i < |trace|
  {
    && !s.validGotOffset && !s.validGotLoaded && (!s.validAddiu ==> s.prevAddiu == 0) && (r == 0 ==> s == BLANK)
    && (s.validLui ==> !s.validLoaded && IsSum(s, v, trace, start, i))
    && (s.validLoaded ==> !s.validAddiu
                          && IsEntry(s.loadedAddress, s.loadedAddendReg, s.loadedLw, s.loadedAddu, v, trace, start,
                                     lws, i))
  }

  ghost predicate RegsOk(a: Analysis, trace: seq<Conc>, start: Addr, lws: set<Addr>, i: nat)
    requires i < |trace|
  {
    forall r: Reg :: RegOk(a.regs[r], r, Value(trace[i], r), trace, start, lws, i)
  }

  /** The state of a slot is that of the value last stored there. */
  ghost predicate SlotOk(a: Analysis, slot: nat, ops: seq<Op>, trace: seq<Conc>, start: Addr, lws: set<Addr>, i: nat)
    requires i <= |ops| && i < |trace|
  {
    var s := Grown(a.stack, slot)[slot];
    match LastStore(ops, i, slot)
    case None => s == BLANK
    case Some(j) => RegOk(s, ops[j].rt, Value(trace[j], ops[j].rt), trace, start, lws, i)
  }

  ghost predicate StackOk(a: Analysis, ops: seq<Op>, trace: seq<Conc>, start: Addr, lws: set<Addr>, i: nat)
    requires i <= |ops| && i < |trace|
  {
    forall slot: nat :: SlotOk(a, slot, ops, trace, start, lws, i)
  }

  /** A value that is kept or moved keeps its state. */
  lemma RegMoves(s: RegState, r: Reg, r': Reg, v: Addr, trace: seq<Conc>, start: Addr, lws: set<Addr>, i: nat)
    requires i + 1 < |trace| && RegOk(s, r, v, trace, start, lws, i) && (r' != 0 || s == BLANK)
    ensures RegOk(s, r', v, trace, start, lws, i + 1)
  {
  }

  lemma AddAssoc(a: Addr, b: Addr, c: Addr)
    ensures Add(Add(a, b), c) == Add(a, Add(b, c))
  {
    hide Add;
    AddIs(a, b);
    AddIs(Add(a, b), c);
    AddIs(b, c);
    AddIs(a, Add(b, c));
  }

  lemma AddIs(a: Addr, b: Addr)
    ensures Add(a, b) == if a + b < WORD then a + b else a + b - WORD
  {
  }

  lemma AddSwap(a: Addr, b: Addr, c: Addr)
    ensures Add(Add(a, b), c) == Add(Add(a, c), b)
  {
    AddAssoc(a, b, c);
    AddAssoc(a, c, b);
  }

  lemma AddiuOk(s: RegState, rs: Reg, rt: Reg, imm: Half, v: Addr, trace: seq<Conc>, start: Addr, lws: set<Addr>,
                i: nat)
    requires i + 1 < |trace| && RegOk(s, rs, v, trace, start, lws, i) && rt != 0 && (s.validLoaded ==> s.validAddiu)
    ensures RegOk(AfterAddiu(s, imm), rt, Add(v, Extended(imm)), trace, start, lws, i + 1)
  {
    hide Add, Extended, IsEntry;
    if !s.validAddiu && s.validLui {
      AddIs(s.prevLui, 0);
    }
    if !s.validAddiu && s.validLui && s.validAddend {
      var x := Value(trace[Index(start, s.prevAddu)], s.addendReg);
      AddAssoc(s.prevLui, 0, x);
      AddSwap(s.prevLui, Extended(imm), x);
    }
  }

  lemma AddendOk(s: RegState, r: Reg, addend: Reg, rd: Reg, v: Addr, trace: seq<Conc>, start: Addr, lws: set<Addr>,
                 i: nat)
    requires i + 1 < |trace| && RegOk(s, r, v, trace, start, lws, i) && s.validLui && !s.validAddend && rd != 0
    requires start + 4 * i < WORD
    ensures RegOk(WithAddend(s, addend, start + 4 * i), rd, Add(v, Value(trace[i], addend)), trace, start, lws, i + 1)
  {
  }

  lemma AdduOk(a: Analysis, rd: Reg, rs: Reg, rt: Reg, trace: seq<Conc>, start: Addr, lws: set<Addr>, i: nat)
    requires i + 1 < |trace| && RegsOk(a, trace, start, lws, i) && Clean(a, Addu(rd, rs, rt)) && start + 4 * i < WORD
    ensures RegOk(AfterAddu(a, rs, rt, start + 4 * i), rd, Add(Value(trace[i], rs), Value(trace[i], rt)), trace, start,
                  lws, i + 1)
  {
    hide RegOk;
    assert RegOk(a.regs[rs], rs, Value(trace[i], rs), trace, start, lws, i);
    assert RegOk(a.regs[rt], rt, Value(trace[i], rt), trace, start, lws, i);
    NoGot(a.regs[rs], rs, Value(trace[i], rs), trace, start, lws, i);
    NoGot(a.regs[rt], rt, Value(trace[i], rt), trace, start, lws, i);
    if a.regs[rs].validLui != a.regs[rt].validLui {
      if a.regs[rs].validLui {
        AddendOk(a.regs[rs], rs, rt, rd, Value(trace[i], rs), trace, start, lws, i);
      } else {
        AddendOk(a.regs[rt], rt, rs, rd, Value(trace[i], rt), trace, start, lws, i);
      }
    } else {
      BlankOk(rd, Add(Value(trace[i], rs), Value(trace[i], rt)), trace, start, lws, i + 1);
    }
  }

  lemma NoGot(s: RegState, r: Reg, v: Addr, trace: seq<Conc>, start: Addr, lws: set<Addr>, i: nat)
    requires i < |trace| && RegOk(s, r, v, trace, start, lws, i)
    ensures !s.validGotOffset && !s.validGotLoaded
  {
  }

  lemma BlankOk(r: Reg, v: Addr, trace: seq<Conc>, start: Addr, lws: set<Addr>, i: nat)
    requires i < |trace|
    ensures RegOk(BLANK, r, v, trace, start, lws, i)
  {
  }

  /** A load from a tracked base plus index yields a table entry. */
  lemma LwOk(a: Analysis, rt: Reg, base: Reg, imm: Half, trace: seq<Conc>, start: Addr, lws: set<Addr>, i: nat)
    requires i + 1 < |trace| && RegsOk(a, trace, start, lws, i) && rt != 0 && start + 4 * i < WORD
    ensures var at := Add(Value(trace[i], base), Extended(imm));
            RegOk(AfterLw(a, base, imm, start + 4 * i, false), rt, Loaded(trace[i], at, start + 4 * i, lws), trace,
                  start, lws, i + 1)
  {
    hide Add;
    var b, v := a.regs[base], Value(trace[i], base);
    assert RegOk(b, base, v, trace, start, lws, i);
    if b.validLui && b.validAddend && !(imm != 0 && b.validAddiu) {
      var x := Value(trace[Index(start, b.prevAddu)], b.addendReg);
      AddIs(b.prevLui, 0);
      AddIs(v, Extended(imm));
      if imm != 0 {
        AddSwap(b.prevLui, x, Extended(imm));
      }
      assert Index(start, (start + 4 * i) as Addr) == i;
    }
  }

  /** What a load from the stack has found is what the register then holds. */
  ghost predicate Reloaded(a: Analysis, op: Op, trace: seq<Conc>, start: Addr, lws: set<Addr>, i: nat)
    requires i + 1 < |trace|
  {
    op.Lw? && op.base == SP ==>
      RegOk(Grown(a.stack, op.imm / 4)[op.imm / 4], op.rt, Value(trace[i + 1], op.rt), trace, start, lws, i + 1)
  }

  lemma ReloadOk(a: Analysis, ops: seq<Op>, trace: seq<Conc>, start: Addr, lws: set<Addr>, i: nat)
    requires start + 4 * |ops| < WORD && |trace| == |ops| + 1 && i < |ops| && Scan(ops, start, i, false) == Some(a)
    requires StackOk(a, ops, trace, start, lws, i) && StackKept(ops, trace, start) && Clean(a, ops[i])
    ensures Reloaded(a, ops[i], trace, start, lws, i)
  {
    hide RegOk, Scan, Grown, LastStore;
    var op := ops[i];
    if op.Lw? && op.base == SP {
      var slot := op.imm / 4;
      var s := Grown(a.stack, slot)[slot];
      assert SlotOk(a, slot, ops, trace, start, lws, i);
      if s == BLANK {
        BlankOk(op.rt, Value(trace[i + 1], op.rt), trace, start, lws, i + 1);
      } else {
        var j := LastStore(ops, i, slot).value;
        assert Reloads(ops, start, i);
        RegMoves(s, ops[j].rt, op.rt, Value(trace[j], ops[j].rt), trace, start, lws, i);
      }
    }
  }

  lemma SlotStored(a: Analysis, slot: nat, ops: seq<Op>, trace: seq<Conc>, start: Addr, lws: set<Addr>, i: nat)
    requires i < |ops| && i + 1 < |trace| && RegsOk(a, trace, start, lws, i)
    requires IsStore(ops[i], slot) && start + 4 * i < WORD && Analyze(a, ops[i], start + 4 * i, false).Some?
    ensures SlotOk(Analyze(a, ops[i], start + 4 * i, false).value, slot, ops, trace, start, lws, i + 1)
  {
    hide RegOk;
    var r := ops[i].rt;
    assert RegOk(a.regs[r], r, Value(trace[i], r), trace, start, lws, i);
    RegZero(a, trace, start, lws, i);
    RegMoves(a.regs[r], r, r, Value(trace[i], r), trace, start, lws, i);
  }

  /** Other instructions leave the slot alone. */
  lemma SlotStays(a: Analysis, slot: nat, op: Op, vram: Addr)
    requires !IsStore(op, slot) && Analyze(a, op, vram, false).Some?
    ensures var b := Analyze(a, op, vram, false).value;
            Grown(b.stack, slot)[slot] == Grown(a.stack, slot)[slot]
  {
    hide AfterAddiu, AfterAddu, AfterLw, Found;
  }

  lemma SlotStep(a: Analysis, b: Analysis, slot: nat, ops: seq<Op>, trace: seq<Conc>, start: Addr, lws: set<Addr>,
                 i: nat, n: nat)
    requires n == i + 1 <= |ops| && n < |trace| && RegsOk(a, trace, start, lws, i)
    requires SlotOk(a, slot, ops, trace, start, lws, i)
    requires start + 4 * i < WORD && Analyze(a, ops[i], start + 4 * i, false) == Some(b)
    ensures SlotOk(b, slot, ops, trace, start, lws, n)
  {
    hide RegOk, Analyze, Grown, RegsOk;
    if IsStore(ops[i], slot) {
      SlotStored(a, slot, ops, trace, start, lws, i);
    } else {
      SlotStays(a, slot, ops[i], start + 4 * i);
      var s := Grown(a.stack, slot)[slot];
      match LastStore(ops, i, slot) {
        case Some(j) =>
          RegIsBlank(s, ops[j].rt, Value(trace[j], ops[j].rt), trace, start, lws, i);
          RegMoves(s, ops[j].rt, ops[j].rt, Value(trace[j], ops[j].rt), trace, start, lws, i);
        case None =>
      }
    }
  }

  lemma StackStep(a: Analysis, b: Analysis, ops: seq<Op>, trace: seq<Conc>, start: Addr, lws: set<Addr>, i: nat,
                  n: nat)
    requires n == i + 1 <= |ops| && n < |trace| && RegsOk(a, trace, start, lws, i)
             && StackOk(a, ops, trace, start, lws, i)
    requires start + 4 * i < WORD && Analyze(a, ops[i], start + 4 * i, false) == Some(b)
    ensures StackOk(b, ops, trace, start, lws, n)
  {
    hide SlotOk, Analyze, RegsOk;
    forall slot: nat ensures SlotOk(b, slot, ops, trace, start, lws, n) {
      SlotStep(a, b, slot, ops, trace, start, lws, i, n);
    }
  }

  lemma RegIsBlank(s: RegState, r: Reg, v: Addr, trace: seq<Conc>, start: Addr, lws: set<Addr>, i: nat)
    requires i < |trace| && RegOk(s, r, v, trace, start, lws, i)
    ensures r == 0 ==> s == BLANK
  {
  }

  /** Each instruction keeps the tracked states true. */
  lemma StepOk(a: Analysis, op: Op, trace: seq<Conc>, start: Addr, lws: set<Addr>, i: nat)
    requires i + 1 < |trace| && RegsOk(a, trace, start, lws, i) && Clean(a, op)
             && Reloaded(a, op, trace, start, lws, i)
    requires start + 4 * i < WORD && Runs(Rewritten(op, start + 4 * i, lws), trace[i], trace[i + 1])
             && Analyze(a, op, start + 4 * i, false).Some?
    ensures RegsOk(Analyze(a, op, start + 4 * i, false).value, trace, start, lws, i + 1)
  {
    hide RegOk, AfterAddiu, AfterAddu, AfterLw;
    var b := Analyze(a, op, start + 4 * i, false).value;
    forall r: Reg
      ensures RegOk(b.regs[r], r, Value(trace[i + 1], r), trace, start, lws, i + 1)
    {
      if r in Writes(op) {
        WrittenOk(a, op, r, trace, start, lws, i);
      } else {
        assert b.regs[r] == a.regs[r];
        assert RegOk(a.regs[r], r, Value(trace[i], r), trace, start, lws, i);
        RegZero(a, trace, start, lws, i);
        RegMoves(a.regs[r], r, r, Value(trace[i], r), trace, start, lws, i);
      }
    }
  }

  lemma RegZero(a: Analysis, trace: seq<Conc>, start: Addr, lws: set<Addr>, i: nat)
    requires i < |trace| && RegsOk(a, trace, start, lws, i)
    ensures a.regs[0] == BLANK
  {
    assert RegOk(a.regs[0], 0, Value(trace[i], 0), trace, start, lws, i);
  }

  lemma WrittenOk(a: Analysis, op: Op, r: Reg, trace: seq<Conc>, start: Addr, lws: set<Addr>, i: nat)
    requires i + 1 < |trace| && RegsOk(a, trace, start, lws, i) && Clean(a, op)
             && Reloaded(a, op, trace, start, lws, i)
    requires start + 4 * i < WORD && Runs(Rewritten(op, start + 4 * i, lws), trace[i], trace[i + 1])
             && Analyze(a, op, start + 4 * i, false).Some? && r in Writes(op)
    ensures RegOk(Analyze(a, op, start + 4 * i, false).value.regs[r], r, Value(trace[i + 1], r), trace, start, lws,
                  i + 1)
  {
    hide RegOk, AfterAddiu, AfterAddu, AfterLw;
    match op {
      case Lui(rt, imm) => LuiOk(r, imm, trace, start, lws, i + 1);
      case Addiu(rt, rs, imm) =>
        assert RegOk(a.regs[rs], rs, Value(trace[i], rs), trace, start, lws, i);
        AddiuOk(a.regs[rs], rs, rt, imm, Value(trace[i], rs), trace, start, lws, i);
      case Addu(rd, rs, rt) => AdduOk(a, rd, rs, rt, trace, start, lws, i);
      case Copy(rd, rs, rt) =>
        if rs == 0 {
          assert RegOk(a.regs[rt], rt, Value(trace[i], rt), trace, start, lws, i);
          RegMoves(a.regs[rt], rt, rd, Value(trace[i], rt), trace, start, lws, i);
        } else if rt == 0 {
          assert RegOk(a.regs[rs], rs, Value(trace[i], rs), trace, start, lws, i);
          RegMoves(a.regs[rs], rs, rd, Value(trace[i], rs), trace, start, lws, i);
        } else {
          BlankOk(r, Value(trace[i + 1], r), trace, start, lws, i + 1);
        }
      case Lw(rt, base, imm) =>
        if base != SP {
          LwOk(a, rt, base, imm, trace, start, lws, i);
        }
      case Other(_, _) => BlankOk(r, Value(trace[i + 1], r), trace, start, lws, i + 1);
      case Sw(_, _, _) =>
      case JumpReg(_) =>
    }
  }

  lemma LuiOk(r: Reg, imm: Half, trace: seq<Conc>, start: Addr, lws: set<Addr>, i: nat)
    requires i < |trace| && r != 0
    ensures RegOk(BLANK.(prevLui := Upper(imm), validLui := true), r, Upper(imm), trace, start, lws, i)
  {
  }

  // ----- Recognised tables are real -----

  /** Each table: its `jr` goes to the word its load read, at its base plus its index. */
  ghost predicate TablesOk(tables: seq<Table>, ops: seq<Op>, trace: seq<Conc>, start: Addr, lws: set<Addr>, i: nat)
    requires i <= |ops| && i < |trace|
  {
    forall t :: t in tables ==> TableOk(t, ops, trace, start, lws, i)
  }

  ghost predicate TableOk(t: Table, ops: seq<Op>, trace: seq<Conc>, start: Addr, lws: set<Addr>, i: nat)
    requires i <= |ops| && i < |trace|
  {
    && Past(start, t.jr, i) && ops[Index(start, t.jr)].JumpReg? && t.gotOffset == None
    && var j := Index(start, t.jr);
       IsEntry(t.vram, t.addendReg, t.lw, t.addu, Value(trace[j], ops[j].rs), trace, start, lws, j)
  }

  lemma NextTablesOk(a: Analysis, ops: seq<Op>, trace: seq<Conc>, start: Addr, lws: set<Addr>, i: nat)
    requires i < |ops| && i + 1 < |trace| && RegsOk(a, trace, start, lws, i)
             && TablesOk(a.tables, ops, trace, start, lws, i)
    requires start + 4 * i < WORD && Analyze(a, ops[i], start + 4 * i, false).Some?
    ensures TablesOk(Analyze(a, ops[i], start + 4 * i, false).value.tables, ops, trace, start, lws, i + 1)
  {
    hide IsSum, AfterAddiu, AfterAddu, AfterLw, IsEntry;
    var b := Analyze(a, ops[i], start + 4 * i, false).value;
    forall t | t in b.tables
      ensures TableOk(t, ops, trace, start, lws, i + 1)
    {
      if t in a.tables {
        assert TableOk(t, ops, trace, start, lws, i);
      } else {
        var r := ops[i].rs;
        assert RegOk(a.regs[r], r, Value(trace[i], r), trace, start, lws, i);
        assert Index(start, (start + 4 * i) as Addr) == i;
      }
    }
  }

  /** What is known of the registers, the stack and the tables after `i` instructions. */
  ghost predicate Known(a: Analysis, ops: seq<Op>, trace: seq<Conc>, start: Addr, lws: set<Addr>, i: nat)
    requires i <= |ops| && i < |trace|
  {
    && RegsOk(a, trace, start, lws, i) && StackOk(a, ops, trace, start, lws, i)
    && TablesOk(a.tables, ops, trace, start, lws, i)
  }

  lemma KnownNext(a: Analysis, b: Analysis, ops: seq<Op>, trace: seq<Conc>, start: Addr, lws: set<Addr>, i: nat)
    requires start + 4 * |ops| < WORD && IsTrace(ops, trace, start, lws) && i < |ops|
    requires Scan(ops, start, i, false) == Some(a) && Clean(a, ops[i]) && StackKept(ops, trace, start)
    requires Known(a, ops, trace, start, lws, i) && Analyze(a, ops[i], start + 4 * i, false) == Some(b)
    ensures Known(b, ops, trace, start, lws, i + 1)
  {
    hide Clean, Analyze, Runs, RegsOk, TablesOk, StackOk, StackKept, Reloaded, Scan, Rewritten;
    assert Runs(Rewritten(ops[i], start + 4 * i, lws), trace[i], trace[i + 1]);
    ReloadOk(a, ops, trace, start, lws, i);
    StepOk(a, ops[i], trace, start, lws, i);
    StackStep(a, b, ops, trace, start, lws, i, i + 1);
    NextTablesOk(a, ops, trace, start, lws, i);
  }

  lemma {:induction false} RunsOk(ops: seq<Op>, trace: seq<Conc>, start: Addr, lws: set<Addr>, i: nat)
    requires start + 4 * |ops| < WORD && IsTrace(ops, trace, start, lws) && i <= |ops|
    requires CleanAll(ops, start) && StackKept(ops, trace, start) && Scan(ops, start, i, false).Some?
    ensures Known(Scan(ops, start, i, false).value, ops, trace, start, lws, i)
    decreases i
  {
    hide Clean, Analyze, Runs, Known, StackKept;
    if i == 0 {
      FreshOk(ops, trace, start, lws);
    } else {
      ScanEnds(ops, start, i - 1, i, false);
      RunsOk(ops, trace, start, lws, i - 1);
      KnownNext(Scan(ops, start, i - 1, false).value, Scan(ops, start, i, false).value, ops, trace, start, lws, i - 1);
    }
  }

  lemma FreshOk(ops: seq<Op>, trace: seq<Conc>, start: Addr, lws: set<Addr>)
    requires trace != []
    ensures Known(Fresh(), ops, trace, start, lws, 0)
  {
  }

  /** In every run of clean straight-line code, from any registers and memory, that finds
      on the stack what it stored there, the register of each recognised `jr` is what its
      table says: the entry, or, where the load was rewritten, the address of the entry. */
  lemma TablesAreSound(ops: seq<Op>, trace: seq<Conc>, start: Addr, lws: set<Addr>)
    requires start + 4 * |ops| < WORD && IsTrace(ops, trace, start, lws)
    requires CleanAll(ops, start) && StackKept(ops, trace, start) && Scan(ops, start, |ops|, false).Some?
    ensures TablesOk(Scan(ops, start, |ops|, false).value.tables, ops, trace, start, lws, |ops|)
  {
    RunsOk(ops, trace, start, lws, |ops|);
  }

  // ----- Unclean code -----

  /** `lui` of a base, then two indices added to it one after the other. */
  const TWO_INDICES: seq<Op> := [Lui(8, 0x8000), Addu(8, 8, 9), Addu(8, 8, 10), Lw(8, 8, 0), JumpReg(8)]

  lemma TwoIndicesScanned(start: Addr)
    requires start + 24 < WORD
    ensures Scan(TWO_INDICES, start, 5, false).Some?
    ensures Scan(TWO_INDICES, start, 5, false).value.tables
            == [Table(0x8000_0000, 10, start + 12, start + 8, start + 16, None)]
  {
    assert |TWO_INDICES| == 5 && Upper(0x8000) == 0x8000_0000;
    var a0 := Fresh();
    var a1 := Set(a0, 8, BLANK.(prevLui := 0x8000_0000, validLui := true));
    var a2 := Set(a1, 8, WithAddend(a1.regs[8], 9, start + 4));
    var a3 := Set(a2, 8, WithAddend(a2.regs[8], 10, start + 8));
    var a4 := Set(a3, 8, AfterLw(a3, 8, 0, start + 12, false));
    assert Scan(TWO_INDICES, start, 0, false) == Some(a0);
    assert Scan(TWO_INDICES, start, 1, false) == Some(a1);
    assert Scan(TWO_INDICES, start, 2, false) == Some(a2);
    assert Scan(TWO_INDICES, start, 3, false) == Some(a3);
    assert Scan(TWO_INDICES, start, 4, false) == Some(a4);
  }

  lemma TwoIndicesLoaded(trace: seq<Conc>, start: Addr)
    requires start + 24 < WORD && |TWO_INDICES| == 5 && IsTrace(TWO_INDICES, trace, start, {})
    ensures Value(trace[4], 8) == trace[3].word(Add(Add(0x8000_0000, Value(trace[1], 9)), Value(trace[2], 10)))
  {
    hide Add;
    assert Runs(Rewritten(TWO_INDICES[0], start + 4 * 0, {}), trace[0], trace[0 + 1]);
    assert Runs(Rewritten(TWO_INDICES[1], start + 4 * 1, {}), trace[1], trace[1 + 1]);
    assert Runs(Rewritten(TWO_INDICES[2], start + 4 * 2, {}), trace[2], trace[2 + 1]);
    assert Runs(Rewritten(TWO_INDICES[3], start + 4 * 3, {}), trace[3], trace[3 + 1]);
    assert Upper(0x8000) == 0x8000_0000;
    var sum := Value(trace[3], 8);
    AddIs(0x8000_0000, 0);
    AddIs(sum, 0);
    assert Value(trace[1], 8) == 0x8000_0000;
    assert Value(trace[2], 8) == Add(0x8000_0000, Value(trace[1], 9));
  }

  /** With two indices added to one base, only the second is recorded: the recorded
      address is the one that is loaded exactly when the first index is 0. */
  lemma TwoIndicesAreMistaken(trace: seq<Conc>, start: Addr)
    requires start + 24 < WORD && |TWO_INDICES| == 5 && IsTrace(TWO_INDICES, trace, start, {})
    ensures Scan(TWO_INDICES, start, 5, false).Some?
            && Scan(TWO_INDICES, start, 5, false).value.tables
               == [Table(0x8000_0000, 10, start + 12, start + 8, start + 16, None)]
            && Value(trace[4], 8) == trace[3].word(Add(Add(0x8000_0000, Value(trace[1], 9)), Value(trace[2], 10)))
    ensures Add(Add(0x8000_0000, Value(trace[1], 9)), Value(trace[2], 10)) == Add(0x8000_0000, Value(trace[2], 10))
            <==> Value(trace[1], 9) == 0
  {
    hide Scan, Runs, Add;
    TwoIndicesScanned(start);
    TwoIndicesLoaded(trace, start);
    var x, y := Value(trace[1], 9), Value(trace[2], 10);
    AddIs(0x8000_0000, x);
    AddIs(Add(0x8000_0000, x), y);
    AddIs(0x8000_0000, y);
  }
}
