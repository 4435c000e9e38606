/** The code that compilers emit for a `switch`, with anything in between: it is
    recognised, and its `jr` uses the entry at the base plus the index. */
module TableIdioms {
  import opened Halves
  import opened Machine
  import opened JumpTables
  import opened JumpTableFacts

  /** Where the instructions of one table jump are, and what they name. With `addiu` the
      low half of the base is added to it, without `addiu` it is in the load. */
  datatype Idiom = Idiom(
    hi: Half, lo: Half, lui: nat, addiu: Option<nat>, addu: nat, lw: nat, jr: nat,
    upper: Reg, base: Reg, index: Reg, swapped: bool, sum: Reg, word: Reg)

  /** No instruction between `i` and `j` writes `r`. */
  predicate Spared(ops: seq<Op>, i: nat, j: nat, r: Reg)
    requires j <= |ops|
  {
    forall k :: i < k < j ==> r !in Writes(ops[k])
  }

  /** `addu` with its operands either way around. */
  function Indexed(rd: Reg, base: Reg, index: Reg, swapped: bool): Op {
    if swapped then Addu(rd, index, base) else Addu(rd, base, index)
  }

  predicate BaseFits(ops: seq<Op>, x: Idiom) {
    && x.lui < x.addu < |ops| && ops[x.lui] == Lui(x.upper, x.hi)
    && match x.addiu
       case None => x.upper == x.base && Spared(ops, x.lui, x.addu, x.base)
       case Some(k) =>
         && x.lui < k < x.addu && ops[k] == Addiu(x.base, x.upper, x.lo)
         && Spared(ops, x.lui, k, x.upper) && Spared(ops, k, x.addu, x.base)
  }

  /** The instructions are where `x` says, and those in between leave the register that
      carries the address, or the word, alone. */
  predicate Fits(ops: seq<Op>, x: Idiom) {
    && BaseFits(ops, x) && x.addu < x.lw < x.jr < |ops|
    && ops[x.addu] == Indexed(x.sum, x.base, x.index, x.swapped) && Spared(ops, x.addu, x.lw, x.sum)
    && ops[x.lw] == Lw(x.word, x.sum, Offset(x)) && Spared(ops, x.lw, x.jr, x.word)
    && ops[x.jr] == JumpReg(x.word)
    && x.upper != 0 && x.base != 0 && x.sum != 0 && x.word != 0 && x.sum != SP && x.word != RA
  }

  /** The offset of the load. */
  function Offset(x: Idiom): Half {
    if x.addiu.Some? then 0 else x.lo
  }

  function Base(x: Idiom): Addr {
    Add(Upper(x.hi), Extended(x.lo))
  }

  function TableOf(x: Idiom, start: Addr): Table
    requires start + 4 * x.lw < WORD && start + 4 * x.addu < WORD && start + 4 * x.jr < WORD
  {
    Table(Base(x), x.index, start + 4 * x.lw, start + 4 * x.addu, start + 4 * x.jr, None)
  }

  /** A register that the analysis takes for an index when it is added to `base`. */
  predicate IsIndex(s: RegState, index: Reg, base: Reg) {
    !s.validLui && !s.validGotOffset && (index == GP || base == GP ==> !s.validGotLoaded)
  }

  // ----- The analysis -----

  lemma {:induction false} StateKept(ops: seq<Op>, start: Addr, i: nat, j: nat, r: Reg, got: bool)
    requires i < j <= |ops| && start + 4 * |ops| < WORD && Spared(ops, i, j, r)
    requires Scan(ops, start, i + 1, got).Some? && Scan(ops, start, j, got).Some?
    ensures Scan(ops, start, j, got).value.regs[r] == Scan(ops, start, i + 1, got).value.regs[r]
    decreases j
  {
    hide Analyze;
    if i + 1 < j {
      ScanEnds(ops, start, j - 1, j, got);
      StateKept(ops, start, i, j - 1, r, got);
      WritesOnly(Scan(ops, start, j - 1, got).value, ops[j - 1], start + 4 * (j - 1), got, r);
    }
  }

  lemma WritesOnly(a: Analysis, op: Op, vram: Addr, got: bool, r: Reg)
    requires r !in Writes(op) && Analyze(a, op, vram, got).Some?
    ensures Analyze(a, op, vram, got).value.regs[r] == a.regs[r]
  {
  }

  lemma TablesGrow(a: Analysis, op: Op, vram: Addr, got: bool)
    requires Analyze(a, op, vram, got).Some?
    ensures a.tables <= Analyze(a, op, vram, got).value.tables
  {
  }

  lemma {:induction false} TablesKept(ops: seq<Op>, start: Addr, i: nat, j: nat, t: Table, got: bool)
    requires i <= j <= |ops| && start + 4 * |ops| < WORD && Scan(ops, start, i, got).Some?
    requires t in Scan(ops, start, i, got).value.tables && Scan(ops, start, j, got).Some?
    ensures t in Scan(ops, start, j, got).value.tables
    decreases j
  {
    hide Analyze;
    if i < j {
      ScanEnds(ops, start, j - 1, j, got);
      TablesKept(ops, start, i, j - 1, t, got);
      TablesGrow(Scan(ops, start, j - 1, got).value, ops[j - 1], start + 4 * (j - 1), got);
    }
  }

  /** What the registers of the idiom are known to hold. */
  function BaseState(x: Idiom): RegState {
    var s := BLANK.(prevLui := Upper(x.hi), validLui := true);
    if x.addiu.Some? then s.(prevAddiu := Extended(x.lo), validAddiu := true) else s
  }

  lemma BaseIsKnown(ops: seq<Op>, start: Addr, x: Idiom, got: bool)
    requires BaseFits(ops, x) && start + 4 * |ops| < WORD && Scan(ops, start, x.addu, got).Some?
    ensures Scan(ops, start, x.addu, got).value.regs[x.base] == BaseState(x)
  {
    hide Spared;
    ScanEnds(ops, start, x.lui, x.addu, got);
    ScanEnds(ops, start, x.lui + 1, x.addu, got);
    match x.addiu {
      case None => StateKept(ops, start, x.lui, x.addu, x.base, got);
      case Some(k) =>
        ScanEnds(ops, start, k, x.addu, got);
        ScanEnds(ops, start, k + 1, x.addu, got);
        StateKept(ops, start, x.lui, k, x.upper, got);
        StateKept(ops, start, k, x.addu, x.base, got);
    }
  }

  /** In any straight-line code that the analysis gets through, the table jump is found,
      with its whole base, if its index does not look like a base itself. */
  lemma IdiomIsRecognised(ops: seq<Op>, start: Addr, x: Idiom, got: bool)
    requires Fits(ops, x) && start + 4 * |ops| < WORD && Scan(ops, start, |ops|, got).Some?
    requires Scan(ops, start, x.addu, got).Some?
    requires IsIndex(Scan(ops, start, x.addu, got).value.regs[x.index], x.index, x.base)
    ensures TableOf(x, start) in Scan(ops, start, |ops|, got).value.tables
  {
    hide Spared, BaseFits, TableOf, Analyze, BaseState, IsIndex, WithAddend, Indexed;
    assert BaseFits(ops, x);
    BaseIsKnown(ops, start, x, got);
    ScanEnds(ops, start, x.addu + 1, |ops|, got);
    ScanEnds(ops, start, x.lw, |ops|, got);
    ScanEnds(ops, start, x.lw + 1, |ops|, got);
    StateKept(ops, start, x.addu, x.lw, x.sum, got);
    IndexIsKnown(Scan(ops, start, x.addu, got).value, x, start + 4 * x.addu, got);
    EntryIsKnown(ops, start, x, got);
    TablesKept(ops, start, x.jr + 1, |ops|, TableOf(x, start), got);
  }

  lemma IndexIsKnown(a: Analysis, x: Idiom, vram: Addr, got: bool)
    requires a.regs[x.base] == BaseState(x) && IsIndex(a.regs[x.index], x.index, x.base)
    ensures Analyze(a, Indexed(x.sum, x.base, x.index, x.swapped), vram, got)
            == Some(Set(a, x.sum, WithAddend(BaseState(x), x.index, vram)))
  {
  }

  lemma EntryIsKnown(ops: seq<Op>, start: Addr, x: Idiom, got: bool)
    requires Fits(ops, x) && start + 4 * |ops| < WORD && Scan(ops, start, |ops|, got).Some?
    requires Scan(ops, start, x.lw, got).Some?
    requires Scan(ops, start, x.lw, got).value.regs[x.sum] == WithAddend(BaseState(x), x.index, start + 4 * x.addu)
    ensures Scan(ops, start, x.jr + 1, got).Some?
    ensures TableOf(x, start) in Scan(ops, start, x.jr + 1, got).value.tables
  {
    hide Spared, BaseFits, Analyze, EntryState, TableOf, BaseState;
    ScanEnds(ops, start, x.lw + 1, |ops|, got);
    ScanEnds(ops, start, x.jr, |ops|, got);
    ScanEnds(ops, start, x.jr + 1, |ops|, got);
    StateKept(ops, start, x.lw, x.jr, x.word, got);
    LoadIsKnown(Scan(ops, start, x.lw, got).value, x, start, got);
    JumpIsFound(Scan(ops, start, x.jr, got).value, x, start, got);
  }

  /** What is known of the loaded word. */
  function EntryState(x: Idiom, start: Addr): RegState
    requires start + 4 * x.lw < WORD && start + 4 * x.addu < WORD
  {
    BLANK.(validLoaded := true, loadedLw := start + 4 * x.lw, loadedAddress := Base(x),
           loadedAddendReg := x.index, loadedAddu := start + 4 * x.addu)
  }

  lemma LoadIsKnown(a: Analysis, x: Idiom, start: Addr, got: bool)
    requires start + 4 * x.lw < WORD && start + 4 * x.addu < WORD
    requires a.regs[x.sum] == WithAddend(BaseState(x), x.index, start + 4 * x.addu)
    requires x.sum != SP
    ensures Analyze(a, Lw(x.word, x.sum, Offset(x)), start + 4 * x.lw, got)
            == Some(Set(a, x.word, EntryState(x, start)))
  {
    AddIs(Upper(x.hi), 0);
  }

  lemma JumpIsFound(a: Analysis, x: Idiom, start: Addr, got: bool)
    requires start + 4 * x.lw < WORD && start + 4 * x.addu < WORD && start + 4 * x.jr < WORD
    requires a.regs[x.word] == EntryState(x, start) && x.word != RA
    ensures TableOf(x, start) in Analyze(a, JumpReg(x.word), start + 4 * x.jr, got).value.tables
  {
    assert Found(a.regs[x.word], start + 4 * x.jr) == [TableOf(x, start)];
  }

  // ----- The run -----

  lemma {:induction false} ValueKept(ops: seq<Op>, trace: seq<Conc>, start: Addr, lws: set<Addr>, i: nat, j: nat,
                                     r: Reg)
    requires start + 4 * |ops| < WORD && IsTrace(ops, trace, start, lws) && i < j <= |ops| && Spared(ops, i, j, r)
    ensures Value(trace[j], r) == Value(trace[i + 1], r)
    decreases j
  {
    if i + 1 < j {
      ValueKept(ops, trace, start, lws, i, j - 1, r);
      assert Runs(Rewritten(ops[j - 1], start + 4 * (j - 1), lws), trace[j - 1], trace[j - 1 + 1]);
    }
  }

  /** The address before the index is added. */
  function Unindexed(x: Idiom): Addr {
    if x.addiu.Some? then Base(x) else Upper(x.hi)
  }

  lemma BaseIsHeld(ops: seq<Op>, trace: seq<Conc>, start: Addr, lws: set<Addr>, x: Idiom)
    requires start + 4 * |ops| < WORD && IsTrace(ops, trace, start, lws) && BaseFits(ops, x) && x.upper != 0
             && x.base != 0
    ensures Value(trace[x.addu], x.base) == Unindexed(x)
  {
    hide Spared, Add;
    assert Runs(Rewritten(ops[x.lui], start + 4 * x.lui, lws), trace[x.lui], trace[x.lui + 1]);
    match x.addiu {
      case None => ValueKept(ops, trace, start, lws, x.lui, x.addu, x.base);
      case Some(k) =>
        assert Runs(Rewritten(ops[k], start + 4 * k, lws), trace[k], trace[k + 1]);
        ValueKept(ops, trace, start, lws, x.lui, k, x.upper);
        ValueKept(ops, trace, start, lws, k, x.addu, x.base);
    }
  }

  /** In every run, from any registers and memory, the register of the `jr` is the word
      at the base plus the index as it was at the `addu`, or the address of that word. */
  lemma IdiomLoads(ops: seq<Op>, trace: seq<Conc>, start: Addr, lws: set<Addr>, x: Idiom)
    requires start + 4 * |ops| < WORD && IsTrace(ops, trace, start, lws) && Fits(ops, x)
    ensures Value(trace[x.jr], x.word)
            == Loaded(trace[x.lw], Add(Base(x), Value(trace[x.addu], x.index)), start + 4 * x.lw, lws)
  {
    hide Spared, BaseFits, Add;
    BaseIsHeld(ops, trace, start, lws, x);
    assert Runs(Rewritten(ops[x.addu], start + 4 * x.addu, lws), trace[x.addu], trace[x.addu + 1]);
    assert Runs(Rewritten(ops[x.lw], start + 4 * x.lw, lws), trace[x.lw], trace[x.lw + 1]);
    ValueKept(ops, trace, start, lws, x.addu, x.lw, x.sum);
    ValueKept(ops, trace, start, lws, x.lw, x.jr, x.word);
    var index := Value(trace[x.addu], x.index);
    AddCommutes(Unindexed(x), index);
    assert Value(trace[x.lw], x.sum) == Add(Unindexed(x), index);
    LowIsAdded(x, index);
  }

  lemma AddCommutes(a: Addr, b: Addr)
    ensures Add(a, b) == Add(b, a)
  {
  }

  lemma LowIsAdded(x: Idiom, index: Addr)
    ensures Add(Add(Unindexed(x), index), Extended(Offset(x))) == Add(Base(x), index)
  {
    hide Add;
    AddSwap(Upper(x.hi), index, Extended(x.lo));
    AddIs(Add(Unindexed(x), index), 0);
  }
}
