/** Jump tables from the recorded base to the emitted switch: reading the entries out
    of the ROM, and the two forms in which the back ends select one. */
module Switches {
  import opened Machine
  import opened JumpTables
  import opened JumpTableFacts
  import opened TableIdioms
  import opened Host

  /** A function's place: where it runs, where it is in the ROM, and its size. */
  datatype Place = Place(vram: Addr, rom: Addr, size: nat)

  predicate InPlace(f: Place, a: Addr) {
    f.vram <= a < f.vram + f.size
  }

  /** The ROM offset of an address near the function, in 32-bit arithmetic. */
  function RomOf(f: Place, a: Addr): Addr {
    Add(a, (f.rom + WORD - f.vram) % WORD)
  }

  datatype Outcome<T> = Done(value: T)
      /** No entry was found. */
    | Empty
      /** The table runs past the end of the ROM, which the program reads regardless. */
    | Overrun

  // ----- Reading one table -----

  /** The address of entry `k` of the table at `start`. */
  function EntryAddr(start: Addr, k: nat): Addr {
    Add(start, 4 * k)
  }

  predicate InRom(rom: seq<Byte>, f: Place, a: Addr) {
    RomOf(f, a) + 4 <= |rom|
  }

  /** `k` is an entry: before the next table, and the address of an instruction of the function. */
  predicate IsEntryAt(rom: seq<Byte>, f: Place, start: Addr, limit: Addr, k: nat) {
    var a := EntryAddr(start, k);
    a < limit && InRom(rom, f, a) && InPlace(f, BigWordAt(rom, RomOf(f, a)))
  }

  ghost predicate AreEntries(rom: seq<Byte>, f: Place, start: Addr, limit: Addr, entries: seq<Addr>) {
    forall k :: 0 <= k < |entries| ==>
      IsEntryAt(rom, f, start, limit, k) && entries[k] == BigWordAt(rom, RomOf(f, EntryAddr(start, k)))
  }

  /** `entries` is the longest run of entries from `start`. */
  ghost predicate IsTable(rom: seq<Byte>, f: Place, start: Addr, limit: Addr, entries: seq<Addr>) {
    && AreEntries(rom, f, start, limit, entries)
    && !IsEntryAt(rom, f, start, limit, |entries|)
    && (EntryAddr(start, |entries|) < limit ==> InRom(rom, f, EntryAddr(start, |entries|)))
  }

  lemma OneMore(rom: seq<Byte>, f: Place, start: Addr, limit: Addr, entries: seq<Addr>)
    requires AreEntries(rom, f, start, limit, entries) && IsEntryAt(rom, f, start, limit, |entries|)
    ensures AreEntries(rom, f, start, limit, entries + [BigWordAt(rom, RomOf(f, EntryAddr(start, |entries|)))])
  {
    hide IsEntryAt, EntryAddr, RomOf, BigWordAt;
  }

  lemma NextEntry(f: Place, start: Addr, k: nat)
    ensures Add(EntryAddr(start, k), 4) == EntryAddr(start, k + 1)
    ensures RomOf(f, Add(EntryAddr(start, k), 4)) == Add(RomOf(f, EntryAddr(start, k)), 4)
  {
    AddAdd(start, 4 * k, 4);
    AddSwap(EntryAddr(start, k), 4, (f.rom + WORD - f.vram) % WORD);
  }

  /** The table runs past the end of the ROM before it ends. */
  ghost predicate RunsOut(rom: seq<Byte>, f: Place, start: Addr, limit: Addr, entries: seq<Addr>) {
    && AreEntries(rom, f, start, limit, entries)
    && EntryAddr(start, |entries|) < limit && !InRom(rom, f, EntryAddr(start, |entries|))
  }

  /** Reads the entries of the table at `start` until one is not in the function, or
      the next table starts. */
  method ReadEntries(rom: seq<Byte>, f: Place, start: Addr, limit: Addr) returns (r: Outcome<seq<Addr>>)
    requires |rom| <= WORD - 4
    ensures match r
            case Done(entries) => entries != [] && IsTable(rom, f, start, limit, entries)
            case Empty => IsTable(rom, f, start, limit, [])
            case Overrun => exists entries :: RunsOut(rom, f, start, limit, entries)
  {
    hide BigWordAt, EntryAddr, AreEntries;
    var entries: seq<Addr> := [];
    var vram := start;
    FirstEntry(rom, f, start, limit);
    while vram < limit
      invariant vram == EntryAddr(start, |entries|)
      invariant AreEntries(rom, f, start, limit, entries)
      decreases WORD - RomOf(f, vram)
    {
      if !InRom(rom, f, vram) {
        assert RunsOut(rom, f, start, limit, entries);
        return Overrun;
      }
      var word := BigWordAt(rom, RomOf(f, vram));
      if word < f.vram || word >= f.vram + f.size {
        break;
      }
      NextEntry(f, start, |entries|);
      OneMore(rom, f, start, limit, entries);
      entries := entries + [word];
      vram := Add(vram, 4);
    }
    r := if entries == [] then Empty else Done(entries);
  }

  lemma FirstEntry(rom: seq<Byte>, f: Place, start: Addr, limit: Addr)
    ensures EntryAddr(start, 0) == start && AreEntries(rom, f, start, limit, [])
  {
  }

  // ----- All tables of a function -----

  predicate Sorted(starts: seq<Addr>) {
    forall i, j :: 0 <= i < j < |starts| ==> starts[i] <= starts[j]
  }

  /** Where table `i` must end. */
  function Limit(starts: seq<Addr>, i: nat): Addr
    requires i < |starts|
  {
    if i + 1 < |starts| then starts[i + 1] else WORD - 1
  }

  /** Sizes the tables of a function, given their sorted addresses. */
  method SizeTables(rom: seq<Byte>, f: Place, starts: seq<Addr>) returns (r: Outcome<seq<seq<Addr>>>)
    requires |rom| <= WORD - 4 && Sorted(starts)
    ensures r.Done? ==> |r.value| == |starts|
    ensures r.Done? ==> forall i :: 0 <= i < |starts| ==>
                          r.value[i] != [] && IsTable(rom, f, starts[i], Limit(starts, i), r.value[i])
    ensures r.Empty? ==> exists i :: 0 <= i < |starts| && IsTable(rom, f, starts[i], Limit(starts, i), [])
    ensures r.Overrun? ==>
              exists i, entries :: 0 <= i < |starts| && RunsOut(rom, f, starts[i], Limit(starts, i), entries)
  {
    var tables: seq<seq<Addr>> := [];
    for i := 0 to |starts|
      invariant |tables| == i
      invariant forall k :: 0 <= k < i ==> tables[k] != [] && IsTable(rom, f, starts[k], Limit(starts, k), tables[k])
    {
      var t := ReadEntries(rom, f, starts[i], Limit(starts, i));
      match t {
        case Done(entries) => tables := tables + [entries];
        case Empty => return Empty;
        case Overrun => return Overrun;
      }
    }
    r := Done(tables);
  }

  /** Two `jr`s that use one table make the analysis fail. */
  lemma SharedTableIsEmpty(rom: seq<Byte>, f: Place, starts: seq<Addr>, i: nat)
    requires i + 1 < |starts| && starts[i] == starts[i + 1]
    ensures IsTable(rom, f, starts[i], Limit(starts, i), [])
  {
  }

  /** Aligned tables do not overlap: each ends where the next begins at the latest. */
  lemma TablesAreApart(rom: seq<Byte>, f: Place, starts: seq<Addr>, i: nat, entries: seq<Addr>)
    requires i + 1 < |starts| && starts[i] % 4 == 0 && starts[i + 1] % 4 == 0
    requires IsTable(rom, f, starts[i], Limit(starts, i), entries) && 4 * |entries| < WORD
    ensures entries != [] ==> starts[i] + 4 * |entries| <= starts[i + 1]
  {
    if entries != [] {
      NoWrap(rom, f, starts[i], Limit(starts, i), entries, |entries| - 1);
    }
  }

  lemma {:induction false} NoWrap(rom: seq<Byte>, f: Place, start: Addr, limit: Addr, entries: seq<Addr>, k: nat)
    requires IsTable(rom, f, start, limit, entries) && k < |entries| && start % 4 == 0 && limit % 4 == 0
    ensures start + 4 * k < limit
    decreases k
  {
    hide BigWordAt, RomOf, InRom, InPlace, EntryAddr;
    assert IsEntryAt(rom, f, start, limit, k);
    if k > 0 {
      NoWrap(rom, f, start, limit, entries, k - 1);
      NextAligned(start, limit, k);
    }
    EntryAddrIs(start, k);
  }

  lemma NextAligned(start: Addr, limit: Addr, k: nat)
    requires start % 4 == 0 && limit % 4 == 0 && k > 0 && start + 4 * (k - 1) < limit
    ensures start + 4 * k <= limit
  {
  }

  lemma EntryAddrIs(start: Addr, k: nat)
    requires start + 4 * k < WORD
    ensures EntryAddr(start, k) == start + 4 * k
  {
  }

  // ----- Selecting an entry -----

  const LONG: nat := WORD * WORD

  /** The C back end: `switch (addend >> 2)` on the 64-bit index register, with cases
      0 to `n` - 1. `None` is the switch-error arm. */
  function CaseOf(index: Addr, n: nat): (r: Option<nat>) {
    var selector := SignExtend(index) / 4;
    if selector < n then Some(selector) else None
  }

  /** The JIT back end: the sign-extended base is subtracted from the register of the
      `jr`, the difference is compared unsigned, doubled, and used as the offset of an
      8-byte pointer. */
  function SlotAt(register: Addr, base: Addr, n: nat): (r: Option<nat>) {
    var offset := (SignExtend(register) + LONG - SignExtend(base)) % LONG;
    if offset >= 4 * n then None else Some((offset + offset) / 8)
  }

  /** With the register that the rewritten load leaves, the address of the entry. */
  function SlotOf(base: Addr, index: Addr, n: nat): (r: Option<nat>) {
    SlotAt(Add(base, index), base, n)
  }

  /** The offset the JIT computes is the index, except that a table that lies across
      the middle of the address space looks 2^32 away on its other side. */
  lemma OffsetIs(base: Addr, index: Addr)
    ensures var offset := (SignExtend(Add(base, index)) + LONG - SignExtend(base)) % LONG;
            var half := WORD / 2;
            && (base >= half && index < half ==> offset == index)
            && (base < half && index < half ==> offset == if base + index < half then index else index + LONG - WORD)
            && (index >= half ==> offset >= half)
  {
    var half := WORD / 2;
    if base + index < WORD {
      assert Add(base, index) == base + index;
    } else {
      assert Add(base, index) == base + index - WORD;
    }
  }

  /** A table of `n` entries lies on one side of the middle of the address space. */
  predicate OnOneSide(base: Addr, n: nat) {
    base >= WORD / 2 || base + 4 * n <= WORD / 2
  }

  /** The back ends select the same entry for every aligned index exactly when the
      table does not lie across the middle of the address space. */
  lemma BackEndsAgree(base: Addr, n: nat)
    requires base % 4 == 0 && 4 * n <= WORD / 2
    ensures OnOneSide(base, n) <==> forall index: Addr :: index % 4 == 0 ==> SlotOf(base, index, n) == CaseOf(index, n)
  {
    if OnOneSide(base, n) {
      forall index: Addr | index % 4 == 0
        ensures SlotOf(base, index, n) == CaseOf(index, n)
      {
        SameSlot(base, index, n);
      }
    } else {
      var index: Addr := 4 * (n - 1);
      OtherSlot(base, index, n);
      assert SlotOf(base, index, n) != CaseOf(index, n);
    }
  }

  lemma SameSlot(base: Addr, index: Addr, n: nat)
    requires index % 4 == 0 && 4 * n <= WORD / 2 && OnOneSide(base, n)
    ensures SlotOf(base, index, n) == CaseOf(index, n)
  {
    OffsetIs(base, index);
  }

  lemma OtherSlot(base: Addr, index: Addr, n: nat)
    requires index == 4 * n - 4 && base % 4 == 0 && 4 * n <= WORD / 2 && !OnOneSide(base, n)
    ensures SlotOf(base, index, n) == None && CaseOf(index, n) == Some(n - 1)
  {
    OffsetIs(base, index);
  }

  // ----- End to end -----

  /** Memory still holds the entries that were read from the ROM. */
  ghost predicate Holds(word: Addr -> Addr, base: Addr, entries: seq<Addr>) {
    forall k :: 0 <= k < |entries| ==> word(EntryAddr(base, k)) == entries[k]
  }

  lemma SelectsWord(word: Addr -> Addr, base: Addr, entries: seq<Addr>, index: Addr)
    requires Holds(word, base, entries) && index % 4 == 0
    ensures var c := CaseOf(index, |entries|);
            if index / 4 < |entries| && index < WORD / 2 then c == Some(index / 4)
              && entries[c.value] == word(Add(base, index))
            else c == None || |entries| > LONG / 8
  {
    if index / 4 < |entries| && index < WORD / 2 {
      assert EntryAddr(base, index / 4) == Add(base, index);
    }
  }

  /** Memory at `base` is still what the ROM holds there. */
  ghost predicate IsLoaded(word: Addr -> Addr, rom: seq<Byte>, f: Place, base: Addr, n: nat) {
    forall k :: 0 <= k < n ==>
      InRom(rom, f, EntryAddr(base, k)) && word(EntryAddr(base, k)) == BigWordAt(rom, RomOf(f, EntryAddr(base, k)))
  }

  lemma TableIsHeld(word: Addr -> Addr, rom: seq<Byte>, f: Place, base: Addr, limit: Addr, entries: seq<Addr>)
    requires IsTable(rom, f, base, limit, entries) && IsLoaded(word, rom, f, base, |entries|)
    ensures Holds(word, base, entries)
  {
    hide BigWordAt, RomOf, EntryAddr;
  }

  /** What the selection `c` means when the program jumps to `target`: every index in the
      table selects the entry that the program jumps to, any other the switch error. */
  predicate Selects(c: Option<nat>, entries: seq<Addr>, index: Addr, target: Addr) {
    if index / 4 < |entries| && index < WORD / 2 then c == Some(index / 4) && entries[index / 4] == target
    else c == None
  }

  /** A recognised table in clean code. `program` is a run of the code, `translated` one
      in which the table load is rewritten; they agree on the index when it is added.
      The C switch on the saved index, and the JIT switch on the register of the `jr` as
      its delay slot leaves it, select the entry that the program jumps to. */
  lemma SwitchGoesWhereJumpGoes(t: Table, ops: seq<Op>, start: Addr, lws: set<Addr>, program: seq<Conc>,
                                translated: seq<Conc>, entries: seq<Addr>)
    requires start + 4 * |ops| < WORD && CleanAll(ops, start)
    requires Scan(ops, start, |ops|, false).Some? && t in Scan(ops, start, |ops|, false).value.tables
    requires IsTrace(ops, program, start, {}) && IsTrace(ops, translated, start, lws) && t.lw in lws
    requires StackKept(ops, program, start) && StackKept(ops, translated, start)
    requires TableOk(t, ops, program, start, {}, |ops|) ==>
               && Value(translated[Index(start, t.addu)], t.addendReg)
                 == Value(program[Index(start, t.addu)], t.addendReg)
               && Value(program[Index(start, t.addu)], t.addendReg) % 4 == 0
               && Holds(program[Index(start, t.lw)].word, t.vram, entries) && 4 * |entries| <= WORD / 2
    ensures TableOk(t, ops, program, start, {}, |ops|)
    ensures var index, j := Value(program[Index(start, t.addu)], t.addendReg), Index(start, t.jr);
            && Selects(CaseOf(index, |entries|), entries, index, Value(program[j], ops[j].rs))
            && (OnOneSide(t.vram, |entries|) && j + 1 < |ops| && ops[j].rs !in Writes(ops[j + 1]) ==>
                  Selects(SlotAt(Value(translated[j + 2], ops[j].rs), t.vram, |entries|), entries, index,
                          Value(program[j], ops[j].rs)))
  {
    hide Scan, CleanAll, Runs, CaseOf, SlotAt, Add, Holds, OnOneSide, StackKept;
    TablesAreSound(ops, program, start, {});
    TablesAreSound(ops, translated, start, lws);
    var index, j := Value(program[Index(start, t.addu)], t.addendReg), Index(start, t.jr);
    assert TableOk(t, ops, program, start, {}, |ops|);
    assert TableOk(t, ops, translated, start, lws, |ops|);
    BothSelect(program[Index(start, t.lw)].word, t.vram, entries, index);
    if j + 1 < |ops| && ops[j].rs !in Writes(ops[j + 1]) {
      JumpKeeps(ops, translated, start, lws, j, ops[j].rs);
    }
  }

  lemma BothSelect(word: Addr -> Addr, base: Addr, entries: seq<Addr>, index: Addr)
    requires Holds(word, base, entries) && index % 4 == 0 && 4 * |entries| <= WORD / 2
    ensures Selects(CaseOf(index, |entries|), entries, index, word(Add(base, index)))
    ensures OnOneSide(base, |entries|) ==>
              Selects(SlotAt(Add(base, index), base, |entries|), entries, index, word(Add(base, index)))
  {
    SelectsWord(word, base, entries, index);
    if OnOneSide(base, |entries|) {
      SameSlot(base, index, |entries|);
    }
  }

  /** The whole way for one table jump, whatever the code in between does to other
      registers and to memory: the analysis records the table, and from the entries read
      out of the ROM both back ends select the big-endian word at the base plus the
      index, where the program jumps, or the switch error. The JIT reads its register
      after the delay slot, so the slot must not write it. */
  lemma IdiomGoesWhereJumpGoes(ops: seq<Op>, start: Addr, x: Idiom, got: bool, lws: set<Addr>, program: seq<Conc>,
                               translated: seq<Conc>, rom: seq<Byte>, f: Place, limit: Addr, entries: seq<Addr>)
    requires start + 4 * |ops| < WORD && Fits(ops, x) && x.jr + 1 < |ops|
    requires Scan(ops, start, |ops|, got).Some? && Scan(ops, start, x.addu, got).Some?
    requires IsIndex(Scan(ops, start, x.addu, got).value.regs[x.index], x.index, x.base)
    requires IsTrace(ops, program, start, {}) && IsTrace(ops, translated, start, lws) && start + 4 * x.lw in lws
    requires Value(translated[x.addu], x.index) == Value(program[x.addu], x.index)
             && Value(program[x.addu], x.index) % 4 == 0
    requires IsTable(rom, f, Base(x), limit, entries) && 4 * |entries| <= WORD / 2
    requires IsLoaded(program[x.lw].word, rom, f, Base(x), |entries|)
    ensures TableOf(x, start) in Scan(ops, start, |ops|, got).value.tables
    ensures var index := Value(program[x.addu], x.index);
            var target := Value(program[x.jr], x.word);
            && target == program[x.lw].word(Add(Base(x), index))
            && Selects(CaseOf(Value(translated[x.addu], x.index), |entries|), entries, index, target)
            && (OnOneSide(Base(x), |entries|) && x.word !in Writes(ops[x.jr + 1]) ==>
                  Selects(SlotAt(Value(translated[x.jr + 2], x.word), Base(x), |entries|), entries, index, target))
  {
    hide Scan, IsTable, IsLoaded, CaseOf, SlotAt, Add, Holds, OnOneSide, IsIndex, Runs, Base, TableOf, BaseFits, Spared;
    IdiomIsRecognised(ops, start, x, got);
    IdiomLoads(ops, program, start, {}, x);
    IdiomLoads(ops, translated, start, lws, x);
    TableIsHeld(program[x.lw].word, rom, f, Base(x), limit, entries);
    BothSelect(program[x.lw].word, Base(x), entries, Value(program[x.addu], x.index));
    if x.word !in Writes(ops[x.jr + 1]) {
      JumpKeeps(ops, translated, start, lws, x.jr, x.word);
    }
  }

  lemma JumpKeeps(ops: seq<Op>, trace: seq<Conc>, start: Addr, lws: set<Addr>, j: nat, r: Reg)
    requires start + 4 * |ops| < WORD && j + 1 < |ops| && ops[j].JumpReg? && IsTrace(ops, trace, start, lws)
    requires r !in Writes(ops[j + 1])
    ensures Value(trace[j + 2], r) == Value(trace[j], r)
  {
    assert Runs(Rewritten(ops[j], start + 4 * j, lws), trace[j], trace[j + 1]);
    assert Runs(Rewritten(ops[j + 1], start + 4 * (j + 1), lws), trace[j + 1], trace[j + 1 + 1]);
  }

  /** What the register may be when the JIT reads it, after the slot: for an index in the
      table it selects the right entry exactly if the register still is in that entry. */
  lemma JitNeedsRegister(register: Addr, base: Addr, index: Addr, n: nat)
    requires OnOneSide(base, n) && 4 * n <= WORD / 2 && index % 4 == 0 && index / 4 < n
    ensures SlotAt(register, base, n) == Some(index / 4) <==> Minus(register, Add(base, index)) < 4
  {
    var offset := Minus(register, base);
    AddMinus(register, base);
    OffsetIs(base, offset);
    MinusAdd(register, base, index);
  }

  lemma MinusAdd(a: Addr, b: Addr, c: Addr)
    requires c < WORD / 2
    ensures Minus(a, Add(b, c)) < 4 <==> c <= Minus(a, b) < c + 4
  {
  }

  /** A delay slot that loads 0 into the register of the jump: the program is long gone,
      but the JIT takes the switch error whatever the index is. */
  lemma SlotMisleadsJit(ops: seq<Op>, start: Addr, x: Idiom, lws: set<Addr>, trace: seq<Conc>, n: nat)
    requires start + 4 * |ops| < WORD && Fits(ops, x) && x.jr + 1 < |ops| && IsTrace(ops, trace, start, lws)
    requires ops[x.jr + 1] == Lui(x.word, 0) && 0 < Base(x) <= WORD - 4 * n
    ensures SlotAt(Value(trace[x.jr + 2], x.word), Base(x), n) == None
  {
    assert Runs(Rewritten(ops[x.jr + 1], start + 4 * (x.jr + 1), lws), trace[x.jr + 1], trace[x.jr + 1 + 1]);
    assert Value(trace[x.jr + 2], x.word) == 0;
    SlotOfZero(Base(x), n);
  }

  lemma SlotOfZero(base: Addr, n: nat)
    requires 0 < base <= WORD - 4 * n
    ensures SlotAt(0, base, n) == None
  {
    assert SignExtend(0) == 0;
  }

  // ----- In the emitted function -----

  /** The registers and the memory that a state of the emitted code stands for. */
  function Abstract(g: Guest, word: Addr -> Addr): Conc {
    Conc(seq(32, r requires 0 <= r < 32 => Low(g.gpr[r])), word)
  }

  /** The emitted code runs through the code of a table jump: its states `host`, with
      memories `memory`, are a run with the load rewritten; `vars` are its locals at the
      switch, with the index as it was saved before the `addu` and the word at the address
      that the rewritten load left. For a sign extended aligned index and a table that
      still holds what was read out of the ROM, the switch has a step exactly if the index
      is in the table, and it goes where the big-endian word at base plus index says. */
  lemma SwitchTakesItsCase(ops: seq<Op>, start: Addr, x: Idiom, lws: set<Addr>, host: seq<Guest>,
                           memory: seq<Addr -> Addr>, vars: Locals, rom: seq<Byte>, f: Place, limit: Addr,
                           entries: seq<Addr>)
    requires start + 4 * |ops| < WORD && Fits(ops, x) && |host| == |memory| == |ops| + 1
    requires IsTrace(ops, seq(|host|, i requires 0 <= i < |host| => Abstract(host[i], memory[i])), start, lws)
    requires start + 4 * x.lw in lws
    requires var jr, index := start + 4 * x.jr, Low(Get(host[x.addu], x.index));
             && jr in vars.addends && vars.addends[jr] == SignExtend(index) && index % 4 == 0
             && jr in vars.words && vars.words[jr] == memory[x.lw](Low(Get(host[x.lw + 1], x.word)))
    requires IsTable(rom, f, Base(x), limit, entries) && 4 * |entries| <= WORD / 2
    requires IsLoaded(memory[x.lw], rom, f, Base(x), |entries|)
    ensures var jr, index := start + 4 * x.jr, Low(Get(host[x.addu], x.index));
            && (TakesCase(vars, jr, entries) <==> index / 4 < |entries| && index < WORD / 2)
            && (TakesCase(vars, jr, entries) ==>
                  && InRom(rom, f, Add(Base(x), index))
                  && entries[vars.addends[jr] / 4] == BigWordAt(rom, RomOf(f, Add(Base(x), index))))
  {
    hide IsTable, IsLoaded, Add, Holds, Runs, Base, BaseFits, Spared, InRom, RomOf, BigWordAt;
    var trace := seq(|host|, i requires 0 <= i < |host| => Abstract(host[i], memory[i]));
    var index := Low(Get(host[x.addu], x.index));
    IdiomLoads(ops, trace, start, lws, x);
    ValueKept(ops, trace, start, lws, x.lw, x.jr, x.word);
    AbstractValue(host[x.addu], memory[x.addu], x.index);
    AbstractValue(host[x.lw + 1], memory[x.lw + 1], x.word);
    TableIsHeld(memory[x.lw], rom, f, Base(x), limit, entries);
    SelectsWord(memory[x.lw], Base(x), entries, index);
    if index / 4 < |entries| && index < WORD / 2 {
      EntryInRom(memory[x.lw], rom, f, Base(x), entries, index);
    }
  }

  lemma AbstractValue(g: Guest, word: Addr -> Addr, r: Reg)
    ensures Value(Abstract(g, word), r) == Low(Get(g, r))
  {
  }

  lemma EntryInRom(word: Addr -> Addr, rom: seq<Byte>, f: Place, base: Addr, entries: seq<Addr>, index: Addr)
    requires IsLoaded(word, rom, f, base, |entries|) && index % 4 == 0 && index / 4 < |entries|
    ensures InRom(rom, f, Add(base, index)) && word(Add(base, index)) == BigWordAt(rom, RomOf(f, Add(base, index)))
  {
    hide BigWordAt, RomOf;
    assert EntryAddr(base, index / 4) == Add(base, index);
  }
}
