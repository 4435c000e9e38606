/** Recognising jump tables: the simulation of registers along straight-line code that
    tracks `lui`, `addiu`, `addu` and `lw` up to the `jr` that uses the loaded word. */
module JumpTables {
  import opened Halves
  import opened Machine

  const SP: Reg := 29
  const GP: Reg := 28

  /** What is known about one register, or one stack slot. */
  datatype RegState = RegState(
    prevLui: Addr, prevAddiu: Addr, prevAddu: Addr, addendReg: Reg, gotOffset: Addr,
    validLui: bool, validAddiu: bool, validAddend: bool, validGotOffset: bool,
    loadedLw: Addr, loadedAddu: Addr, loadedAddress: Addr, loadedAddendReg: Reg,
    validLoaded: bool, validGotLoaded: bool)

  const BLANK := RegState(0, 0, 0, 0, 0, false, false, false, false, 0, 0, 0, 0, false, false)

  /** The instructions the simulation tells apart. `Copy` is `daddu` or `or`. Any other
      instruction is known by the registers it overwrites. */
  datatype Op =
    | Lui(rt: Reg, imm: Half)
    | Addiu(rt: Reg, rs: Reg, imm: Half)
    | Addu(rd: Reg, rs: Reg, rt: Reg)
    | Copy(rd: Reg, rs: Reg, rt: Reg)
    | Sw(base: Reg, rt: Reg, imm: Half)
    | Lw(rt: Reg, base: Reg, imm: Half)
    | JumpReg(rs: Reg)
    | Other(first: Option<Reg>, second: Option<Reg>)

  datatype Table = Table(vram: Addr, addendReg: Reg, lw: Addr, addu: Addr, jr: Addr, gotOffset: Option<Addr>)

  type RegStates = s: seq<RegState> | |s| == 32 witness seq(32, _ => BLANK)

  datatype Analysis = Analysis(regs: RegStates, stack: seq<RegState>, tables: seq<Table>)

  function Fresh(): Analysis {
    Analysis(seq(32, _ => BLANK), [], [])
  }

  function Upper(imm: Half): Addr {
    imm * 0x1_0000
  }

  // ----- What one instruction does to the state -----

  function Set(a: Analysis, r: Reg, s: RegState): Analysis {
    a.(regs := a.regs[r := s])
  }

  /** The state of `rd` after a move, or nothing if it is not one. */
  function Moved(a: Analysis, rs: Reg, rt: Reg): RegState {
    if rs == 0 then a.regs[rt] else if rt == 0 then a.regs[rs] else BLANK
  }

  function AfterAddiu(s: RegState, imm: Half): RegState {
    if s.validAddiu then BLANK else s.(prevAddiu := Extended(imm), validAddiu := true)
  }

  function WithAddend(s: RegState, addend: Reg, vram: Addr): RegState {
    s.(validAddend := true, addendReg := addend, prevAddu := vram)
  }

  /** The destination of an `addu`: a table base plus an index, or the last step of a
      position independent table. A plain move is forgotten. */
  function AfterAddu(a: Analysis, rs: Reg, rt: Reg, vram: Addr): RegState {
    var s, t := a.regs[rs], a.regs[rt];
    if s.validGotOffset != t.validGotOffset then
      if s.validGotOffset then WithAddend(s, rt, vram) else WithAddend(t, rs, vram)
    else if (rs == GP || rt == GP) && s.validGotLoaded != t.validGotLoaded then
      if s.validGotLoaded then s else t
    else if s.validLui != t.validLui then
      if s.validLui then WithAddend(s, rt, vram) else WithAddend(t, rs, vram)
    else BLANK
  }

  /** The destination of a `lw` that does not read the stack. */
  function AfterLw(a: Analysis, base: Reg, imm: Half, vram: Addr, gotDefined: bool): RegState {
    var b := a.regs[base];
    if b.validLui && b.validAddend then
      if imm != 0 && b.validAddiu then BLANK
      else BLANK.(validLoaded := true, loadedLw := vram,
                  loadedAddress := Add(b.prevLui, if imm != 0 then Extended(imm) else b.prevAddiu),
                  loadedAddendReg := b.addendReg, loadedAddu := b.prevAddu)
    else if b.validGotOffset && b.validAddend then
      BLANK.(validGotLoaded := true, loadedLw := vram, loadedAddress := imm,
             loadedAddendReg := b.addendReg, loadedAddu := b.prevAddu, gotOffset := b.gotOffset)
    else if base == GP && gotDefined then BLANK.(gotOffset := imm, validGotOffset := true)
    else BLANK
  }

  /** Stack offsets must be aligned and not negative. */
  predicate StackOffsetOk(imm: Half) {
    imm % 4 == 0 && imm < 0x8000
  }

  function Grown(stack: seq<RegState>, slot: nat): (r: seq<RegState>)
    ensures slot < |r|
  {
    if slot < |stack| then stack else stack + seq(slot + 1 - |stack|, _ => BLANK)
  }

  function Clobbered(a: Analysis, r: Option<Reg>): Analysis {
    if r.Some? then Set(a, r.value, BLANK) else a
  }

  function Found(s: RegState, vram: Addr): seq<Table> {
    if s.validLoaded then [Table(s.loadedAddress, s.loadedAddendReg, s.loadedLw, s.loadedAddu, vram, None)]
    else if s.validGotLoaded then [Table(s.loadedAddress, s.loadedAddendReg, s.loadedLw, s.loadedAddu, vram,
                                         Some(s.gotOffset))]
    else []
  }

  /** One instruction at `vram`; `None` if the analysis gives up. */
  function Analyze(a: Analysis, op: Op, vram: Addr, gotDefined: bool): Option<Analysis> {
    match op
    case Lui(rt, imm) => Some(Set(a, rt, BLANK.(prevLui := Upper(imm), validLui := true)))
    case Addiu(rt, rs, imm) => Some(Set(a, rt, AfterAddiu(a.regs[rs], imm)))
    case Addu(rd, rs, rt) => Some(Set(a, rd, AfterAddu(a, rs, rt, vram)))
    case Copy(rd, rs, rt) => Some(Set(a, rd, Moved(a, rs, rt)))
    case Sw(base, rt, imm) =>
      if base != SP then Some(a)
      else if !StackOffsetOk(imm) then None
      else Some(a.(stack := Grown(a.stack, imm / 4)[imm / 4 := a.regs[rt]]))
    case Lw(rt, base, imm) =>
      if base != SP then Some(Set(a, rt, AfterLw(a, base, imm, vram, gotDefined)))
      else if !StackOffsetOk(imm) then None
      else Some(Set(a, rt, Grown(a.stack, imm / 4)[imm / 4]).(stack := Grown(a.stack, imm / 4)))
    case JumpReg(rs) => Some(if rs == RA then a else a.(tables := a.tables + Found(a.regs[rs], vram)))
    case Other(first, second) => Some(Clobbered(Clobbered(a, first), second))
  }

  /** The first `n` of the instructions `ops`, which start at `start`. */
  function Scan(ops: seq<Op>, start: Addr, n: nat, gotDefined: bool): Option<Analysis>
    requires n <= |ops| && start + 4 * |ops| < WORD
  {
    if n == 0 then Some(Fresh())
    else match Scan(ops, start, n - 1, gotDefined)
         case None => None
         case Some(a) => Analyze(a, ops[n - 1], start + 4 * (n - 1), gotDefined)
  }

  /** Once the scan gives up, it has given up. */
  lemma {:induction false} ScanEnds(ops: seq<Op>, start: Addr, m: nat, n: nat, gotDefined: bool)
    requires m <= n <= |ops| && start + 4 * |ops| < WORD && Scan(ops, start, n, gotDefined).Some?
    ensures Scan(ops, start, m, gotDefined).Some?
    decreases n
  {
    hide Analyze;
    if m < n {
      ScanEnds(ops, start, m, n - 1, gotDefined);
    }
  }

  lemma GivenUp(ops: seq<Op>, start: Addr, n: nat, gotDefined: bool)
    requires n <= |ops| && start + 4 * |ops| < WORD && Scan(ops, start, n, gotDefined).None?
    ensures Scan(ops, start, |ops|, gotDefined).None?
  {
    if Scan(ops, start, |ops|, gotDefined).Some? {
      ScanEnds(ops, start, n, |ops|, gotDefined);
    }
  }

  // ----- The simulator -----

  /** The registers, stack slots and tables that the scan updates in place. */
  class Analyzer {
    var regs: array<RegState>
    var stack: seq<RegState>
    var tables: seq<Table>

    ghost predicate Valid()
      reads this
    {
      regs.Length == 32
    }

    ghost function State(): Analysis
      reads this, regs
      requires Valid()
    {
      Analysis(regs[..], stack, tables)
    }

    constructor ()
      ensures Valid() && fresh(regs) && State() == Fresh()
    {
      regs := new RegState[32](_ => BLANK);
      stack := [];
      tables := [];
    }

    method CheckMove(rd: Reg, rs: Reg, rt: Reg)
      requires Valid()
      modifies regs
      ensures Valid() && State() == Set(old(State()), rd, Moved(old(State()), rs, rt))
    {
      if rs == 0 {
        regs[rd] := regs[rt];
      } else if rt == 0 {
        regs[rd] := regs[rs];
      } else {
        regs[rd] := BLANK;
      }
    }

    /** `addu`. The work state, not the move, ends up in `rd`. */
    method AnalyzeAddu(rd: Reg, rs: Reg, rt: Reg, vram: Addr)
      requires Valid()
      modifies regs
      ensures Valid() && State() == Set(old(State()), rd, AfterAddu(old(State()), rs, rt, vram))
    {
      var work := BLANK;
      if regs[rs].validGotOffset != regs[rt].validGotOffset {
        var got := if regs[rs].validGotOffset then rs else rt;
        var addend := if regs[rs].validGotOffset then rt else rs;
        work := regs[got].(validAddend := true, addendReg := addend, prevAddu := vram);
      } else if (rs == GP || rt == GP) && regs[rs].validGotLoaded != regs[rt].validGotLoaded {
        work := regs[if regs[rs].validGotLoaded then rs else rt];
      } else if regs[rs].validLui != regs[rt].validLui {
        var lui := if regs[rs].validLui then rs else rt;
        var addend := if regs[rs].validLui then rt else rs;
        work := regs[lui].(validAddend := true, addendReg := addend, prevAddu := vram);
      } else {
        CheckMove(rd, rs, rt);
      }
      regs[rd] := work;
    }

    method GrowStack(slot: nat)
      requires Valid()
      modifies this`stack
      ensures Valid() && stack == Grown(old(stack), slot)
    {
      if slot >= |stack| {
        stack := stack + seq(slot + 1 - |stack|, _ => BLANK);
      }
    }

    method AnalyzeLw(rt: Reg, base: Reg, imm: Half, vram: Addr, gotDefined: bool)
      requires Valid() && base != SP
      modifies regs
      ensures Valid() && State() == Set(old(State()), rt, AfterLw(old(State()), base, imm, vram, gotDefined))
    {
      var work, b := BLANK, regs[base];
      if b.validLui && b.validAddend {
        var nonzero := imm != 0;
        if !(nonzero && b.validAddiu) {
          var lo := if nonzero then Extended(imm) else b.prevAddiu;
          work := work.(validLoaded := true, loadedLw := vram, loadedAddress := Add(b.prevLui, lo),
                        loadedAddendReg := b.addendReg, loadedAddu := b.prevAddu);
        }
      } else if b.validGotOffset && b.validAddend {
        work := work.(validGotLoaded := true, loadedLw := vram, loadedAddress := imm,
                      loadedAddendReg := b.addendReg, loadedAddu := b.prevAddu, gotOffset := b.gotOffset);
      } else if base == GP && gotDefined {
        work := work.(gotOffset := imm, validGotOffset := true);
      }
      regs[rt] := work;
    }

    method AnalyzeInstruction(op: Op, vram: Addr, gotDefined: bool) returns (ok: bool)
      requires Valid()
      modifies this`stack, this`tables, regs
      ensures Valid() && ok == Analyze(old(State()), op, vram, gotDefined).Some?
      ensures ok ==> State() == Analyze(old(State()), op, vram, gotDefined).value
    {
      ok := true;
      match op {
        case Lui(rt, imm) =>
          regs[rt] := BLANK.(prevLui := Upper(imm), validLui := true);
        case Addiu(rt, rs, imm) =>
          regs[rt] := regs[rs];
          if !regs[rt].validAddiu {
            regs[rt] := regs[rt].(prevAddiu := Extended(imm), validAddiu := true);
          } else {
            regs[rt] := BLANK;
          }
        case Addu(rd, rs, rt) => AnalyzeAddu(rd, rs, rt, vram);
        case Copy(rd, rs, rt) => CheckMove(rd, rs, rt);
        case Sw(base, rt, imm) =>
          if base == SP {
            if !StackOffsetOk(imm) { return false; }
            GrowStack(imm / 4);
            stack := stack[imm / 4 := regs[rt]];
          }
        case Lw(rt, base, imm) =>
          if base == SP {
            if !StackOffsetOk(imm) { return false; }
            GrowStack(imm / 4);
            regs[rt] := stack[imm / 4];
          } else {
            AnalyzeLw(rt, base, imm, vram, gotDefined);
          }
        case JumpReg(rs) =>
          if rs != RA {
            tables := tables + Found(regs[rs], vram);
          }
        case Other(first, second) =>
          if first.Some? { regs[first.value] := BLANK; }
          if second.Some? { regs[second.value] := BLANK; }
      }
    }

    /** The whole function, whatever its control flow. */
    method AnalyzeFunction(ops: seq<Op>, start: Addr, gotDefined: bool) returns (ok: bool)
      requires Valid() && State() == Fresh() && start + 4 * |ops| < WORD
      modifies this`stack, this`tables, regs
      ensures Valid() && ok == Scan(ops, start, |ops|, gotDefined).Some?
      ensures ok ==> State() == Scan(ops, start, |ops|, gotDefined).value
    {
      hide Analyze;
      for i := 0 to |ops|
        invariant Valid() && Scan(ops, start, i, gotDefined) == Some(State())
      {
        var found := AnalyzeInstruction(ops[i], start + 4 * i, gotDefined);
        if !found {
          GivenUp(ops, start, i + 1, gotDefined);
          return false;
        }
      }
      ok := true;
    }
  }
}
