/** The hypotheses of the simulation can be met: a program with a jump through a table in
    its memory, a branch, and a call. And a function that runs off its end. */
module Example {
  import opened Machine
  import opened Emitted
  import opened Translator
  import opened Host
  import opened Points
  import opened WalkFacts
  import opened Edges
  import opened StepFacts
  import opened Flow
  import opened LabelFacts
  import opened LabelWalk
  import opened Blocks
  import opened Simulation
  import opened Liveness
  import opened Protocol
  import opened FunctionEnd

  const START: Addr := 0x8000_0000
  const OTHER: Addr := 0x8000_1000
  const TABLE_JR: Addr := 0x8000_0010

  // ----- Ordinary instructions -----

  function Idle(): Effect {
    (reloc: Option<Reloc>, g: Guest) => g
  }

  /** `or $s0, $ra, $zero` */
  function Save(): Effect {
    (reloc: Option<Reloc>, g: Guest) => Put(g, 16, Get(g, 31))
  }

  /** `or $ra, $s0, $zero` */
  function Restore(): Effect {
    (reloc: Option<Reloc>, g: Guest) => Put(g, 31, Get(g, 16))
  }

  /** `lui $t1, 0x8000` */
  function Base(): Effect {
    (reloc: Option<Reloc>, g: Guest) => Put(g, 9, SignExtend(0x8000_0000))
  }

  /** `addu $t1, $t1, $t0` */
  function AddIndex(): Effect {
    (reloc: Option<Reloc>, g: Guest) => Put(g, 9, SignExtend(Add(Low(Get(g, 9)), Low(Get(g, 8)))))
  }

  /** `lw $t1, 0x100($t1)`: its address, and the word in memory there. */
  function Address(g: Guest): Addr {
    Add(Low(Get(g, 9)), 0x100)
  }

  function WordIn(memory: map<int, int>, a: Addr): Addr {
    if a in memory && 0 <= memory[a] < WORD then memory[a] else 0
  }

  function EntryAt(): (Option<Reloc>, Guest) -> Addr {
    (reloc: Option<Reloc>, g: Guest) => Address(g)
  }

  function LoadEntry(): (Option<Reloc>, Guest) -> Addr {
    (reloc: Option<Reloc>, g: Guest) => WordIn(g.rest, Address(g))
  }

  /** `sw $t0, 0x2000($s1)` */
  function Store(): Effect {
    (reloc: Option<Reloc>, g: Guest) => g.(rest := g.rest[Add(Low(Get(g, 17)), 0x2000) := Low(Get(g, 8))])
  }

  /** `$t0 == 0` */
  function IsZero(): Guest -> bool {
    (g: Guest) => Low(Get(g, 8)) == 0
  }

  // ----- The program -----

  const CODE: seq<Instr> := [
    Plain(Save()), Plain(Base()), TableAddu(AddIndex(), 8, TABLE_JR), TableLw(9, EntryAt(), LoadEntry(), TABLE_JR),
    TableJr(9, [START + 0x18, START + 0x24]), Plain(Store()),
    Branch(IsZero(), START + 0x24, false, false), Plain(Idle()), Plain(Idle()),
    Jal(OTHER), Plain(Idle()), Plain(Restore()), Jr(RA), Plain(Idle())]

  function Switching(): Func {
    Func(START, 0, CODE, {}, [], false, [], START, 0x1008, {OTHER}, {}, false)
  }

  /** `jr $ra; nop`. */
  function Returning(): Func {
    Func(OTHER, 0, [Jr(RA), Plain(Idle())], {}, [], false, [], START, 0x1008, {}, {}, false)
  }

  /** `$s0` holds return addresses as well as `$ra`. What the table jump leaves in `$t1`
      no other function looks at; the jump itself finds there the word it loaded. */
  function TheSlack(): Slack {
    Slack({16, 31}, {9}, map[START + 0x08 := map[], START + 0x0C := map[], START + 0x10 := map[9 := Some(TABLE_JR)]])
  }

  function TheImage(): Image {
    Image(map[
            START := CODE[0], START + 0x04 := CODE[1], START + 0x08 := CODE[2], START + 0x0C := CODE[3],
            START + 0x10 := CODE[4], START + 0x14 := CODE[5], START + 0x18 := CODE[6], START + 0x1C := CODE[7],
            START + 0x20 := CODE[8], START + 0x24 := CODE[9], START + 0x28 := CODE[10], START + 0x2C := CODE[11],
            START + 0x30 := CODE[12], START + 0x34 := CODE[13], OTHER := Jr(RA), OTHER + 4 := Plain(Idle())], map[])
  }

  function TheProgram(): Program {
    Program(TheImage(), [Switching(), Returning()], map[START := Callee(0, 0), OTHER := Callee(1, 0)], TheSlack(),
            [START, START], {})
  }

  // ----- What each instruction leaves alone -----

  lemma IdleCarries(s: Stale)
    ensures Carries(TheSlack(), s, s, Idle())
  {
  }

  lemma SaveCarries()
    ensures Carries(TheSlack(), Temps(TheSlack()), Temps(TheSlack()), Save())
    ensures Carries(TheSlack(), Temps(TheSlack()), Temps(TheSlack()), Restore())
  {
  }

  lemma BaseCarries()
    ensures Carries(TheSlack(), Temps(TheSlack()), map[], Base())
    ensures Carries(TheSlack(), map[], map[], AddIndex())
  {
  }

  lemma StoreCarries()
    ensures Carries(TheSlack(), Temps(TheSlack()), Temps(TheSlack()), Store())
    ensures Carries(TheSlack(), map[9 := Some(TABLE_JR)], Temps(TheSlack()), Store())
  {
  }

  lemma LoadIsSeen()
    ensures SeesLoad(TheSlack(), map[], LoadEntry())
    ensures Sees(TheSlack(), Temps(TheSlack()), IsZero())
  {
    forall words, reloc, x, y | Same(TheSlack(), map[], words, x, y)
      ensures LoadEntry()(reloc, x) == LoadEntry()(reloc, y)
    {
      assert x.rest == y.rest && x.gpr[9] == y.gpr[9];
      assert Address(x) == Address(y);
    }
  }

  // ----- The functions -----

  lemma TheFirst(i: nat)
    requires i < 7
    ensures InstrOk(Switching(), TheSlack(), i)
  {
    hide Carries, Sees, SeesLoad, Labels;
    var k := TheSlack();
    IdleCarries(Temps(k));
    SaveCarries();
    BaseCarries();
    StoreCarries();
    LoadIsSeen();
    assert |CODE| == 14;
  }

  lemma TheLast(i: nat)
    requires 7 <= i < 14
    ensures InstrOk(Switching(), TheSlack(), i)
  {
    hide Carries, Sees, SeesLoad, Labels, IgnoresRa, LoadLeaves;
    IdleCarries(Temps(TheSlack()));
    SaveCarries();
    assert |CODE| == 14;
  }

  const TARGETS: set<Addr> := {START + 0x18, START + 0x24, START + 0x2C, OTHER}

  lemma TheLabelsOf(i: nat)
    requires i < 14
    ensures LabelsOf(Switching(), i) <= TARGETS
  {
    assert |CODE| == 14;
  }

  lemma {:induction false} TheLabelsBefore(n: nat)
    requires n <= 14
    ensures |CODE| == 14 && LabelsBefore(Switching(), n) <= TARGETS
  {
    hide LabelsOf;
    assert |CODE| == 14;
    if n > 0 {
      TheLabelsBefore(n - 1);
      TheLabelsOf(n - 1);
    }
  }

  lemma TheLabels()
    ensures Labels(Switching()) <= TARGETS
  {
    hide LabelsBefore;
    TheLabelsBefore(14);
  }

  lemma SwitchingBody()
    ensures BodyOk(Switching(), TheSlack()) && EndSafe(Switching())
  {
    hide InstrOk, LabelsBefore, Labels;
    var f := Switching();
    assert |CODE| == 14;
    forall i | 0 <= i < |f.instrs| ensures InstrOk(f, TheSlack(), i) {
      if i < 7 { TheFirst(i); } else { TheLast(i); }
    }
    TheLabels();
    assert LastIsDead(f);
  }

  lemma ReturningInstr(i: nat)
    requires i < 2
    ensures InstrOk(Returning(), TheSlack(), i)
  {
    hide Carries;
    IdleCarries(Temps(TheSlack()));
  }

  lemma ReturningBody()
    ensures BodyOk(Returning(), TheSlack()) && EndSafe(Returning())
  {
    hide InstrOk;
    var f := Returning();
    forall i | 0 <= i < |f.instrs| ensures InstrOk(f, TheSlack(), i) {
      ReturningInstr(i);
    }
    assert Labels(f) == {} by {
      assert LabelsBefore(f, 1) == {};
      assert LabelsBefore(f, 2) == {};
    }
    assert LastIsDead(f);
  }

  lemma TheWord(i: nat)
    requires i < 14
    ensures START + 4 * i in TheImage().code && TheImage().code[START + 4 * i] == CODE[i]
  {
    assert |CODE| == 14;
  }

  lemma TheCode()
    ensures CodeOk(TheProgram(), Switching()) && CodeOk(TheProgram(), Returning())
  {
    hide TheImage;
    var p, f := TheProgram(), Switching();
    assert |CODE| == 14;
    forall i | 0 <= i < |f.instrs|
      ensures AddrAt(f, i) in p.image.code && p.image.code[AddrAt(f, i)] == f.instrs[i]
      ensures RelocOf(p.image, AddrAt(f, i)) == RelocLookup(f, AddrAt(f, i))
    {
      TheWord(i);
      NoRelocs();
      NoReloc(f, AddrAt(f, i));
    }
    ReturningCode();
  }

  lemma NoRelocs()
    ensures TheImage().relocs == map[]
  {
  }

  lemma ReturningCode()
    ensures CodeOk(TheProgram(), Returning())
  {
    var p, f := TheProgram(), Returning();
    NoReloc(f, OTHER);
    NoReloc(f, OTHER + 4);
    assert AddrAt(f, 0) == OTHER && AddrAt(f, 1) == OTHER + 4;
    assert p.image.code[OTHER] == f.instrs[0] && p.image.code[OTHER + 4] == f.instrs[1];
  }

  lemma TheProgramIsOk()
    ensures ProgramOk(TheProgram())
  {
    hide BodyOk, EndSafe, CodeOk;
    SwitchingBody();
    ReturningBody();
    TheCode();
    var p := TheProgram();
    assert p.funcs[0] == Switching() && p.funcs[1] == Returning();
    assert FuncOk(p, 0) && FuncOk(p, 1);
  }

  /** There is a program, a run and a processor state as the main theorem asks for: with
      a table jump whose entry is loaded from memory, a delay slot that stores, a branch
      and a call. */
  lemma HypothesesCanHold(g: Guest, home: Addr) returns (p: Program, run: seq<HostState>, m: Cpu)
    ensures ProgramOk(p) && IsRun(p, run) && Matches(p, home, run[0], m) && run[0].home == home && m.g == g
    ensures START + 0x0C in p.image.code && p.image.code[START + 0x0C] == TableLw(9, EntryAt(), LoadEntry(), TABLE_JR)
    ensures START + 0x10 in p.image.code && p.image.code[START + 0x10].TableJr?
    ensures START + 0x18 in p.image.code && p.image.code[START + 0x18].Branch?
    ensures START + 0x24 in p.image.code && p.image.code[START + 0x24] == Jal(OTHER)
  {
    hide ProgramOk, Matches;
    p := TheProgram();
    TheProgramIsOk();
    SameRefl(p.slack, Temps(p.slack), g);
    StartsAtLookup(p, START, home, g, g);
    run := [Starting(0, Pos(0, 0), 0, home, g)];
    m := Cpu(START, Add(START, 4), g);
  }

  // ----- A function that does not return -----

  /** One word, and no function after it to go on in. */
  function Falling(): Func {
    Func(START, 0, [Plain(Idle())], {}, [], false, [], START, 4, {}, {}, false)
  }

  function FallingProgram(): Program {
    Program(Image(map[START := Plain(Idle())], map[]), [Falling()], map[START := Callee(0, 0)], TheSlack(), [START], {})
  }

  lemma FallingInstr()
    ensures InstrOk(Falling(), TheSlack(), 0) && BordersOk(Falling(), TheSlack())
  {
    hide Carries;
    IdleCarries(Temps(TheSlack()));
  }

  lemma FallingBody()
    ensures BodyOk(Falling(), TheSlack()) && CodeOk(FallingProgram(), Falling())
  {
    hide InstrOk, BordersOk;
    var f := Falling();
    FallingInstr();
    assert Labels(f) == {} by {
      assert LabelsBefore(f, 1) == {};
    }
    assert AddrAt(f, 0) == START;
    NoReloc(f, START);
  }

  lemma FallingLine()
    ensures var f := Falling(); SlotsOk(f) && TextOk(f) && ValidLine(f, Pos(1, CoreStart(f, 0)))
  {
    hide BodyOk, CodeOk, InstrLines, CoreStart;
    FallingBody();
    SlotsAreOk(Falling(), TheSlack());
    assert BodyOk(Falling(), TheSlack());
    LastLines(Falling(), TheSlack());
    FallingText();
  }

  lemma FallingText()
    requires BodyOk(Falling(), TheSlack())
    ensures SlotsOk(Falling()) && TextOk(Falling())
  {
    hide InstrOk;
    SlotsAreOk(Falling(), TheSlack());
  }

  /** The caller of that function goes on elsewhere than the processor, which is at the
      end of the function. */
  lemma EndIsLost(g: Guest, home: Addr) returns (h: HostState, h': HostState, m': Cpu)
    requires home != START + 4
    ensures RunsTo(FallingProgram(), h, h') && h.home == home && !h'.at.Running? && Resumption(h') != End(Falling())
    ensures Leads(FallingProgram().image, Cpu(START, START + 4, g), m') && m'.pc == End(Falling())
  {
    hide BodyOk, CodeOk, TextOk, RunsTo, SlotsOk, ValidLine, CoreStart, Leads;
    var p, f := FallingProgram(), Falling();
    FallingBody();
    FallingLine();
    h := HostState(g, home, false, 0, START, [], Running(0, Pos(1, CoreStart(f, 0)), NO_LOCALS));
    var m := Cpu(START, START + 4, g);
    SameRefl(p.slack, StaleAt(p.slack, START), g);
    h', m' := EndIsHandedOn(p, 0, f, h, m);
  }
}
