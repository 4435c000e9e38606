/** The guest machine: a MIPS processor with branch delay slots.

    Ordinary instructions are uninterpreted functions on the guest state; control
    transfers are spelled out. An interpreter state holds the address of the
    instruction to run next (`pc`) and of the one after it (`npc`), which is all a
    delay slot needs. */
module Machine {

  datatype Option<+T> = None | Some(value: T) {
    predicate IsFailure() {
      None?
    }

    function PropagateFailure<U>(): Option<U>
      requires None?
    {
      None
    }

    function Extract(): T
      requires Some?
    {
      value
    }
  }

  const WORD: nat := 0x1_0000_0000
  const RA: Reg := 31

  type Addr = a: nat | a < WORD
  type Byte = b: nat | b < 256
  type Reg = r: nat | r < 32
  type Gprs = s: seq<nat> | |s| == 32 witness seq(32, _ => 0)

  /** `rest` stands for everything that is not a general purpose register. */
  datatype Guest = Guest(gpr: Gprs, rest: map<int, int>)

  datatype Reloc = Reloc(address: Addr, kind: nat, target: nat)

  type Effect = (Option<Reloc>, Guest) -> Guest

  /** One decoded instruction. The last three are the parts of a table jump that the
      analysis recognised, which are translated in a way of their own: the `addu` that
      adds the register `index`, the `lw` that `load`s the entry from `address`, and the
      `jr`, whose address `jr` names the table jump. */
  datatype Instr =
    | Plain(effect: Effect)
    | Branch(cond: Guest -> bool, target: Addr, likely: bool, link: bool)
    | Jump(target: Addr)
    | Jal(target: Addr)
    | Jalr(rd: Reg, rs: Reg)
    | Jr(rs: Reg)
    | TableAddu(effect: Effect, index: Reg, jr: Addr)
    | TableLw(rt: Reg, address: (Option<Reloc>, Guest) -> Addr, load: (Option<Reloc>, Guest) -> Addr, jr: Addr)
    | TableJr(rs: Reg, entries: seq<Addr>)

  /** Where a transfer goes. */
  datatype Dest = Const(addr: Addr) | FromReg(r: Reg)

  function Add(a: Addr, k: nat): Addr {
    (a + k) % WORD
  }

  function Minus(a: Addr, b: Addr): Addr {
    (a + WORD - b) % WORD
  }

  lemma AddMinus(a: Addr, b: Addr)
    ensures Add(b, Minus(a, b)) == a && Minus(Add(a, b), b) == a
  {
  }

  /** A big-endian word. */
  function BigWordAt(bytes: seq<Byte>, at: nat): Addr
    requires at + 4 <= |bytes|
  {
    var a: int, b: int, c: int, d: int := bytes[at], bytes[at + 1], bytes[at + 2], bytes[at + 3];
    a * 0x100_0000 + b * 0x1_0000 + c * 0x100 + d
  }

  function Low(v: nat): Addr {
    v % WORD
  }

  function Get(g: Guest, r: Reg): nat {
    if r == 0 then 0 else g.gpr[r]
  }

  function Put(g: Guest, r: Reg, v: nat): Guest {
    if r == 0 then g else g.(gpr := g.gpr[r := v])
  }

  /** A 32-bit value sign extended into a 64-bit register. */
  function SignExtend(a: Addr): nat {
    if a < WORD / 2 then a else a + WORD * (WORD - 1)
  }

  function DestOf(d: Dest, g: Guest): Addr {
    match d
    case Const(a) => a
    case FromReg(r) => Low(Get(g, r))
  }

  /** The code as the processor sees it, with the relocation the loader applied to
      each word. */
  datatype Image = Image(code: map<Addr, Instr>, relocs: map<Addr, Reloc>)

  function RelocOf(image: Image, a: Addr): Option<Reloc> {
    if a in image.relocs then Some(image.relocs[a]) else None
  }

  lemma AddAdd(a: Addr, j: nat, k: nat)
    ensures Add(Add(a, j), k) == Add(a, j + k)
  {
  }

  datatype Cpu = Cpu(pc: Addr, npc: Addr, g: Guest)

  function To(m: Cpu, target: Addr, g: Guest): Cpu {
    Cpu(m.npc, target, g)
  }

  /** One instruction of the interpreter. A link value is the address after the
      delay slot, sign extended; it is written before the slot runs and whether or
      not the branch is taken. An untaken likely branch skips its slot. */
  function Step(image: Image, m: Cpu): Option<Cpu> {
    if m.pc !in image.code then None else
    var link := SignExtend(Add(m.pc, 8));
    match image.code[m.pc]
    case Plain(effect) => Some(To(m, Add(m.npc, 4), effect(RelocOf(image, m.pc), m.g)))
    case Jump(target) => Some(To(m, target, m.g))
    case Jal(target) => Some(To(m, target, Put(m.g, RA, link)))
    case Jalr(rd, rs) => Some(To(m, Low(Get(m.g, rs)), Put(m.g, rd, link)))
    case Jr(rs) => Some(To(m, Low(Get(m.g, rs)), m.g))
    case TableAddu(effect, _, _) => Some(To(m, Add(m.npc, 4), effect(RelocOf(image, m.pc), m.g)))
    case TableLw(rt, _, load, _) =>
      Some(To(m, Add(m.npc, 4), Put(m.g, rt, SignExtend(load(RelocOf(image, m.pc), m.g)))))
    case TableJr(rs, _) => Some(To(m, Low(Get(m.g, rs)), m.g))
    case Branch(cond, target, likely, doesLink) =>
      var g := if doesLink then Put(m.g, RA, link) else m.g;
      if cond(m.g) then Some(To(m, target, g))
      else if likely then Some(Cpu(Add(m.npc, 4), Add(m.npc, 8), g))
      else Some(To(m, Add(m.npc, 4), g))
  }

  ghost predicate Reaches(image: Image, m: Cpu, n: nat, m': Cpu)
    decreases n
  {
    if n == 0 then m == m'
    else Step(image, m).Some? && Reaches(image, Step(image, m).value, n - 1, m')
  }

  ghost predicate Leads(image: Image, m: Cpu, m': Cpu) {
    exists n: nat :: Reaches(image, m, n, m')
  }

  lemma LeadsRefl(image: Image, m: Cpu)
    ensures Leads(image, m, m)
  {
    assert Reaches(image, m, 0, m);
  }

  lemma LeadsStep(image: Image, m: Cpu)
    requires Step(image, m).Some?
    ensures Leads(image, m, Step(image, m).value)
  {
    assert Reaches(image, Step(image, m).value, 0, Step(image, m).value);
    assert Reaches(image, m, 1, Step(image, m).value);
  }

  lemma {:induction false} ReachesTrans(image: Image, m: Cpu, n: nat, m': Cpu, k: nat, m'': Cpu)
    requires Reaches(image, m, n, m') && Reaches(image, m', k, m'')
    ensures Reaches(image, m, n + k, m'')
    decreases n
  {
    if n > 0 {
      ReachesTrans(image, Step(image, m).value, n - 1, m', k, m'');
    }
  }

  lemma LeadsTrans(image: Image, m: Cpu, m': Cpu, m'': Cpu)
    requires Leads(image, m, m') && Leads(image, m', m'')
    ensures Leads(image, m, m'')
  {
    var n: nat :| Reaches(image, m, n, m');
    var k: nat :| Reaches(image, m', k, m'');
    ReachesTrans(image, m, n, m', k, m'');
  }

  // ----- Agreement of the two sides -----

  /** The registers that hold something else in the emitted code than in the processor,
      where control is at some address: the address of a table entry instead of the
      entry. With the name of a table jump, the processor holds the word that the emitted
      code noted for it. */
  type Stale = map<Reg, Option<Addr>>

  /** `links` are the registers that link instructions write: the translated code writes
      link values zero extended, the processor sign extended, and only their low words
      are ever compared. `stale` says what is stale at addresses within a function, and
      `temps` what may be whenever control passes from function to function. */
  datatype Slack = Slack(links: set<Reg>, temps: set<Reg>, stale: map<Addr, Stale>)

  function Temps(k: Slack): Stale {
    map r | r in k.temps :: None
  }

  function StaleAt(k: Slack, a: Addr): Stale {
    if a in k.stale then k.stale[a] else Temps(k)
  }

  /** `words` are the words that the emitted code noted, by table jump. */
  ghost predicate Same(k: Slack, s: Stale, words: map<Addr, Addr>, x: Guest, y: Guest) {
    && x.rest == y.rest
    && forall r: Reg ::
         if r in s then s[r].Some? && s[r].value in words ==> Low(y.gpr[r]) == words[s[r].value]
         else if r in k.links then Low(x.gpr[r]) == Low(y.gpr[r])
         else x.gpr[r] == y.gpr[r]
  }

  /** Agreement between functions. */
  ghost predicate Alike(k: Slack, x: Guest, y: Guest) {
    Same(k, Temps(k), map[], x, y)
  }

  /** Agreement up to `s` is agreement up to `t`. */
  predicate Weaker(s: Stale, t: Stale) {
    s.Keys <= t.Keys && forall r :: r in t ==> t[r].None? || (r in s && s[r] == t[r])
  }

  /** Control may come to `a` from another function. */
  predicate Open(k: Slack, a: Addr) {
    Weaker(Temps(k), StaleAt(k, a))
  }

  /** Control may go from `a` to another function. */
  predicate Shut(k: Slack, a: Addr) {
    Weaker(StaleAt(k, a), Temps(k))
  }

  lemma SameWeaker(k: Slack, s: Stale, t: Stale, words: map<Addr, Addr>, x: Guest, y: Guest)
    requires Same(k, s, words, x, y) && Weaker(s, t)
    ensures Same(k, t, words, x, y)
  {
  }

  lemma SameLow(k: Slack, s: Stale, words: map<Addr, Addr>, x: Guest, y: Guest, r: Reg)
    requires Same(k, s, words, x, y) && r !in s
    ensures Low(Get(x, r)) == Low(Get(y, r))
  {
  }

  lemma SignExtendLow(a: Addr)
    ensures Low(SignExtend(a)) == a
  {
  }

  lemma SamePut(k: Slack, s: Stale, words: map<Addr, Addr>, x: Guest, y: Guest, r: Reg, a: Addr)
    requires Same(k, s, words, x, y) && (r in k.links || r == 0) && r !in s
    ensures Same(k, s, words, Put(x, r, a), Put(y, r, SignExtend(a)))
    ensures r != 0 ==> Low(Get(Put(y, r, SignExtend(a)), r)) == a
  {
    SignExtendLow(a);
  }
}
