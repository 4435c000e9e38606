/** The control-flow forms of the emitted C code, one statement per form.

    A function's text is a sequence of chunks: the prologue, one chunk for each
    instruction word, and the epilogue. */
module Emitted {
  import opened Machine

  /** Label names: `L_<vram>`, `after_<n>`, `skip_<n>`. */
  datatype Label = Loc(addr: Addr) | After(n: nat) | Skip(n: nat)

  datatype Stmt =
      /** `// 0x<vram>: <disassembly>` */
    | Comment(at: Addr)
    | LabelHere(l: Label)
    | Goto(l: Label)
      /** The translation of an ordinary instruction, with the relocation it saw. */
    | Do(effect: Effect, reloc: Option<Reloc>)
      /** `gpr jr_addend_<jr> = ctx->r<n>;` */
    | SaveAddend(jr: Addr, index: Reg)
      /** The load of a table entry, rewritten: the register gets the address. */
    | EntryAddress(rt: Reg, address: (Option<Reloc>, Guest) -> Addr, load: (Option<Reloc>, Guest) -> Addr, jr: Addr,
                   reloc: Option<Reloc>)
      /** `ctx->r<n> = 0x<vram>u;`, zero extended. */
    | SetLink(r: Reg, value: Addr)
      /** `if (cond) {` and its closing brace. */
    | If(cond: Guest -> bool)
    | EndIf
    | Checkpoint(at: Addr)
      /** A whole call frame: prologue, call, tail call handling, epilogue.
          `back` is the return address if it is a label of this function, else 0. */
    | Call(dest: Dest, locals: set<Addr>, back: Addr)
      /** `if (target == ctx->host_return_target) return;` */
    | ReturnIfHome(target: Addr)
      /** `recomp_request_tailcall...(ctx, target)` */
    | RequestTailcall(dest: Dest)
    | Return
      /** The four parts of `jr $ra`: capture, rebase, local dispatch, tail call. */
    | CaptureRa
    | RebaseRa(ram: Addr, size: nat)
    | DispatchRa(labels: set<Addr>)
    | TailcallUnlessHome
      /** `switch (jr_addend_<jr> >> 2)` over the entries, with `switch_error` as default. */
    | Switch(jr: Addr, entries: seq<Addr>)
      /** The dispatch-entry switch at the top of a function. */
    | EnterSwitch(starts: set<Addr>)
    | PauseSelf
    | UnhandledCall(target: Addr)
    | UnhandledBranch(target: Addr)
      /** The closing brace of the function. */
    | CloseFunction

  type Text = seq<seq<Stmt>>

  /** A statement of a text, by chunk and line. */
  datatype Pos = Pos(chunk: nat, line: nat)

  predicate ValidPos(text: Text, p: Pos) {
    p.chunk < |text| && p.line < |text[p.chunk]|
  }

  function At(text: Text, p: Pos): Stmt
    requires ValidPos(text, p)
  {
    text[p.chunk][p.line]
  }

  /** The statement after `p` in the text. */
  function Succ(text: Text, p: Pos): Pos
    requires ValidPos(text, p)
  {
    if p.line + 1 < |text[p.chunk]| then Pos(p.chunk, p.line + 1) else Pos(p.chunk + 1, 0)
  }

  /** The line of the brace that closes a block, `depth` further blocks being open
      at `line`. A block that is never closed runs to the end of the chunk. */
  function BlockEnd(chunk: seq<Stmt>, line: nat, depth: nat): (r: nat)
    requires line <= |chunk|
    ensures line <= r <= |chunk|
    decreases |chunk| - line
  {
    if line == |chunk| then line
    else if chunk[line].EndIf? then (if depth == 0 then line else BlockEnd(chunk, line + 1, depth - 1))
    else BlockEnd(chunk, line + 1, if chunk[line].If? then depth + 1 else depth)
  }
}
