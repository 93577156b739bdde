/**
 * The "@" registers: view-layer state and pointers, applied by setters (qcbridge/ring1/shadow.py).
 * A blob does not carry them all; the replica writes back the ones it last received
 * (qcbridge/ring0/replica_apply.py: _apply_t1, _reapply_at_state).
 */
module AtStates {
  import opened Wire

  predicate IsAt(p: Path) {
    p != "" && p[0] == '@'
  }

  function AtOf(ch: Registers): Registers {
    map p | p in ch && IsAt(p) :: ch[p]
  }

  /** A blob: the registers its datablock has on the host, and those "@" registers that the blob
      does not carry, with what the replica's fresh copy shows for them. */
  datatype Cargo = Cargo(regs: Registers, at: Registers)

  /** A register after the blob has been applied and the values last received written back. */
  function Shown(c: Cargo, kept: Registers, p: Path): Value
    requires p in c.regs
  {
    if !IsAt(p) then c.regs[p]
    else if p in kept then kept[p]
    else if p in c.at then c.at[p]
    else c.regs[p]
  }

  function Loaded(c: Cargo, kept: Registers): Registers {
    map p | p in c.regs :: Shown(c, kept, p)
  }

  /** Some "@" register is not what was shipped. */
  predicate Hides(c: Cargo, kept: Registers) {
    exists p :: p in c.regs && IsAt(p) && Shown(c, kept, p) != c.regs[p]
  }
}
