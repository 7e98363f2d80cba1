/** The firmware machine follows the instruction set: each of its methods does to A, X, Y, C,
    Z, SP and memory what the one-shot semantics of module Isa does, for any state that
    agrees on those beforehand. Device registers are outside the instruction set's memory. */
module MachineFollowsIsa {
  import opened Words
  import opened FlatMemory
  import opened Instructions
  import opened Isa
  import opened TtyDevice
  import opened MonitorMachine

  ghost predicate SameCells(m1: Memory, m2: Memory) {
    m1.ram.Keys == m2.ram.Keys && m1.rom == m2.rom && forall addr: word :: m1.Read(addr) == m2.Read(addr)
  }

  /** The machine and the state agree on all that the machine models. */
  ghost predicate Mirrors(m: Machine, s: State)
    reads m
  {
    && m.Valid()
    && m.a == s.a && m.x == s.x && m.y == s.y && m.sp == s.sp
    && m.c == s.p.c && m.z == s.p.z
    && SameCells(m.mem, s.mem)
  }

  /** A write on either side keeps the memories alike. */
  lemma SameWrite(m1: Memory, m2: Memory, m3: Memory, addr: word, v: byte)
    requires SameCells(m1, m2)
    requires m3.ram.Keys == m1.ram.Keys && m3.rom == m1.rom
    requires forall x: word :: x != addr ==> m3.Read(x) == m1.Read(x)
    requires m3.Read(addr) == if addr in m1.ram then v else m1.Read(addr)
    ensures SameCells(m3, m2.Write(addr, v))
  {
  }

  // ---------- loads ----------

  method LdaImmediate(m: Machine, ghost s: State, v: byte)
    requires Mirrors(m, s) && Operand1(s) == v
    modifies m`a, m`x, m`c, m`z
    ensures Mirrors(m, Exec(Operand(Load(A), Immediate), s))
  {
    m.LdaImm(v);
  }

  method LdxImmediate(m: Machine, ghost s: State, v: byte)
    requires Mirrors(m, s) && Operand1(s) == v
    modifies m`a, m`x, m`c, m`z
    ensures Mirrors(m, Exec(Operand(Load(X), Immediate), s))
  {
    m.LdxImm(v);
  }

  method LdyImmediate(m: Machine, ghost s: State, v: byte)
    requires Mirrors(m, s) && Operand1(s) == v
    modifies m`y, m`z
    ensures Mirrors(m, Exec(Operand(Load(Y), Immediate), s))
  {
    m.LdyImm(v);
  }

  method LdaZeroPage(m: Machine, ghost s: State, at: byte)
    requires Mirrors(m, s) && Operand1(s) == at
    modifies m`a, m`x, m`c, m`z
    ensures Mirrors(m, Exec(Operand(Load(A), ZeroPage), s))
  {
    m.LdaZp(at);
  }

  method LdaZeroPageX(m: Machine, ghost s: State, at: byte)
    requires Mirrors(m, s) && (Operand1(s) + s.x) % 0x100 == at
    modifies m`a, m`x, m`c, m`z
    ensures Mirrors(m, Exec(Operand(Load(A), ZeroPageX), s))
  {
    m.LdaZp(at);
  }

  method LdxZeroPage(m: Machine, ghost s: State, at: byte)
    requires Mirrors(m, s) && Operand1(s) == at
    modifies m`a, m`x, m`c, m`z
    ensures Mirrors(m, Exec(Operand(Load(X), ZeroPage), s))
  {
    m.LdxZp(at);
  }

  method LdaAbsolute(m: Machine, ghost s: State, addr: word)
    requires Mirrors(m, s) && OperandWord(s) == addr && !InTty(addr)
    modifies m`a, m`z, m`tty
    ensures Mirrors(m, Exec(Operand(Load(A), Absolute), s))
  {
    m.Lda(addr);
  }

  method LdaIndirectY(m: Machine, ghost s: State, addr: word)
    requires Mirrors(m, s) && EffectiveAddress(IndirectY, s) == addr && !InTty(addr)
    modifies m`a, m`z, m`tty
    ensures Mirrors(m, Exec(Operand(Load(A), IndirectY), s))
  {
    m.Lda(addr);
  }

  // ---------- stores ----------

  method StaZeroPage(m: Machine, ghost s: State, at: byte)
    requires Mirrors(m, s) && Operand1(s) == at
    modifies m`mem
    ensures Mirrors(m, Exec(Operand(Store(A), ZeroPage), s))
  {
    ghost var before := m.mem;
    m.StaZp(at);
    SameWrite(before, s.mem, m.mem, at, s.a);
  }

  method StaZeroPageX(m: Machine, ghost s: State, at: byte)
    requires Mirrors(m, s) && (Operand1(s) + s.x) % 0x100 == at
    modifies m`mem
    ensures Mirrors(m, Exec(Operand(Store(A), ZeroPageX), s))
  {
    ghost var before := m.mem;
    m.StaZp(at);
    SameWrite(before, s.mem, m.mem, at, s.a);
  }

  method StxZeroPage(m: Machine, ghost s: State, at: byte)
    requires Mirrors(m, s) && Operand1(s) == at
    modifies m`mem
    ensures Mirrors(m, Exec(Operand(Store(X), ZeroPage), s))
  {
    ghost var before := m.mem;
    m.Stx(at);
    SameWrite(before, s.mem, m.mem, at, s.x);
  }

  method StaIndirectY(m: Machine, ghost s: State, addr: word)
    requires Mirrors(m, s) && EffectiveAddress(IndirectY, s) == addr && !InTty(addr)
    modifies m`mem, m`tty
    ensures Mirrors(m, Exec(Operand(Store(A), IndirectY), s))
  {
    ghost var before := m.mem;
    m.Sta(addr);
    SameWrite(before, s.mem, m.mem, addr, s.a);
  }

  // ---------- arithmetic, logic, comparison ----------

  method CmpImmediate(m: Machine, ghost s: State, v: byte)
    requires Mirrors(m, s) && Operand1(s) == v
    modifies m`a, m`x, m`c, m`z
    ensures Mirrors(m, Exec(Operand(Combine(OpCmp(A)), Immediate), s))
  {
    m.Cmp(v);
  }

  method CmpZeroPage(m: Machine, ghost s: State, at: byte)
    requires Mirrors(m, s) && Operand1(s) == at
    modifies m`a, m`x, m`c, m`z
    ensures Mirrors(m, Exec(Operand(Combine(OpCmp(A)), ZeroPage), s))
  {
    m.Cmp(m.mem.Read(at));
  }

  method CpxImmediate(m: Machine, ghost s: State, v: byte)
    requires Mirrors(m, s) && Operand1(s) == v
    modifies m`a, m`x, m`c, m`z
    ensures Mirrors(m, Exec(Operand(Combine(OpCmp(X)), Immediate), s))
  {
    m.Cpx(v);
  }

  method CpxZeroPage(m: Machine, ghost s: State, at: byte)
    requires Mirrors(m, s) && Operand1(s) == at
    modifies m`a, m`x, m`c, m`z
    ensures Mirrors(m, Exec(Operand(Combine(OpCmp(X)), ZeroPage), s))
  {
    m.Cpx(m.mem.Read(at));
  }

  method AndImmediate(m: Machine, ghost s: State, v: byte)
    requires Mirrors(m, s) && Operand1(s) == v
    modifies m`a, m`x, m`c, m`z
    ensures Mirrors(m, Exec(Operand(Combine(OpAnd), Immediate), s))
  {
    m.AndImm(v);
  }

  method OraZeroPage(m: Machine, ghost s: State, at: byte)
    requires Mirrors(m, s) && Operand1(s) == at
    modifies m`a, m`x, m`c, m`z
    ensures Mirrors(m, Exec(Operand(Combine(OpOra), ZeroPage), s))
  {
    m.OraZp(at);
  }

  method EorZeroPage(m: Machine, ghost s: State, at: byte)
    requires Mirrors(m, s) && Operand1(s) == at
    modifies m`a, m`x, m`c, m`z
    ensures Mirrors(m, Exec(Operand(Combine(OpEor), ZeroPage), s))
  {
    m.EorZp(at);
  }

  method AdcImmediate(m: Machine, ghost s: State, v: byte)
    requires Mirrors(m, s) && Operand1(s) == v
    modifies m`a, m`x, m`c, m`z
    ensures Mirrors(m, Exec(Operand(Combine(OpAdc), Immediate), s))
  {
    m.Adc(v);
  }

  method SbcImmediate(m: Machine, ghost s: State, v: byte)
    requires Mirrors(m, s) && Operand1(s) == v
    modifies m`a, m`x, m`c, m`z
    ensures Mirrors(m, Exec(Operand(Combine(OpSbc), Immediate), s))
  {
    m.Sbc(v);
  }

  method SbcZeroPage(m: Machine, ghost s: State, at: byte)
    requires Mirrors(m, s) && Operand1(s) == at
    modifies m`a, m`x, m`c, m`z
    ensures Mirrors(m, Exec(Operand(Combine(OpSbc), ZeroPage), s))
  {
    m.Sbc(m.mem.Read(at));
  }

  method LsrAccumulator(m: Machine, ghost s: State)
    requires Mirrors(m, s)
    modifies m`a, m`x, m`c, m`z
    ensures Mirrors(m, Exec(Accumulator(OpLsr), s))
  {
    m.LsrA();
  }

  method AslZeroPage(m: Machine, ghost s: State, at: byte)
    requires Mirrors(m, s) && Operand1(s) == at
    modifies m`mem, m`c, m`z
    ensures Mirrors(m, Exec(Operand(Modify(OpAsl), ZeroPage), s))
  {
    ghost var before := m.mem;
    m.AslZp(at);
    SameWrite(before, s.mem, m.mem, at, UnaryResult(OpAsl, s.mem.Read(at), s.p.c));
  }

  method RolZeroPage(m: Machine, ghost s: State, at: byte)
    requires Mirrors(m, s) && Operand1(s) == at
    modifies m`mem, m`c, m`z
    ensures Mirrors(m, Exec(Operand(Modify(OpRol), ZeroPage), s))
  {
    ghost var before := m.mem;
    m.RolZp(at);
    SameWrite(before, s.mem, m.mem, at, UnaryResult(OpRol, s.mem.Read(at), s.p.c));
  }

  method IncZeroPage(m: Machine, ghost s: State, at: byte)
    requires Mirrors(m, s) && Operand1(s) == at
    modifies m`mem, m`z
    ensures Mirrors(m, Exec(Operand(Modify(OpInc), ZeroPage), s))
  {
    ghost var before := m.mem;
    m.IncZp(at);
    SameWrite(before, s.mem, m.mem, at, Inc8(s.mem.Read(at)));
  }

  method DecZeroPage(m: Machine, ghost s: State, at: byte)
    requires Mirrors(m, s) && Operand1(s) == at
    modifies m`mem, m`z
    ensures Mirrors(m, Exec(Operand(Modify(OpDec), ZeroPage), s))
  {
    ghost var before := m.mem;
    m.DecZp(at);
    SameWrite(before, s.mem, m.mem, at, Dec8(s.mem.Read(at)));
  }

  method IncrementX(m: Machine, ghost s: State)
    requires Mirrors(m, s)
    modifies m`a, m`x, m`c, m`z
    ensures Mirrors(m, Exec(IncDec(OpInc, X), s))
  {
    m.Inx();
  }

  method DecrementX(m: Machine, ghost s: State)
    requires Mirrors(m, s)
    modifies m`a, m`x, m`c, m`z
    ensures Mirrors(m, Exec(IncDec(OpDec, X), s))
  {
    m.Dex();
  }

  method SetCarry(m: Machine, ghost s: State)
    requires Mirrors(m, s)
    modifies m`a, m`x, m`c, m`z
    ensures Mirrors(m, Exec(SetFlag(C, true), s))
  {
    m.Sec();
  }

  method ClearCarry(m: Machine, ghost s: State)
    requires Mirrors(m, s)
    modifies m`a, m`x, m`c, m`z
    ensures Mirrors(m, Exec(SetFlag(C, false), s))
  {
    m.Clc();
  }

  // ---------- stack ----------

  method PushA(m: Machine, ghost s: State)
    requires Mirrors(m, s)
    modifies m`mem, m`sp
    ensures Mirrors(m, Exec(Push(false), s))
  {
    ghost var before := m.mem;
    m.Pha();
    SameWrite(before, s.mem, m.mem, StackCell(s.sp), s.a);
  }

  method PullA(m: Machine, ghost s: State)
    requires Mirrors(m, s)
    modifies m`a, m`z, m`sp
    ensures Mirrors(m, Exec(Pull(false), s))
  {
    m.Pla();
  }

  /** The JSR whose last byte is at `last`. */
  method CallSubroutine(m: Machine, ghost s: State, last: word)
    requires Mirrors(m, s) && Inc16(Inc16(s.pc)) == last
    modifies m`mem, m`sp
    ensures Mirrors(m, Exec(Jsr, s))
  {
    ghost var before := m.mem;
    m.Jsr(last);
    TwoPushes(before, s.mem, m.mem, s.sp, last);
  }

  lemma TwoPushes(m1: Memory, m2: Memory, m3: Memory, sp: byte, w: word)
    requires SameCells(m1, m2) && SameBut(m1, m3, sp, 2)
    requires forall addr: word :: addr in m1.ram <==> addr < 0x8000
    requires m3.Read(StackCell(Dec8(sp))) == Lo(w) && m3.Read(StackCell(sp)) == Hi(w)
    ensures SameCells(m3, m2.Write(StackCell(sp), Hi(w)).Write(StackCell(Dec8(sp)), Lo(w)))
  {
    hide Lo, Hi;
    forall addr: word | addr != StackCell(sp) && addr != StackCell(Dec8(sp))
      ensures m3.Read(addr) == m1.Read(addr)
    {
      assert !Scratch(addr, sp, 2);
    }
  }

  /** The RTS that returns to that JSR, and where it continues. */
  method ReturnFromSubroutine(m: Machine, ghost s: State, last: word)
    requires Mirrors(m, s)
    requires m.mem.Read(StackCell(Inc8(m.sp))) == Lo(last) && m.mem.Read(StackCell(Inc8(Inc8(m.sp)))) == Hi(last)
    modifies m`sp
    ensures Mirrors(m, Exec(Rts, s)) && Exec(Rts, s).pc == Inc16(last)
  {
    m.Rts(last);
    WordOfHalves(last);
  }
}
