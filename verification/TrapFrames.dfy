/** Register files in place: what trap entry saves and trap exit restores. */
module TrapFrames {
  import opened Machine

  class TrapFrame {
    const x: array<nat>
    var mstatus: nat
    var mepc: nat

    ghost predicate Valid() { x.Length == 32 }

    ghost function Value(): Frame
      requires Valid()
      reads this, x
    {
      Frame(x[..], mstatus, mepc)
    }
  }

  /** `save_from_trap`: register zero is forced to zero whatever the frame holds. */
  method SaveFromTrap(frame: TrapFrame, satp: nat) returns (context: Context)
    requires frame.Valid()
    ensures context == Context(frame.Value().x[0 := 0], frame.mstatus, frame.mepc, satp)
  {
    var regs := new nat[32];
    for index := 0 to 32
      invariant forall i :: 0 <= i < index ==> regs[i] == frame.x[i]
    {
      regs[index] := frame.x[index];
    }
    regs[0] := 0;
    assert regs[..] == frame.x[..][0 := 0];
    context := Context(regs[..], frame.mstatus, frame.mepc, satp);
  }

  /** `restore_to_trap`. */
  method RestoreToTrap(context: Context, frame: TrapFrame)
    requires frame.Valid()
    modifies frame, frame.x
    ensures frame.Value() == Frame(context.x[0 := 0], context.mstatus, context.mepc)
  {
    for index := 0 to 32
      invariant forall i :: 0 <= i < index ==> frame.x[i] == context.x[i]
    {
      frame.x[index] := context.x[index];
    }
    frame.x[0] := 0;
    frame.mstatus := context.mstatus;
    frame.mepc := context.mepc;
    assert frame.x[..] == context.x[0 := 0];
  }

  /** `initialize_user`: every register cleared, then the three a new task starts with. */
  method InitializeUser(entry: nat, argument: nat, stackTop: nat, stub: nat, mstatus: nat,
                        satp: nat) returns (context: Context)
    ensures context == UserContext(entry, argument, stackTop, stub, mstatus, satp)
  {
    var regs := new nat[32];
    for index := 0 to 32
      invariant forall i :: 0 <= i < index ==> regs[i] == 0
    {
      regs[index] := 0;
    }
    regs[1], regs[2], regs[10] := stub, stackTop, argument;
    assert regs[..] == ZeroRegs()[1 := stub][2 := stackTop][10 := argument];
    context := Context(regs[..], UserStatus(mstatus), entry, satp);
  }

  /** The status register by bit positions: 6..0, 7, 10..8, 12..11, 16..13, 17, and 18 up. */
  datatype Status = Status(low: nat, mpie: nat, spp: nat, mpp: nat, middle: nat, mprv: nat, high: nat) {
    predicate Valid() { low < 128 && mpie < 2 && spp < 8 && mpp < 4 && middle < 16 && mprv < 2 }

    function Word(): nat {
      low + 0x80 * mpie + 0x100 * spp + 0x800 * mpp + 0x2000 * middle + 0x2_0000 * mprv + 0x4_0000 * high
    }
  }

  function StatusFields(m: nat): Status {
    Status(m % 0x80, m / 0x80 % 2, m / 0x100 % 8, m / 0x800 % 4, m / 0x2000 % 16, m / 0x2_0000 % 2, m / 0x4_0000)
  }

  lemma FieldsOfWord(s: Status)
    requires s.Valid()
    ensures StatusFields(s.Word()) == s
  {
    var a := s.mprv + 2 * s.high;
    var b := s.middle + 16 * a;
    var c := s.mpp + 4 * b;
    var d := s.spp + 8 * c;
    var e := s.mpie + 2 * d;
    assert s.Word() == s.low + 0x80 * e;
    assert s.Word() / 0x80 == e && e / 2 == d && d / 8 == c && c / 4 == b && b / 16 == a && a / 2 == s.high;
    assert s.Word() / 0x100 == d && s.Word() / 0x800 == c && s.Word() / 0x2000 == b;
    assert s.Word() / 0x2_0000 == a && s.Word() / 0x4_0000 == s.high;
  }

  lemma WordOfFields(m: nat)
    ensures StatusFields(m).Valid() && StatusFields(m).Word() == m
  {
    var e := m / 0x80;
    var d := e / 2;
    var c := d / 8;
    var b := c / 4;
    var a := b / 16;
    assert m / 0x100 == d && m / 0x800 == c && m / 0x2000 == b && m / 0x2_0000 == a && m / 0x4_0000 == a / 2;
  }

  /** `mret` will enter user mode with interrupts on and no borrowed translation; every other bit stays. */
  lemma StatusBits(m: nat)
    ensures StatusFields(UserStatus(m)) == StatusFields(m).(mpie := 1, mpp := 0, mprv := 0)
  {
    WordOfFields(m);
    var s := StatusFields(m).(mpie := 1, mpp := 0, mprv := 0);
    assert UserStatus(m) == s.Word();
    FieldsOfWord(s);
  }

  /** What a new task starts with, register by register. */
  lemma UserStartsClean(entry: nat, argument: nat, stackTop: nat, stub: nat, mstatus: nat, satp: nat)
    ensures var c := UserContext(entry, argument, stackTop, stub, mstatus, satp);
            && c.mepc == entry && c.satp == satp && c.x[1] == stub && c.x[2] == stackTop && c.x[10] == argument
            && (forall i :: 0 <= i < 32 && i !in {1, 2, 10} ==> c.x[i] == 0)
            && StatusFields(c.mstatus) == StatusFields(mstatus).(mpie := 1, mpp := 0, mprv := 0)
  {
    StatusBits(mstatus);
  }

  /** Saving and restoring brings back every register except a write to register zero. */
  lemma SaveRestoreRoundTrip(f: Frame, satp: nat)
    ensures var c := Context(f.x[0 := 0], f.mstatus, f.mepc, satp);
            && Frame(c.x[0 := 0], c.mstatus, c.mepc) == f.(x := f.x[0 := 0])
            && (f.x[0] == 0 ==> Frame(c.x[0 := 0], c.mstatus, c.mepc) == f)
  {
    assert f.x[0 := 0][0 := 0] == f.x[0 := 0];
    assert f.x[0] == 0 ==> f.x[0 := 0] == f.x;
  }
}
