/** The board's terminal I/O: a constant table mapping terminal numbers to
    a direction, input and output register and a bit number, and the
    read-modify-write of single register bits. Each AVR I/O register the
    table names is a byte, held as its eight bits (bit k at index k), and
    the register file is updated in place. */
module Gpio {
  import opened Wrappers

  /** The I/O registers the terminal table names. */
  datatype Reg = DDRB | PINB | PORTB | DDRD | PORTD

  /** A register byte as its eight bits, bit k at index k. */
  type Byte = b: seq<bool> | |b| == 8 witness [false, false, false, false, false, false, false, false]

  /** The contents of those registers: one byte per register. */
  datatype RegFile = RegFile(ddrb: Byte, pinb: Byte, portb: Byte, ddrd: Byte, portd: Byte) {
    function Get(r: Reg): Byte {
      match r
      case DDRB => ddrb
      case PINB => pinb
      case PORTB => portb
      case DDRD => ddrd
      case PORTD => portd
    }

    /** The register file with register r replaced by v; the others keep
        their values. */
    function Set(r: Reg, v: Byte): (f: RegFile)
      ensures f.Get(r) == v
      ensures forall q :: q != r ==> f.Get(q) == Get(q)
    {
      match r
      case DDRB => this.(ddrb := v)
      case PINB => this.(pinb := v)
      case PORTB => this.(portb := v)
      case DDRD => this.(ddrd := v)
      case PORTD => this.(portd := v)
    }
  }

  /** enum gpio_terminal_dir. */
  datatype Dir = DirIn | DirOut

  function DirCode(d: Dir): int {
    if d == DirIn then 0 else 1
  }

  const PB5: nat := 5
  const PB6: nat := 6
  const PD5: nat := 5

  /** gpio_terminal_def_t; a missing register is None (NULL in C). */
  datatype TerminalDef = TerminalDef(
    terminalNo: nat,
    dirReg: Option<Reg>,
    inputReg: Option<Reg>,
    outputReg: Option<Reg>,
    ioBit: nat,
    initialDir: Dir,
    initialOutput: int)

  /** Terminals 1-12 are output-only and all name PORTD bit PD5; terminals
      13 and 14 are bidirectional on port B, starting as inputs. */
  const TerminalDefs: seq<TerminalDef> := [
    TerminalDef(1, Some(DDRD), None, Some(PORTD), PD5, DirOut, 0),
    TerminalDef(2, Some(DDRD), None, Some(PORTD), PD5, DirOut, 0),
    TerminalDef(3, Some(DDRD), None, Some(PORTD), PD5, DirOut, 0),
    TerminalDef(4, Some(DDRD), None, Some(PORTD), PD5, DirOut, 0),
    TerminalDef(5, Some(DDRD), None, Some(PORTD), PD5, DirOut, 0),
    TerminalDef(6, Some(DDRD), None, Some(PORTD), PD5, DirOut, 0),
    TerminalDef(7, Some(DDRD), None, Some(PORTD), PD5, DirOut, 0),
    TerminalDef(8, Some(DDRD), None, Some(PORTD), PD5, DirOut, 0),
    TerminalDef(9, Some(DDRD), None, Some(PORTD), PD5, DirOut, 0),
    TerminalDef(10, Some(DDRD), None, Some(PORTD), PD5, DirOut, 0),
    TerminalDef(11, Some(DDRD), None, Some(PORTD), PD5, DirOut, 0),
    TerminalDef(12, Some(DDRD), None, Some(PORTD), PD5, DirOut, 0),
    TerminalDef(13, Some(DDRB), Some(PINB), Some(PORTB), PB5, DirIn, 0),
    TerminalDef(14, Some(DDRB), Some(PINB), Some(PORTB), PB6, DirIn, 0)
  ]

  /** Every bit number of the table names a bit of a byte. */
  lemma TableBitsInRange()
    ensures forall i :: 0 <= i < |TerminalDefs| ==> TerminalDefs[i].ioBit < 8
  {
  }

  /** Which role a register plays: DDRx selects the direction, PORTx
      drives the output, PINx reads the input. */
  predicate IsDirReg(r: Reg) { r == DDRB || r == DDRD }
  predicate IsOutputReg(r: Reg) { r == PORTB || r == PORTD }

  /** Every entry names a direction register and an output register, and an
      input register only if it is PINB: no register plays two roles. */
  lemma TableRoles()
    ensures forall i :: 0 <= i < |TerminalDefs| ==>
              TerminalDefs[i].dirReg.Some? && IsDirReg(TerminalDefs[i].dirReg.value) &&
              TerminalDefs[i].outputReg.Some? && IsOutputReg(TerminalDefs[i].outputReg.value) &&
              (TerminalDefs[i].inputReg.None? || TerminalDefs[i].inputReg == Some(PINB)) &&
              TerminalDefs[i].ioBit < 8
  {
  }

  /** getTerminal, from entry i on: the index of the first entry whose
      terminal number matches, else None (NULL). */
  function FindTerminal(terminalNo: int, i: nat): (r: Option<nat>)
    requires i <= |TerminalDefs|
    ensures r.Some? ==> i <= r.value < |TerminalDefs| && TerminalDefs[r.value].terminalNo == terminalNo
    ensures r.Some? ==> forall j :: i <= j < r.value ==> TerminalDefs[j].terminalNo != terminalNo
    ensures r.None? ==> forall j :: i <= j < |TerminalDefs| ==> TerminalDefs[j].terminalNo != terminalNo
    decreases |TerminalDefs| - i
  {
    if i == |TerminalDefs| then None
    else if TerminalDefs[i].terminalNo == terminalNo then Some(i)
    else FindTerminal(terminalNo, i + 1)
  }

  function GetTerminal(terminalNo: int): Option<nat> {
    FindTerminal(terminalNo, 0)
  }

  /** The table defines exactly the terminals 1 to 14, terminal n at index n - 1. */
  lemma GetTerminalNumbers(terminalNo: int)
    ensures GetTerminal(terminalNo).Some? <==> 1 <= terminalNo <= 14
    ensures GetTerminal(terminalNo).Some? ==> GetTerminal(terminalNo).value == terminalNo - 1
  {
    if 1 <= terminalNo <= 14 {
      assert TerminalDefs[terminalNo - 1].terminalNo == terminalNo;
    }
  }

  /** Terminals n and m drive the same output bit of the same register. */
  predicate SharesOutputBit(n: int, m: int) {
    GetTerminal(n).Some? && GetTerminal(m).Some? &&
    var a := TerminalDefs[GetTerminal(n).value];
    var b := TerminalDefs[GetTerminal(m).value];
    a.outputReg.Some? && a.outputReg == b.outputReg && a.ioBit == b.ioBit
  }

  /** Terminals 1 to 12 all drive PORTD bit PD5, so setting any one of them
      sets what all twelve report. */
  lemma OutputOnlyTerminalsShareBit(n: int, m: int)
    requires 1 <= n <= 12 && 1 <= m <= 12
    ensures SharesOutputBit(n, m)
  {
    GetTerminalNumbers(n);
    GetTerminalNumbers(m);
    PortDEntries();
  }

  /** Entries 1 to 12 all drive PORTD bit PD5 and have no input register. */
  lemma PortDEntries()
    ensures forall i :: 0 <= i < 12 ==>
              TerminalDefs[i].outputReg == Some(PORTD) && TerminalDefs[i].ioBit == PD5 &&
              TerminalDefs[i].inputReg.None?
  {
  }

  /** setIoRegBit on a register value: `|= _BV(bit)` when on sets bit
      `bit`, `&= ~_BV(bit)` clears it; no other bit changes. */
  function SetBit(b: Byte, bit: nat, on: bool): (r: Byte)
    requires bit < 8
  {
    b[bit := on]
  }

  /** !!(b & _BV(bit)). */
  function TestBit(b: Byte, bit: nat): (r: int)
    requires bit < 8
    ensures r == 0 || r == 1
    ensures r == 1 <==> b[bit]
  {
    if b[bit] then 1 else 0
  }

  /** gpio__getInput on register contents: -1 for an unknown terminal or
      one without an input register, else the terminal's input bit. */
  function Input(regs: RegFile, terminalNo: int): (r: int)
    ensures -1 <= r <= 1
    ensures r == -1 <==>
              GetTerminal(terminalNo).None? || TerminalDefs[GetTerminal(terminalNo).value].inputReg.None?
  {
    TableBitsInRange();
    match GetTerminal(terminalNo)
    case None => -1
    case Some(i) =>
      var t := TerminalDefs[i];
      if t.inputReg.None? then -1 else TestBit(regs.Get(t.inputReg.value), t.ioBit)
  }

  /** gpio__getOutput on register contents: -1 for an unknown terminal or
      one without an output register, else the terminal's output bit. */
  function Output(regs: RegFile, terminalNo: int): (r: int)
    ensures -1 <= r <= 1
    ensures r == -1 <==>
              GetTerminal(terminalNo).None? || TerminalDefs[GetTerminal(terminalNo).value].outputReg.None?
  {
    TableBitsInRange();
    match GetTerminal(terminalNo)
    case None => -1
    case Some(i) =>
      var t := TerminalDefs[i];
      if t.outputReg.None? then -1 else TestBit(regs.Get(t.outputReg.value), t.ioBit)
  }

  /** gpio__getDirection on register contents: -1 for an unknown terminal or
      one without a direction register, else the direction bit (1 for
      DIR_OUT). */
  function Direction(regs: RegFile, terminalNo: int): (r: int)
    ensures -1 <= r <= 1
    ensures r == -1 <==>
              GetTerminal(terminalNo).None? || TerminalDefs[GetTerminal(terminalNo).value].dirReg.None?
  {
    TableBitsInRange();
    match GetTerminal(terminalNo)
    case None => -1
    case Some(i) =>
      var t := TerminalDefs[i];
      if t.dirReg.None? then -1 else TestBit(regs.Get(t.dirReg.value), t.ioBit)
  }

  /** The registers after gpio__setOutput, or None where it returns -1: the
      terminal's output bit becomes !!on. */
  function WriteOutput(regs: RegFile, terminalNo: int, on: int): (r: Option<RegFile>)
    ensures r.None? <==> Output(regs, terminalNo) == -1
    ensures r.Some? ==> Output(r.value, terminalNo) == if on != 0 then 1 else 0
  {
    TableBitsInRange();
    match GetTerminal(terminalNo)
    case None => None
    case Some(i) =>
      var t := TerminalDefs[i];
      if t.outputReg.None? then None
      else Some(regs.Set(t.outputReg.value, SetBit(regs.Get(t.outputReg.value), t.ioBit, on != 0)))
  }

  /** Setting one output sets every terminal that shares its bit, leaves
      the output of every other terminal as it was, and leaves the inputs
      and directions of all terminals as they were. */
  lemma WriteOutputEffect(regs: RegFile, terminalNo: int, on: int, other: int)
    requires WriteOutput(regs, terminalNo, on).Some?
    ensures SharesOutputBit(other, terminalNo) ==>
              Output(WriteOutput(regs, terminalNo, on).value, other) == if on != 0 then 1 else 0
    ensures !SharesOutputBit(other, terminalNo) ==>
              Output(WriteOutput(regs, terminalNo, on).value, other) == Output(regs, other)
    ensures Input(WriteOutput(regs, terminalNo, on).value, other) == Input(regs, other)
    ensures Direction(WriteOutput(regs, terminalNo, on).value, other) == Direction(regs, other)
  {
    TableRoles();
    var t := TerminalDefs[GetTerminal(terminalNo).value];
    var after := WriteOutput(regs, terminalNo, on).value;
    assert after == regs.Set(t.outputReg.value, SetBit(regs.Get(t.outputReg.value), t.ioBit, on != 0));
  }

  /** The registers after gpio__setDirection, or None where it returns -1:
      an unknown terminal, no direction register, DIR_OUT without an
      output register or DIR_IN without an input register. Otherwise the
      terminal's direction bit becomes dir. */
  function WriteDirection(regs: RegFile, terminalNo: int, dir: Dir): (r: Option<RegFile>)
    ensures r.None? <==>
              GetTerminal(terminalNo).None? ||
              TerminalDefs[GetTerminal(terminalNo).value].dirReg.None? ||
              (dir == DirOut && TerminalDefs[GetTerminal(terminalNo).value].outputReg.None?) ||
              (dir == DirIn && TerminalDefs[GetTerminal(terminalNo).value].inputReg.None?)
    ensures r.Some? ==> Direction(r.value, terminalNo) == DirCode(dir)
  {
    TableBitsInRange();
    match GetTerminal(terminalNo)
    case None => None
    case Some(i) =>
      var t := TerminalDefs[i];
      if t.dirReg.None? || (dir == DirOut && t.outputReg.None?) || (dir == DirIn && t.inputReg.None?) then None
      else Some(regs.Set(t.dirReg.value, SetBit(regs.Get(t.dirReg.value), t.ioBit, DirCode(dir) != 0)))
  }

  /** Changing a direction leaves every terminal's output and input as it
      was: direction registers are not read by either. */
  lemma WriteDirectionKeeps(regs: RegFile, terminalNo: int, dir: Dir, other: int)
    requires WriteDirection(regs, terminalNo, dir).Some?
    ensures Output(WriteDirection(regs, terminalNo, dir).value, other) == Output(regs, other)
    ensures Input(WriteDirection(regs, terminalNo, dir).value, other) == Input(regs, other)
  {
    TableRoles();
    var t := TerminalDefs[GetTerminal(terminalNo).value];
    var after := WriteDirection(regs, terminalNo, dir).value;
    assert after == regs.Set(t.dirReg.value, SetBit(regs.Get(t.dirReg.value), t.ioBit, DirCode(dir) != 0));
  }

  /** setIoRegBit changes exactly bit `bit` of register `reg`, to on; every
      other bit of that register and every other register keeps its value. */
  lemma SetIoRegBitExact(regs: RegFile, reg: Reg, bit: nat, on: bool)
    requires bit < 8
    ensures TestBit(regs.Set(reg, SetBit(regs.Get(reg), bit, on)).Get(reg), bit) == if on then 1 else 0
    ensures forall k :: 0 <= k < 8 && k != bit ==>
              regs.Set(reg, SetBit(regs.Get(reg), bit, on)).Get(reg)[k] == regs.Get(reg)[k]
    ensures forall q :: q != reg ==> regs.Set(reg, SetBit(regs.Get(reg), bit, on)).Get(q) == regs.Get(q)
  {
  }

  /** The registers of the port, updated by read-modify-write. */
  class GpioPorts {
    var regs: RegFile

    constructor (initial: RegFile)
      ensures regs == initial
    {
      regs := initial;
    }

    /** gpio__getInput. */
    function GetInput(terminalNo: int): int
      reads this
    {
      Input(regs, terminalNo)
    }

    /** gpio__getOutput. */
    function GetOutput(terminalNo: int): int
      reads this
    {
      Output(regs, terminalNo)
    }

    /** gpio__getDirection. */
    function GetDirection(terminalNo: int): int
      reads this
    {
      Direction(regs, terminalNo)
    }

    /** setIoRegBit: read-modify-write of one bit of one register. */
    method SetIoRegBit(reg: Reg, bitNo: nat, on: int)
      requires bitNo < 8
      modifies this
      ensures regs == old(regs).Set(reg, SetBit(old(regs).Get(reg), bitNo, on != 0))
    {
      regs := regs.Set(reg, SetBit(regs.Get(reg), bitNo, on != 0));
    }

    /** gpio__setOutput: -1 with nothing changed where WriteOutput refuses,
        else 0 with the registers WriteOutput gives. */
    method SetOutput(terminalNo: int, on: int) returns (r: int)
      modifies this
      ensures r == -1 || r == 0
      ensures r == -1 <==> WriteOutput(old(regs), terminalNo, on).None?
      ensures r == -1 ==> regs == old(regs)
      ensures r == 0 ==> regs == WriteOutput(old(regs), terminalNo, on).value
    {
      TableBitsInRange();
      var terminal := GetTerminal(terminalNo);
      if terminal.None? {
        return -1;
      }
      var t := TerminalDefs[terminal.value];
      if t.outputReg.None? {
        return -1;
      }
      SetIoRegBit(t.outputReg.value, t.ioBit, on);
      return 0;
    }

    /** gpio__setDirection: -1 with nothing changed where WriteDirection
        refuses, else 0 with the registers WriteDirection gives. */
    method SetDirection(terminalNo: int, dir: Dir) returns (r: int)
      modifies this
      ensures r == -1 || r == 0
      ensures r == -1 <==> WriteDirection(old(regs), terminalNo, dir).None?
      ensures r == -1 ==> regs == old(regs)
      ensures r == 0 ==> regs == WriteDirection(old(regs), terminalNo, dir).value
    {
      TableBitsInRange();
      var terminal := GetTerminal(terminalNo);
      if terminal.None? {
        return -1;
      }
      var t := TerminalDefs[terminal.value];
      if t.dirReg.None? {
        return -1;
      }
      if dir == DirOut && t.outputReg.None? {
        return -1;
      }
      if dir == DirIn && t.inputReg.None? {
        return -1;
      }
      SetIoRegBit(t.dirReg.value, t.ioBit, DirCode(dir));
      return 0;
    }

    /** gpio__init: for each table entry in order, set its direction bit to
        (initialDir == DIR_OUT) and its output bit to initialOutput. */
    method Init()
      modifies this
      ensures regs == InitEffect(old(regs), 0)
    {
      TableBitsInRange();
      var i := 0;
      while i < |TerminalDefs|
        invariant i <= |TerminalDefs|
        invariant InitFrom(regs, i) == InitFrom(old(regs), 0)
      {
        var term := TerminalDefs[i];
        ghost var before := regs;
        if term.dirReg.Some? {
          SetIoRegBit(term.dirReg.value, term.ioBit, if term.initialDir == DirOut then 1 else 0);
        }
        if term.outputReg.Some? {
          SetIoRegBit(term.outputReg.value, term.ioBit, term.initialOutput);
        }
        assert regs == InitEntry(before, term);
        i := i + 1;
      }
      InitFromEffect(old(regs), 0);
    }
  }

  /** The register updates gpio__init makes for one entry. */
  function InitEntry(regs: RegFile, t: TerminalDef): RegFile
    requires t.ioBit < 8
  {
    var afterDir := if t.dirReg.Some? then regs.Set(t.dirReg.value, SetBit(regs.Get(t.dirReg.value), t.ioBit, t.initialDir == DirOut)) else regs;
    if t.outputReg.Some? then afterDir.Set(t.outputReg.value, SetBit(afterDir.Get(t.outputReg.value), t.ioBit, t.initialOutput != 0))
    else afterDir
  }

  /** gpio__init from entry i on. */
  function InitFrom(regs: RegFile, i: nat): RegFile
    requires i <= |TerminalDefs|
    decreases |TerminalDefs| - i
  {
    TableBitsInRange();
    if i == |TerminalDefs| then regs
    else
      var next := InitEntry(regs, TerminalDefs[i]);
      InitFrom(next, i + 1)
  }

  /** What gpio__init leaves behind, from entry i on: entries 1-12 set DDRD
      bit PD5 and clear PORTD bit PD5, entry 13 clears bit PB5 of DDRB and
      PORTB, entry 14 clears bit PB6 of both; no other bit changes. */
  function InitEffect(regs: RegFile, i: nat): RegFile {
    RegFile(ClearPortBBits(regs.ddrb, i), regs.pinb, ClearPortBBits(regs.portb, i),
            if i < 12 then regs.ddrd[PD5 := true] else regs.ddrd,
            if i < 12 then regs.portd[PD5 := false] else regs.portd)
  }

  /** The port B bits that entries i to 14 clear. */
  function ClearPortBBits(b: Byte, i: nat): Byte {
    var b5 := if i <= 12 then b[PB5 := false] else b;
    if i <= 13 then b5[PB6 := false] else b5
  }

  /** The register updates of entry i of gpio__init: those of InitEffect
      for that one entry. */
  lemma InitEntryEffect(regs: RegFile, i: nat)
    requires i < |TerminalDefs|
    ensures TerminalDefs[i].ioBit < 8
    ensures i < 12 ==> InitEntry(regs, TerminalDefs[i]) ==
                         regs.(ddrd := regs.ddrd[PD5 := true], portd := regs.portd[PD5 := false])
    ensures i >= 12 ==> InitEntry(regs, TerminalDefs[i]) ==
                          regs.(ddrb := regs.ddrb[i - 7 := false], portb := regs.portb[i - 7 := false])
  {
    if i < 12 {
      PortDEntries();
    }
  }

  /** gpio__init from entry i on has the effect InitEffect describes. */
  lemma {:induction false} InitFromEffect(regs: RegFile, i: nat)
    requires i <= |TerminalDefs|
    ensures InitFrom(regs, i) == InitEffect(regs, i)
    decreases |TerminalDefs| - i
  {
    if i < |TerminalDefs| {
      TableBitsInRange();
      var next := InitEntry(regs, TerminalDefs[i]);
      InitEntryEffect(regs, i);
      InitFromEffect(next, i + 1);
    }
  }

  /** After gpio__init every terminal reports its table entry's initial
      direction and initial output; the input pins are not touched. */
  lemma InitDefaults(regs: RegFile, n: int)
    requires 1 <= n <= 14
    ensures Direction(InitEffect(regs, 0), n) == DirCode(TerminalDefs[n - 1].initialDir)
    ensures Output(InitEffect(regs, 0), n) == TerminalDefs[n - 1].initialOutput
    ensures Input(InitEffect(regs, 0), n) == Input(regs, n)
  {
    GetTerminalNumbers(n);
  }

  /** gpio__init twice leaves the registers as gpio__init once. */
  lemma InitIdempotent(regs: RegFile)
    ensures InitEffect(InitEffect(regs, 0), 0) == InitEffect(regs, 0)
  {
    var once := InitEffect(regs, 0);
    assert once.ddrb[PB5 := false][PB6 := false] == once.ddrb;
    assert once.portb[PB5 := false][PB6 := false] == once.portb;
    assert once.ddrd[PD5 := true] == once.ddrd;
    assert once.portd[PD5 := false] == once.portd;
  }

  /** Terminals 1 to 12 have no input register: gpio__getInput fails for
      them and gpio__setDirection can never make them inputs. */
  lemma OutputOnlyTerminals(n: int)
    requires 1 <= n <= 12
    ensures GetTerminal(n).Some? && TerminalDefs[GetTerminal(n).value].inputReg.None?
    ensures TerminalDefs[GetTerminal(n).value].outputReg.Some?
  {
    GetTerminalNumbers(n);
    PortDEntries();
  }
}
