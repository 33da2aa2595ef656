/** The two halves of the system put together: the lines the host drivers
    write, fed byte by byte into the firmware's accumulator and parsed
    against the firmware's command table. */
module Composition {
  import opened Wrappers
  import PyText
  import DriverProtocol
  import opened CmdProcTypes
  import opened CmdProcSpec
  import opened Commands

  /** The firmware's digit value and the host's agree on digit strings. */
  lemma {:induction false} DecimalValueAgrees(s: string)
    requires AllDigits(s)
    ensures DecimalValue(s) == PyText.DigitsValue(s)
    decreases |s|
  {
    if s != [] {
      var front := s[..|s| - 1];
      assert AllDigits(front) by {
        forall i | 0 <= i < |front| ensures IsDigit(front[i]) {
          assert front[i] == s[i];
        }
      }
      DecimalValueAgrees(front);
    }
  }

  /** The decimal text f"{n}" the drivers write for a number of 0..255: one
      to three digits, none of them special to the firmware, which reads
      them back as the single UInt8 argument n. */
  lemma DecimalArg(n: int)
    requires 0 <= n <= 255
    ensures var d := PyText.IntText(n);
            1 <= |d| <= 3 && AllDigits(d) && Keepable(d) &&
            QUERY_OP_CH !in d && SET_OP_CH !in d && LEFTARGS_START_CH !in d && ARG_DELIMITER !in d &&
            ParseArgs(d, [ArgUInt8]) == Ok([UInt8Val(n)])
  {
    DecimalText(n);
    DecimalScans(n);
    SingleArg(PyText.IntText(n), ArgUInt8, UInt8Val(n));
  }

  /** "%u" reads the decimal text of a number of 0..255 back as that
      number, so it is a UInt8 argument. */
  lemma DecimalScans(n: int)
    requires 0 <= n <= 255
    ensures ParseArgVal(PyText.IntText(n), ArgUInt8) == Some(UInt8Val(n))
  {
    var d := PyText.IntText(n);
    assert d == PyText.NatText(n);
    DecimalText(n);
    DecimalValueAgrees(d);
    PyText.NatTextValue(n);
    assert DecimalValue(d) == n;
    ScanLeadingDigits(d, []);
    assert d + [] == d;
    assert n % 0x1_0000 == n;
    assert ScanUnsigned(d) == Some(n);
  }

  /** The digits of a number of 0..255 as text. */
  lemma DecimalText(n: int)
    requires 0 <= n <= 255
    ensures var d := PyText.IntText(n);
            1 <= |d| <= 3 && AllDigits(d) && Keepable(d) &&
            QUERY_OP_CH !in d && SET_OP_CH !in d && LEFTARGS_START_CH !in d && ARG_DELIMITER !in d
  {
    var d := PyText.IntText(n);
    PyText.NatTextDigits(n);
    assert AllDigits(d);
    if n >= 10 {
      assert |d| == |PyText.NatText(n / 10)| + 1;
      if n >= 100 {
        assert |PyText.NatText(n / 10)| == |PyText.NatText(n / 100)| + 1;
      }
    }
    forall i | 0 <= i < |d|
      ensures d[i] != NUL && !IsIgnored(d[i]) && d[i] != LINE_TERMINATOR
      ensures d[i] != QUERY_OP_CH && d[i] != SET_OP_CH && d[i] != LEFTARGS_START_CH && d[i] != ARG_DELIMITER
    {
      assert IsDigit(d[i]);
    }
  }

  /** A one-slot list whose text holds no ',' is that text's value. */
  lemma SingleArg(d: string, t: ArgType, v: ArgVal)
    requires d != [] && ARG_DELIMITER !in d && |d| <= ARG_MAX_LEN
    requires ParseArgVal(d, t) == Some(v)
    ensures ParseArgs(d, [t]) == Ok([v])
  {
    FirstIndexFirst(d, ARG_DELIMITER);
    assert d[..|d|] == d;
    assert [t][1..] == [];
    assert ParseArgs([], []) == Ok([]);
    assert [v] + [] == [v];
  }

  /** The parts of a line "<mnem>:<args><op><right>" whose mnemonic and
      argument text hold no operator character: the shape is set by op,
      the mnemonic and the left argument text are mnem and args, and the
      right side is right. */
  lemma LineParts(mnem: string, args: string, op: char, right: string)
    requires op == QUERY_OP_CH || op == SET_OP_CH
    requires QUERY_OP_CH !in mnem && SET_OP_CH !in mnem && LEFTARGS_START_CH !in mnem
    requires QUERY_OP_CH !in args && SET_OP_CH !in args
    requires op == SET_OP_CH ==> QUERY_OP_CH !in right
    ensures var line := mnem + [LEFTARGS_START_CH] + args + [op] + right;
            ShapeOf(line) == (if op == QUERY_OP_CH then Query else Set) &&
            Mnemonic(line) == mnem && HasLeftArgs(line) && LeftArgText(line) == args &&
            RightSide(line) == right
  {
    var left := mnem + [LEFTARGS_START_CH] + args;
    assert QUERY_OP_CH !in left && SET_OP_CH !in left;
    OperatorSplits(left, op, right);
    LeftParts(mnem, args);
  }

  /** A line split at its first operator: the left side ends there. */
  lemma OperatorSplits(left: string, op: char, right: string)
    requires op == QUERY_OP_CH || op == SET_OP_CH
    requires QUERY_OP_CH !in left && SET_OP_CH !in left
    requires op == SET_OP_CH ==> QUERY_OP_CH !in right
    ensures var line := left + [op] + right;
            ShapeOf(line) == (if op == QUERY_OP_CH then Query else Set) &&
            LeftSide(line) == left && RightSide(line) == right
  {
    var line := left + [op] + right;
    FirstIndexExtend(left, op, [op] + right);
    assert line == left + ([op] + right);
    assert FirstIndex(line, op) == |left|;
    if op == SET_OP_CH {
      assert QUERY_OP_CH !in line;
      FirstIndexFirst(line, QUERY_OP_CH);
    } else {
      assert line[|left|] == QUERY_OP_CH;
    }
    assert LeftEnd(line) == |left|;
  }

  /** The left side "<mnem>:<args>": mnemonic mnem, argument text args. */
  lemma LeftParts(mnem: string, args: string)
    requires LEFTARGS_START_CH !in mnem
    ensures var left := mnem + [LEFTARGS_START_CH] + args;
            var c := FirstIndex(left, LEFTARGS_START_CH);
            c == |mnem| && left[..c] == mnem && left[c + 1..] == args
  {
    var left := mnem + [LEFTARGS_START_CH] + args;
    FirstIndexExtend(mnem, LEFTARGS_START_CH, [LEFTARGS_START_CH] + args);
    assert left == mnem + ([LEFTARGS_START_CH] + args);
    assert left[..|mnem|] == mnem;
    assert left[|mnem| + 1..] == args;
  }

  /** Past the lookup, a line whose two argument lists parse is accepted
      with their values. */
  lemma ParseAccepts(line: string, reg: seq<CmdSpec>, j: int, left: seq<ArgVal>, right: seq<ArgVal>)
    requires |Mnemonic(line)| <= MNEM_MAX_LEN && 0 <= j < |reg|
    requires FindSpec(reg, Mnemonic(line), ShapeOf(line)) == j
    requires LeftArgs(line, reg[j]) == Ok(left) && RightArgs(line, reg[j]) == Ok(right)
    ensures Parse(line, reg) == Command(ShapeOf(line), Mnemonic(line), left, right, NoError)
  {
  }

  /** A line the drivers send, a registered mnemonic, ':', digits, an
      operator and digits, arrives whole and ready once "\r" follows it:
      the accumulator keeps every one of its characters and it fits the
      buffer. */
  lemma DriverLineArrives(mnem: string, d: string, op: char, e: string)
    requires mnem == "INP" || mnem == "OUT" || mnem == "DIR"
    requires op == QUERY_OP_CH || op == SET_OP_CH
    requires AllDigits(d) && AllDigits(e) && |d| <= 3 && |e| <= 3
    ensures var line := mnem + [LEFTARGS_START_CH] + d + [op] + e;
            Feed(EmptyLine, line + [LINE_TERMINATOR]) == LineState(line, true)
  {
    var line := mnem + [LEFTARGS_START_CH] + d + [op] + e;
    forall i | 0 <= i < |line|
      ensures line[i] != NUL && !IsIgnored(line[i]) && line[i] != LINE_TERMINATOR
    {
      if i < 3 {
        assert line[i] == mnem[i];
      } else if i == 3 {
        assert line[i] == LEFTARGS_START_CH;
      } else if i < 4 + |d| {
        assert line[i] == d[i - 4];
        assert IsDigit(d[i - 4]);
      } else if i == 4 + |d| {
        assert line[i] == op;
      } else {
        assert line[i] == e[i - 5 - |d|];
        assert IsDigit(e[i - 5 - |d|]);
      }
    }
    FeedLine(EmptyLine, line);
  }

  /** The table entry for each registered (mnemonic, shape) pair. */
  function EntryOf(mnem: string, t: CmdType): nat {
    if t == Query then
      (if mnem == "INP" then COMMAND_INP_QUERY else if mnem == "OUT" then COMMAND_OUT_QUERY else COMMAND_DIR_QUERY)
    else if mnem == "OUT" then COMMAND_OUT_SET else COMMAND_DIR_SET
  }

  /** The entry found for a registered pair, with its argument types. */
  lemma EntryLookup(mnem: string, t: CmdType)
    requires (mnem == "INP" && t == Query) || ((mnem == "OUT" || mnem == "DIR") && (t == Query || t == Set))
    ensures EntryOf(mnem, t) < |Table|
    ensures FindSpec(Table, mnem, t) == EntryOf(mnem, t)
    ensures Table[EntryOf(mnem, t)].leftArgTypes == [ArgUInt8]
    ensures Table[EntryOf(mnem, t)].rightArgTypes == if t == Query then [] else [ArgUInt8]
  {
    var j := EntryOf(mnem, t);
    assert SpecMatches(Table[j], mnem, t);
    TableLookupIsUnique(mnem, t, j);
  }

  /** A query line as _ask writes it, "<mnem>:<n>?" before the "\r", for
      a registered query mnemonic and a terminal number of 0..255, reaches
      the parser whole and parses to that query with the single argument
      n. */
  lemma QueryLineParses(mnem: string, n: int)
    requires mnem == "INP" || mnem == "OUT" || mnem == "DIR"
    requires 0 <= n <= 255
    ensures var line := mnem + ":" + PyText.IntText(n) + "?";
            Feed(EmptyLine, line + [LINE_TERMINATOR]) == LineState(line, true) &&
            Parse(line, Table) == Command(Query, mnem, [UInt8Val(n)], [], NoError)
  {
    var line := mnem + ":" + PyText.IntText(n) + "?";
    DecimalText(n);
    DriverLineArrives(mnem, PyText.IntText(n), QUERY_OP_CH, []);
    assert line == mnem + [LEFTARGS_START_CH] + PyText.IntText(n) + [QUERY_OP_CH] + [];
    QueryLineCommand(mnem, n);
  }

  lemma QueryLineCommand(mnem: string, n: int)
    requires mnem == "INP" || mnem == "OUT" || mnem == "DIR"
    requires 0 <= n <= 255
    ensures var line := mnem + ":" + PyText.IntText(n) + "?";
            Parse(line, Table) == Command(Query, mnem, [UInt8Val(n)], [], NoError)
  {
    var line := mnem + ":" + PyText.IntText(n) + "?";
    assert line == mnem + [LEFTARGS_START_CH] + PyText.IntText(n) + [QUERY_OP_CH] + [];
    EntryLookup(mnem, Query);
    UInt8LineAccepted(Table, EntryOf(mnem, Query), mnem, n, QUERY_OP_CH, [], []);
  }

  /** A line "<mnem>:<n><op><right>" whose entry in reg takes one UInt8 on
      the left, and whose right text reads as that entry's right list, is
      accepted with n and the right values. */
  lemma UInt8LineAccepted(reg: seq<CmdSpec>, j: int, mnem: string, n: int, op: char, right: string, rightVals: seq<ArgVal>)
    requires mnem == "INP" || mnem == "OUT" || mnem == "DIR"
    requires op == QUERY_OP_CH || op == SET_OP_CH
    requires 0 <= n <= 255
    requires op == SET_OP_CH ==> QUERY_OP_CH !in right
    requires 0 <= j < |reg| && FindSpec(reg, mnem, if op == QUERY_OP_CH then Query else Set) == j
    requires reg[j].leftArgTypes == [ArgUInt8]
    requires ArgList(right != [], right, reg[j].rightArgTypes) == Ok(rightVals)
    ensures Parse(mnem + [LEFTARGS_START_CH] + PyText.IntText(n) + [op] + right, reg) ==
              Command(if op == QUERY_OP_CH then Query else Set, mnem, [UInt8Val(n)], rightVals, NoError)
  {
    var d := PyText.IntText(n);
    DecimalArg(n);
    LineParts(mnem, d, op, right);
    ParseAccepts(mnem + [LEFTARGS_START_CH] + d + [op] + right, reg, j, [UInt8Val(n)], rightVals);
  }

  /** A set line as _tell writes it, "<mnem>:<n>=<v>" before the "\r",
      for a registered set mnemonic and n, v of 0..255, reaches the parser
      whole and parses to that set command with left argument n and right
      argument v. */
  lemma SetLineParses(mnem: string, n: int, v: int)
    requires mnem == "OUT" || mnem == "DIR"
    requires 0 <= n <= 255 && 0 <= v <= 255
    ensures var line := mnem + ":" + PyText.IntText(n) + "=" + PyText.IntText(v);
            Feed(EmptyLine, line + [LINE_TERMINATOR]) == LineState(line, true) &&
            Parse(line, Table) == Command(Set, mnem, [UInt8Val(n)], [UInt8Val(v)], NoError)
  {
    DecimalText(n);
    DecimalText(v);
    DriverLineArrives(mnem, PyText.IntText(n), SET_OP_CH, PyText.IntText(v));
    SetLineCommand(mnem, n, v);
  }

  lemma SetLineCommand(mnem: string, n: int, v: int)
    requires mnem == "OUT" || mnem == "DIR"
    requires 0 <= n <= 255 && 0 <= v <= 255
    ensures var line := mnem + ":" + PyText.IntText(n) + "=" + PyText.IntText(v);
            Parse(line, Table) == Command(Set, mnem, [UInt8Val(n)], [UInt8Val(v)], NoError)
  {
    var e := PyText.IntText(v);
    DecimalArg(v);
    var line := mnem + ":" + PyText.IntText(n) + "=" + e;
    assert line == mnem + [LEFTARGS_START_CH] + PyText.IntText(n) + [SET_OP_CH] + e;
    EntryLookup(mnem, Set);
    UInt8LineAccepted(Table, EntryOf(mnem, Set), mnem, n, SET_OP_CH, e, [UInt8Val(v)]);
  }

  /** set_output on a terminal of 0..255 that passes its check writes one
      line that the firmware parses to OUT/Set with the terminal number
      and bool(on) as its arguments. */
  lemma SetOutputReachesFirmware(caps: DriverProtocol.Capabilities, p: DriverProtocol.PortState, n: int, on: int)
    requires DriverProtocol.CheckOutputOk(caps, n).None?
    requires 0 <= n <= 255
    ensures var b := if on != 0 then 1 else 0;
            var line := "OUT" + ":" + PyText.IntText(n) + "=" + PyText.IntText(b);
            DriverProtocol.SetOutput(caps, p, n, on).port.written == p.written + (line + [LINE_TERMINATOR]) &&
            Feed(EmptyLine, line + [LINE_TERMINATOR]) == LineState(line, true) &&
            Parse(line, Table) == Command(Set, "OUT", [UInt8Val(n)], [UInt8Val(b)], NoError)
  {
    SetOutputWrites(caps, p, n, on);
    SetLineParses("OUT", n, if on != 0 then 1 else 0);
  }

  /** The text set_output writes past its check. */
  lemma SetOutputWrites(caps: DriverProtocol.Capabilities, p: DriverProtocol.PortState, n: int, on: int)
    requires DriverProtocol.CheckOutputOk(caps, n).None?
    ensures DriverProtocol.SetOutput(caps, p, n, on).port.written ==
              p.written + (("OUT" + ":" + PyText.IntText(n) + "=" + PyText.IntText(if on != 0 then 1 else 0)) + [LINE_TERMINATOR])
  {
    var cmd := "OUT:" + PyText.IntText(n) + "=" + DriverProtocol.OnDigit(on);
    assert DriverProtocol.SetOutput(caps, p, n, on) == DriverProtocol.Tell(p, cmd);
    assert DriverProtocol.Tell(p, cmd).port.written == p.written + (cmd + "\r");
    assert "OUT:" == "OUT" + ":";
    OnDigitIsText(on);
  }

  /** The digit set_output writes is the decimal text of bool(on). */
  lemma OnDigitIsText(on: int)
    ensures DriverProtocol.OnDigit(on) == PyText.IntText(if on != 0 then 1 else 0)
  {
    assert PyText.NatText(0) == "0";
    assert PyText.NatText(1) == "1";
  }

  /** The discovery query of __init__, "TCP:<n>?", names no entry of the
      command table, so the firmware answers it with a CMD error. */
  lemma CapabilityQueryUnregistered(n: int)
    requires 0 <= n <= 255
    ensures Parse("TCP:" + PyText.IntText(n) + "?", Table).parseError == ErrCmd
  {
    var d := PyText.IntText(n);
    DecimalText(n);
    var line := "TCP:" + d + "?";
    assert line == "TCP" + [LEFTARGS_START_CH] + d + [QUERY_OP_CH] + [];
    LineParts("TCP", d, QUERY_OP_CH, []);
    TableKeys("TCP", Query);
    UnregisteredIsCmd(line);
  }

  /** A line whose mnemonic (of at most 16 characters) the table does not
      hold in the line's shape is a CMD error. */
  lemma UnregisteredIsCmd(line: string)
    requires |Mnemonic(line)| <= MNEM_MAX_LEN
    requires FindSpec(Table, Mnemonic(line), ShapeOf(line)) < 0
    ensures Parse(line, Table).parseError == ErrCmd
  {
  }

  /** The identification queries of __init__, "IDN?" and "TLS?", name no
      entry of the command table, so the firmware answers each with a CMD
      error. */
  lemma BareQueryUnregistered(mnem: string)
    requires mnem == "IDN" || mnem == "TLS"
    ensures Parse(mnem + "?", Table).parseError == ErrCmd
  {
    var line := mnem + "?";
    FirstIndexIs(line, QUERY_OP_CH, 3);
    assert LeftSide(line) == mnem;
    FirstIndexIs(mnem, LEFTARGS_START_CH, 3);
    assert Mnemonic(line) == mnem;
    TableKeys(mnem, Query);
    UnregisteredIsCmd(line);
  }

  /** No line without '?' or '=' is accepted: the table registers no
      Do-shaped command, so every Do line is a CMD error. */
  lemma DoLinesUnregistered(line: string)
    requires ShapeOf(line) == Do
    ensures Parse(line, Table).parseError == ErrCmd
  {
    if |Mnemonic(line)| <= MNEM_MAX_LEN {
      TableKeys(Mnemonic(line), Do);
    }
    ParseCmdError(line, Table);
  }
}
