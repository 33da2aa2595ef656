/** The firmware's command front end as it runs: a module-level line buffer
    filled byte by byte, and a parser that splits the buffered line in place
    with NUL bytes, copies the two sides into local buffers and walks the
    argument lists. Every method is proved against module CmdProcSpec, and
    every buffer index is proved in bounds. */
module CmdProc {
  import opened Wrappers
  import opened CmdProcTypes
  import opened CmdProcSpec
  import opened CStr

  /** One successful round of parseArgs moves the parsed value from the
      remaining text to the values already written. */
  lemma StepOk(whole: Result<seq<ArgVal>>, done: seq<ArgVal>, rem: string, ts: seq<ArgType>, v: ArgVal)
    requires rem != [] && ts != [] && whole == Prepend(done, ParseArgs(rem, ts))
    requires var tok := rem[..FirstIndex(rem, ARG_DELIMITER)];
             FieldParses(tok, ts[0]) && v == ParseArgVal(tok, ts[0]).value
    ensures whole == Prepend(done + [v], ParseArgs(AfterField(rem), ts[1..]))
  {
    var r := ParseArgs(AfterField(rem), ts[1..]);
    ParseArgsHead(rem, ts);
    PrependAppend(done, v, r);
  }

  /** parseArgs on a list whose first token parses: that token's value,
      then the rest of the list. */
  lemma ParseArgsHead(s: string, ts: seq<ArgType>)
    requires s != [] && ts != []
    requires FieldParses(s[..FirstIndex(s, ARG_DELIMITER)], ts[0])
    ensures ParseArgs(s, ts) ==
              Prepend([ParseArgVal(s[..FirstIndex(s, ARG_DELIMITER)], ts[0]).value], ParseArgs(AfterField(s), ts[1..]))
  {
  }

  /** Sequence bookkeeping for the loop of ParseArgsIn: moving one parsed
      value from the front of the rest onto the values already stored
      leaves the overall result unchanged. */
  lemma PrependAppend(done: seq<ArgVal>, v: ArgVal, r: Result<seq<ArgVal>>)
    ensures Prepend(done, Prepend([v], r)) == Prepend(done + [v], r)
  {
    if r.Ok? {
      assert done + ([v] + r.value) == (done + [v]) + r.value;
    }
  }

  /** A token that is too long or does not parse ends parseArgs with ARG_FMT. */
  lemma StepFail(whole: Result<seq<ArgVal>>, done: seq<ArgVal>, rem: string, ts: seq<ArgType>)
    requires rem != [] && ts != [] && whole == Prepend(done, ParseArgs(rem, ts))
    requires !FieldParses(rem[..FirstIndex(rem, ARG_DELIMITER)], ts[0])
    ensures whole == Err(ErrArgFmt)
  {
  }

  /** The text after the first field is a suffix: it holds no byte the
      whole text does not. */
  lemma AfterFieldKeepsOut(s: string, c: char)
    requires c !in s
    ensures c !in AfterField(s)
  {
    var k := FirstIndex(s, ARG_DELIMITER);
    if k < |s| {
      forall i | 0 <= i < |s| - k - 1 ensures AfterField(s)[i] != c {
        assert AfterField(s)[i] == s[k + 1 + i];
      }
    }
  }

  /** Find the next ',' of the list and, when there is one, overwrite it
      with a NUL (strchr, then *argEnd = 0); the token before it is left as
      it was. haveNext tells whether a ',' was found. */
  method CutToken(buf: array<char>, argStart: nat, ghost end: nat) returns (argEnd: nat, haveNext: bool)
    requires IsText(buf, argStart, end) && argStart < end
    modifies buf
    ensures var rem := old(buf[argStart..end]);
            argEnd == argStart + FirstIndex(rem, ARG_DELIMITER) &&
            (haveNext <==> argEnd < end) &&
            TextAt(buf, argStart, argEnd, rem[..FirstIndex(rem, ARG_DELIMITER)]) &&
            (haveNext ==> TextAt(buf, argEnd + 1, end, AfterField(rem)))
    ensures buf[end] == NUL
  {
    ghost var rem := buf[argStart..end];
    ghost var k := FirstIndex(rem, ARG_DELIMITER);
    argEnd := StrChr(buf, argStart, end, ARG_DELIMITER);
    haveNext := buf[argEnd] == ARG_DELIMITER;
    FirstIndexFirst(rem, ARG_DELIMITER);
    assert buf[argStart..argEnd] == rem[..k];
    assert NUL !in rem[..k] by {
      forall i | 0 <= i < k ensures rem[..k][i] != NUL {
        assert rem[..k][i] == rem[i];
      }
    }
    if haveNext {
      buf[argEnd] := NUL;
      assert buf[argEnd + 1..end] == rem[k + 1..];
      assert buf[argStart..argEnd] == rem[..k];
      AfterFieldKeepsOut(rem, NUL);
    }
  }

  /** The body of one round of parseArgs: cut the next token off the list,
      refuse it when longer than ARG_MAX_LEN, copy it into the argument
      buffer and parse it for its slot. ok is false exactly when parseArgs
      returns ARG_FMT for this token. */
  method TakeArg(buf: array<char>, argStart: nat, ghost end: nat, argBuf: array<char>, t: ArgType)
    returns (argEnd: nat, haveNext: bool, ok: bool, v: ArgVal)
    requires IsText(buf, argStart, end) && argStart < end
    requires argBuf.Length == ARG_BUF_SIZE && argBuf != buf
    modifies buf, argBuf
    ensures var rem := old(buf[argStart..end]);
            var tok := rem[..FirstIndex(rem, ARG_DELIMITER)];
            argEnd == argStart + FirstIndex(rem, ARG_DELIMITER) &&
            (haveNext <==> argEnd < end) &&
            (ok <==> FieldParses(tok, t)) &&
            (ok ==> v == ParseArgVal(tok, t).value) &&
            (haveNext ==> TextAt(buf, argEnd + 1, end, AfterField(rem)))
    ensures buf[end] == NUL
  {
    argEnd, haveNext := CutToken(buf, argStart, end);
    ghost var tok := buf[argStart..argEnd];
    var len := StrLen(buf, argStart, argEnd);
    v := UInt8Val(0);
    if len > ARG_MAX_LEN {
      ok := false;
      return;
    }
    StrNCpyArg(argBuf, buf, argStart, argEnd);
    assert argBuf[..len] == tok;
    var r := ParseArgVal(argBuf[..len], t);
    ok := r.Some?;
    if ok {
      v := r.value;
    }
  }

  /** One round of parseArgs that gets past the count check: take the next
      token and, when it parses, store its value in dest[argIdx]. On success
      the parsed value moves from the remaining text to the stored values. */
  method ParseArgsRound(buf: array<char>, argStart: nat, ghost end: nat, argBuf: array<char>,
                        dest: array<ArgVal>, argIdx: nat, t: ArgType,
                        ghost whole: Result<seq<ArgVal>>, ghost done: seq<ArgVal>,
                        ghost rem: string, ghost ts: seq<ArgType>)
    returns (ok: bool, argEnd: nat, haveNext: bool)
    requires TextAt(buf, argStart, end, rem) && rem != []
    requires argBuf.Length == ARG_BUF_SIZE && argBuf != buf
    requires argIdx < dest.Length && dest[..argIdx] == done
    requires ts != [] && ts[0] == t && whole == Prepend(done, ParseArgs(rem, ts))
    modifies buf, argBuf, dest
    ensures !ok ==> whole == Err(ErrArgFmt)
    ensures ok ==> argStart <= argEnd <= end && (haveNext <==> argEnd < end) && buf[end] == NUL
    ensures ok && haveNext ==> TextAt(buf, argEnd + 1, end, AfterField(rem))
    ensures ok && !haveNext ==> AfterField(rem) == []
    ensures ok ==> dest[..argIdx + 1] == done + [dest[argIdx]]
    ensures ok ==> whole == Prepend(done + [dest[argIdx]], ParseArgs(AfterField(rem), ts[1..]))
  {
    var v;
    argEnd, haveNext, ok, v := TakeArg(buf, argStart, end, argBuf, t);
    if !ok {
      StepFail(whole, done, rem, ts);
      return;
    }
    StepOk(whole, done, rem, ts, v);
    dest[argIdx] := v;
    assert dest[..argIdx + 1] == done + [v];
  }

  /** The state parseArgs keeps between rounds: argStart begins the NUL-terminated
      remaining text rem, the first argIdx values are written, and the result
      for the whole list is the written values followed by what the rest gives. */
  ghost predicate ArgsLoop(buf: array<char>, argStart: nat, end: nat, dest: array<ArgVal>, argIdx: nat,
                           types: seq<ArgType>, whole: Result<seq<ArgVal>>, done: seq<ArgVal>, rem: string)
    reads buf, dest
  {
    TextAt(buf, argStart, end, rem) && (buf[argStart] == NUL <==> rem == []) &&
    argIdx <= |types| <= dest.Length && dest[..argIdx] == done &&
    whole == Prepend(done, ParseArgs(rem, types[argIdx..]))
  }

  /** One pass of the parseArgs loop over a non-empty remaining list: the count
      check, then one round. On success the loop state moves on by one value;
      more is false when the token was the last one. */
  method ParseArgsNext(buf: array<char>, argStart: nat, ghost end: nat, argBuf: array<char>,
                       dest: array<ArgVal>, argIdx: nat, types: seq<ArgType>,
                       ghost whole: Result<seq<ArgVal>>, ghost done: seq<ArgVal>, ghost rem: string)
    returns (err: ParseError, more: bool, nextStart: nat, ghost done': seq<ArgVal>, ghost rem': string)
    requires ArgsLoop(buf, argStart, end, dest, argIdx, types, whole, done, rem) && rem != []
    requires argBuf.Length == ARG_BUF_SIZE && argBuf != buf
    modifies buf, argBuf, dest
    ensures err != NoError ==> whole == Err(err)
    ensures err == NoError ==> ArgsLoop(buf, nextStart, end, dest, argIdx + 1, types, whole, done', rem')
    ensures err == NoError && more ==> argStart < nextStart
    ensures err == NoError && !more ==> rem' == []
  {
    done', rem', nextStart, more := done, rem, argStart, false;
    if argIdx >= |types| {
      return ErrNArgs, false, argStart, done, rem;
    }
    var ok, argEnd;
    ok, argEnd, more := ParseArgsRound(buf, argStart, end, argBuf, dest, argIdx, types[argIdx],
                                       whole, done, rem, types[argIdx..]);
    if !ok {
      return ErrArgFmt, false, argStart, done, rem;
    }
    assert types[argIdx..][1..] == types[argIdx + 1..];
    done' := done + [dest[argIdx]];
    rem' := AfterField(rem);
    nextStart := if more then argEnd + 1 else argEnd;
    NulAtEnd(buf, nextStart, end, rem');
    err := NoError;
  }

  /** parseArgs: walks the NUL-terminated list buf[start..end], cutting it in
      place at each ',' and parsing each token into dest. Returns the code
      ParseArgs gives for the original text; on success dest holds its values. */
  method ParseArgsIn(buf: array<char>, start: nat, ghost end: nat, dest: array<ArgVal>, types: seq<ArgType>)
    returns (err: ParseError)
    requires IsText(buf, start, end)
    requires |types| <= dest.Length
    modifies buf, dest
    ensures var r := ParseArgs(old(buf[start..end]), types);
            (r.Ok? ==> err == NoError && dest[..|types|] == r.value) &&
            (r.Err? ==> err == r.error)
  {
    var argBuf := new char[ARG_BUF_SIZE](_ => NUL);
    ghost var rem := buf[start..end];
    ghost var whole := ParseArgs(rem, types);
    ghost var done: seq<ArgVal> := [];
    var argIdx := 0;
    var argStart := start;
    if whole.Ok? {
      assert [] + whole.value == whole.value;
    }
    NulAtEnd(buf, argStart, end, rem);
    while buf[argStart] != NUL
      invariant ArgsLoop(buf, argStart, end, dest, argIdx, types, whole, done, rem)
      decreases end - argStart
    {
      var more, nextStart;
      err, more, nextStart, done, rem := ParseArgsNext(buf, argStart, end, argBuf, dest, argIdx, types,
                                                       whole, done, rem);
      if err != NoError {
        return;
      }
      argIdx := argIdx + 1;
      argStart := nextStart;
      if !more {
        break;
      }
    }
    if argIdx != |types| {
      return ErrNArgs;
    }
    assert done + [] == done;
    return NoError;
  }

  /** getCommandSpec: scans the registry in order, copying each entry into
      dest and stopping at the first whose mnemonic matches on its first 16
      characters and whose shape is equal. dest is left holding the last
      entry copied: the match, or the final entry when there is none, and
      untouched (None) for an empty registry. */
  method GetCommandSpec(reg: seq<CmdSpec>, mnem: string, t: CmdType) returns (idx: int, dest: Option<CmdSpec>)
    ensures idx == FindSpec(reg, mnem, t)
    ensures idx >= 0 ==> dest == Some(reg[idx])
    ensures idx < 0 && reg != [] ==> dest == Some(reg[|reg| - 1])
    ensures reg == [] ==> dest == None
  {
    dest := None;
    var i := 0;
    while i < |reg|
      invariant i <= |reg|
      invariant forall j :: 0 <= j < i ==> !SpecMatches(reg[j], mnem, t)
      invariant i == 0 ==> dest == None
      invariant i > 0 ==> dest == Some(reg[i - 1])
    {
      dest := Some(reg[i]);
      if StrnEq(mnem, dest.value.mnem, MNEM_MAX_LEN) && dest.value.cmdType == t {
        return i, dest;
      }
      i := i + 1;
    }
    return -1, dest;
  }

  /** One argument list of getCommand: parseArgs when the list is present,
      else N_ARGS when the entry expects arguments there. */
  method ArgListIn(buf: array<char>, start: nat, ghost end: nat, present: bool, dest: array<ArgVal>,
                   types: seq<ArgType>, ghost text: string)
    returns (error: ParseError)
    requires present ==> TextAt(buf, start, end, text)
    requires |types| <= dest.Length
    modifies buf, dest
    ensures var r := ArgList(present, text, types);
            (r.Ok? ==> error == NoError && dest[..|types|] == r.value) &&
            (r.Err? ==> error == r.error)
  {
    error := NoError;
    if present {
      error := ParseArgsIn(buf, start, end, dest, types);
    } else if |types| > 0 {
      error := ErrNArgs;
    }
  }

  /** The argument lists of getCommand, left first: the left list is parsed
      when the line had a ':', the right list when the right side is
      non-empty, and the right list is not looked at after a left error. The
      destination arrays are sized as in the firmware's command record, where
      the right list is also sized by MAX_N_LEFTARGS. */
  method ParseLists(leftBuf: array<char>, leftStart: nat, ghost leftEnd: nat, haveLeftArgs: bool,
                    rightBuf: array<char>, ghost rightLen: nat, spec: CmdSpec, ghost line: string)
    returns (error: ParseError, leftArgs: seq<ArgVal>, rightArgs: seq<ArgVal>)
    requires leftBuf != rightBuf && SpecFits(spec)
    requires haveLeftArgs <==> HasLeftArgs(line)
    requires haveLeftArgs ==> TextAt(leftBuf, leftStart, leftEnd, LeftArgText(line))
    requires TextAt(rightBuf, 0, rightLen, RightSide(line))
    modifies leftBuf, rightBuf
    ensures var l := LeftArgs(line, spec);
            var r := RightArgs(line, spec);
            (l.Err? ==> error == l.error) &&
            (l.Ok? && r.Err? ==> error == r.error) &&
            (l.Ok? && r.Ok? ==> error == NoError && leftArgs == l.value && rightArgs == r.value)
  {
    var leftDest := new ArgVal[MAX_N_LEFTARGS](_ => UInt8Val(0));
    var rightDest := new ArgVal[MAX_N_LEFTARGS](_ => UInt8Val(0));
    leftArgs, rightArgs := [], [];
    error := ArgListIn(leftBuf, leftStart, leftEnd, haveLeftArgs, leftDest,
                       spec.leftArgTypes, LeftArgText(line));
    if error != NoError {
      return;
    }
    leftArgs := leftDest[..|spec.leftArgTypes|];
    var rightStrLen := StrLen(rightBuf, 0, rightLen);
    error := ArgListIn(rightBuf, 0, rightLen, rightStrLen > 0, rightDest,
                       spec.rightArgTypes, RightSide(line));
    rightArgs := rightDest[..|spec.rightArgTypes|];
  }

  /** Split the mnemonic off the left side at its first ':' (or its end),
      cutting the buffer there with a NUL. haveLeftArgs tells whether a ':'
      was found; the left argument list then follows the cut. */
  method SplitMnemonic(leftBuf: array<char>, ghost leftEnd: nat, ghost line: string)
    returns (mnemEnd: nat, haveLeftArgs: bool)
    requires TextAt(leftBuf, 0, leftEnd, LeftSide(line))
    modifies leftBuf
    ensures haveLeftArgs <==> HasLeftArgs(line)
    ensures TextAt(leftBuf, 0, mnemEnd, Mnemonic(line))
    ensures haveLeftArgs ==> TextAt(leftBuf, mnemEnd + 1, leftEnd, LeftArgText(line))
  {
    ghost var left := LeftSide(line);
    mnemEnd := StrChr(leftBuf, 0, leftEnd, LEFTARGS_START_CH);
    haveLeftArgs := leftBuf[mnemEnd] == LEFTARGS_START_CH;
    if !haveLeftArgs {
      mnemEnd := StrLen(leftBuf, 0, leftEnd);
    }
    FirstIndexFirst(left, LEFTARGS_START_CH);
    leftBuf[mnemEnd] := NUL;
    assert leftBuf[..mnemEnd] == Mnemonic(line);
    if haveLeftArgs {
      assert leftBuf[mnemEnd + 1..leftEnd] == LeftArgText(line);
      assert NUL !in LeftArgText(line) by {
        forall i | 0 <= i < |LeftArgText(line)| ensures LeftArgText(line)[i] != NUL {
          assert LeftArgText(line)[i] == left[mnemEnd + 1 + i];
        }
      }
    }
    assert NUL !in Mnemonic(line) by {
      forall i | 0 <= i < mnemEnd ensures Mnemonic(line)[i] != NUL {
        assert Mnemonic(line)[i] == left[i];
      }
    }
  }

  /** The second half of cmdproc__getCommand, once the two sides of the line
      sit NUL-terminated in leftBuf and rightBuf: split off the mnemonic,
      check its length, look it up, then parse the left list and the right
      list, the first error winning. */
  method ParseSides(leftBuf: array<char>, ghost leftEnd: nat, rightBuf: array<char>, ghost rightLen: nat,
                    t: CmdType, reg: seq<CmdSpec>, ghost line: string)
    returns (cmd: Command)
    requires leftBuf != rightBuf && RegistryFits(reg)
    requires TextAt(leftBuf, 0, leftEnd, LeftSide(line)) && TextAt(rightBuf, 0, rightLen, RightSide(line))
    requires t == ShapeOf(line)
    modifies leftBuf, rightBuf
    ensures cmd == Parse(line, reg)
  {
    var mnemEnd, haveLeftArgs := SplitMnemonic(leftBuf, leftEnd, line);
    var mnemLen := StrLen(leftBuf, 0, mnemEnd);
    if mnemLen > MNEM_MAX_LEN {
      return Command(t, [], [], [], ErrCmd);
    }
    var mnem := leftBuf[..mnemLen];
    var idx, spec := GetCommandSpec(reg, mnem, t);
    if idx < 0 {
      return Command(t, mnem, [], [], ErrCmd);
    }
    assert SpecFits(reg[idx]);
    var error, leftArgs, rightArgs := ParseLists(leftBuf, mnemEnd + 1, leftEnd, haveLeftArgs,
                                                 rightBuf, rightLen, spec.value, line);
    if error != NoError {
      return Command(t, mnem, [], [], error);
    }
    cmd := Command(t, mnem, leftArgs, rightArgs, NoError);
  }

  /** The firmware's line buffer and ready flag (module-level state in C). */
  class CommandProcessor {
    const inputBuffer: array<char>
    var inputNBytes: nat
    var commandReady: bool

    /** At most INPUT_BUF_SIZE - 1 bytes are kept, none of them NUL, and a
        ready line is NUL-terminated in place. */
    ghost predicate Valid()
      reads this, inputBuffer
    {
      inputBuffer.Length == INPUT_BUF_SIZE && inputNBytes < INPUT_BUF_SIZE &&
      NUL !in inputBuffer[..inputNBytes] &&
      (commandReady ==> inputBuffer[inputNBytes] == NUL)
    }

    /** The abstract accumulator state the buffer represents. */
    ghost function State(): LineState
      requires Valid()
      reads this, inputBuffer
    {
      LineState(inputBuffer[..inputNBytes], commandReady)
    }

    /** Static storage: a zero-filled buffer, no bytes kept, not ready. */
    constructor ()
      ensures Valid() && State() == EmptyLine && fresh(inputBuffer)
    {
      inputBuffer := new char[INPUT_BUF_SIZE](_ => NUL);
      inputNBytes := 0;
      commandReady := false;
    }

    /** cmdproc__init: forget any kept bytes and any pending line. */
    method Init()
      requires inputBuffer.Length == INPUT_BUF_SIZE
      modifies this
      ensures Valid() && State() == EmptyLine
    {
      inputNBytes := 0;
      commandReady := false;
    }

    /** cmdproc__processIncomingChar: one byte into the accumulator. */
    method ProcessIncomingChar(ch: char)
      requires Valid()
      modifies this, inputBuffer
      ensures Valid() && State() == Accumulate(old(State()), ch)
    {
      if ch == NUL || IsIgnored(ch) || commandReady {
        return;
      } else if ch == LINE_TERMINATOR {
        inputBuffer[inputNBytes] := NUL;
        commandReady := true;
      } else if inputNBytes >= INPUT_BUF_SIZE - 1 {
      } else {
        inputBuffer[inputNBytes] := ch;
        inputNBytes := inputNBytes + 1;
      }
    }

    /** cmdproc__hasCommandWaiting. */
    method HasCommandWaiting() returns (r: bool)
      requires Valid()
      ensures r == State().ready
    {
      return commandReady;
    }

    /** Where cmdproc__getCommand cuts the line: at the first '?', else at
        the first '=', else at its end, together with the shape this gives. */
    method FindOperator() returns (t: CmdType, leftEnd: nat)
      requires Valid() && commandReady
      ensures t == ShapeOf(inputBuffer[..inputNBytes])
      ensures leftEnd == LeftEnd(inputBuffer[..inputNBytes])
    {
      ghost var line := inputBuffer[..inputNBytes];
      leftEnd := StrChr(inputBuffer, 0, inputNBytes, QUERY_OP_CH);
      if inputBuffer[leftEnd] == QUERY_OP_CH {
        t := Query;
      } else {
        leftEnd := StrChr(inputBuffer, 0, inputNBytes, SET_OP_CH);
        if inputBuffer[leftEnd] == SET_OP_CH {
          t := Set;
        } else {
          t := Do;
          leftEnd := inputNBytes;
        }
      }
    }

    /** The first half of cmdproc__getCommand: cut the line at the operator
        with a NUL and copy the two sides into fresh zero-filled buffers. */
    method SplitLine() returns (t: CmdType, leftBuf: array<char>, rightBuf: array<char>, ghost rightLen: nat)
      requires Valid() && commandReady
      modifies inputBuffer
      ensures fresh(leftBuf) && fresh(rightBuf) && leftBuf != rightBuf
      ensures var line := old(inputBuffer[..inputNBytes]);
              t == ShapeOf(line) &&
              TextAt(leftBuf, 0, LeftEnd(line), LeftSide(line)) &&
              TextAt(rightBuf, 0, rightLen, RightSide(line))
    {
      ghost var line := inputBuffer[..inputNBytes];
      var leftEnd;
      t, leftEnd := FindOperator();
      inputBuffer[leftEnd] := NUL;
      leftBuf := new char[INPUT_BUF_SIZE](_ => NUL);
      rightBuf := new char[INPUT_BUF_SIZE](_ => NUL);
      assert inputBuffer[..leftEnd] == line[..leftEnd] == LeftSide(line);
      assert NUL !in LeftSide(line);
      StrCpy(leftBuf, inputBuffer, 0, leftEnd);
      if leftEnd < inputNBytes {
        assert inputBuffer[leftEnd + 1..inputNBytes] == line[leftEnd + 1..] == RightSide(line);
        assert NUL !in RightSide(line);
        StrCpy(rightBuf, inputBuffer, leftEnd + 1, inputNBytes);
        rightLen := inputNBytes - leftEnd - 1;
      } else {
        rightLen := 0;
      }
    }

    /** cmdproc__getCommand on a ready line: the parsed record, its error code
        returned separately, and the accumulator re-armed whatever the outcome. */
    method GetCommand(reg: seq<CmdSpec>) returns (cmd: Command, err: ParseError)
      requires Valid() && commandReady && RegistryFits(reg)
      modifies this, inputBuffer
      ensures cmd == Parse(old(State()).text, reg) && err == cmd.parseError
      ensures Valid() && State() == EmptyLine
    {
      ghost var line := inputBuffer[..inputNBytes];
      var t, leftBuf, rightBuf, rightLen := SplitLine();
      cmd := ParseSides(leftBuf, LeftEnd(line), rightBuf, rightLen, t, reg, line);
      err := cmd.parseError;
      inputNBytes := 0;
      commandReady := false;
    }
  }
}
