/** The host side of the board's line protocol, as both Python drivers
    (driver/uxibxx/_driver.py and its older near-duplicate driver/fbibxx.py)
    speak it. The serial port is a log of written text plus a queue of the
    lines readline() will return; a Python exception is an Err outcome.
    Every operation is a function from the port state before to the
    outcome and the port state after; the driver classes are proved to
    follow these functions. */
module DriverProtocol {
  import opened Wrappers
  import opened PyText

  /** IoDirection: a terminal acts as an input or as an output. */
  datatype IoDirection = Input | Output

  /** The direction argument of set_direction: an IoDirection member or
      the string value of one ("in" or "out"). */
  datatype DirectionArg = Member(direction: IoDirection) | Literal(text: string)

  /** The exceptions the drivers raise. ValueError stands for the errors
      Python itself raises on a malformed reply: int() of a non-number and
      unpacking an IDN reply that does not have two fields. */
  datatype DriverError =
    | ResponseTimeout
    | RemoteError(response: string)
    | BadResponse(response: string)
    | IdMismatch(field: string, expected: string, actual: string)
    | InvalidTerminalNo(terminal: int)
    | Unsupported(terminal: int)
    | ValueError(text: string)

  /** A return value or a raised exception. */
  datatype Outcome<T> = Ok(value: T) | Err(error: DriverError)

  /** The serial port: everything written to it so far, and the lines
      readline() will return next. A line that does not end in a line feed
      is what readline() returns when the timeout expires first. */
  datatype PortState = PortState(written: string, replies: seq<string>)

  /** The outcome of an exchange and the port state after it. */
  datatype Exchange<T> = Exchange(outcome: Outcome<T>, port: PortState)

  /** The line readline() returns: the next queued line, or nothing when
      no reply arrives before the timeout. */
  function NextLine(p: PortState): string {
    if |p.replies| == 0 then "" else p.replies[0]
  }

  /** The port after readline(). */
  function Consume(p: PortState): PortState {
    p.(replies := if |p.replies| == 0 then [] else p.replies[1..])
  }

  /** The port after write(text). */
  function Send(p: PortState, text: string): PortState {
    p.(written := p.written + text)
  }

  /** _read_response. */
  function ReadResponse(p: PortState): Exchange<string> {
    var line := NextLine(p);
    if !EndsWith(line, "\n") then Exchange(Err(ResponseTimeout), Consume(p))
    else
      var response := Strip(line);
      if StartsWith(response, "ERROR") then Exchange(Err(RemoteError(response)), Consume(p))
      else Exchange(Ok(response), Consume(p))
  }

  /** _read_response reads exactly one line and writes nothing. A line
      without a final line feed is a timeout; a line whose stripped text
      starts with "ERROR" is a remote error carrying that text; any other
      line is returned stripped. */
  lemma ReadResponseOutcomes(p: PortState)
    ensures ReadResponse(p).port == Consume(p)
    ensures ReadResponse(p).outcome == Err(ResponseTimeout) <==> !EndsWith(NextLine(p), "\n")
    ensures ReadResponse(p).outcome.Ok? <==>
              EndsWith(NextLine(p), "\n") && !StartsWith(Strip(NextLine(p)), "ERROR")
    ensures ReadResponse(p).outcome.Ok? ==>
              ReadResponse(p).outcome.value == Strip(NextLine(p)) &&
              Strip(ReadResponse(p).outcome.value) == ReadResponse(p).outcome.value
    ensures ReadResponse(p).outcome.Err? && ReadResponse(p).outcome.error.RemoteError? ==>
              StartsWith(ReadResponse(p).outcome.error.response, "ERROR")
    ensures ReadResponse(p).outcome.Err? ==>
              ReadResponse(p).outcome.error.ResponseTimeout? || ReadResponse(p).outcome.error.RemoteError?
  {
    StripIdempotent(NextLine(p));
  }

  /** _ask: write the query cmd + "?\r", read the reply, and return the
      text after its last "=". */
  function Ask(p: PortState, cmd: string): Exchange<string> {
    var x := ReadResponse(Send(p, cmd + "?\r"));
    match x.outcome
    case Err(e) => x
    case Ok(response) =>
      if '=' !in response then Exchange(Err(BadResponse(response)), x.port)
      else Exchange(Ok(AfterLast(response, '=')), x.port)
  }

  /** _ask writes exactly cmd + "?\r" and reads one line. */
  lemma AskWrites(p: PortState, cmd: string)
    ensures Ask(p, cmd).port == Consume(Send(p, cmd + "?\r"))
  {
  }

  /** _ask writes exactly cmd + "?\r" and consumes one reply line whatever
      the outcome. It answers exactly when the reply is a valid response
      holding an "="; the answer is what follows the last "=", so the
      response is some text, "=", and the answer. A valid response
      without "=" is a BadResponse carrying it. */
  lemma AskTraffic(p: PortState, cmd: string)
    ensures Ask(p, cmd).port == Consume(Send(p, cmd + "?\r"))
    ensures Ask(p, cmd).port.written == p.written + cmd + "?\r"
    ensures var r := ReadResponse(Send(p, cmd + "?\r")).outcome;
            (Ask(p, cmd).outcome.Ok? <==> r.Ok? && '=' in r.value) &&
            (Ask(p, cmd).outcome.Ok? ==>
               '=' !in Ask(p, cmd).outcome.value &&
               exists k :: 0 <= k < |r.value| && r.value == r.value[..k] + "=" + Ask(p, cmd).outcome.value) &&
            (r.Ok? && '=' !in r.value ==> Ask(p, cmd).outcome == Err(BadResponse(r.value)))
  {
    var r := ReadResponse(Send(p, cmd + "?\r")).outcome;
    if r.Ok? && '=' in r.value {
      var a := AfterLast(r.value, '=');
      AfterLastSplits(r.value, '=');
      var k := |r.value| - |a| - 1;
      assert r.value == r.value[..k] + "=" + a;
    }
  }

  /** _tell: write the command cmd + "\r" and accept only the reply "OK". */
  function Tell(p: PortState, cmd: string): Exchange<()> {
    var x := ReadResponse(Send(p, cmd + "\r"));
    match x.outcome
    case Err(e) => Exchange(Err(e), x.port)
    case Ok(response) =>
      if response != "OK" then Exchange(Err(BadResponse(response)), x.port)
      else Exchange(Ok(()), x.port)
  }

  /** _tell writes exactly cmd + "\r", consumes one reply line, and
      succeeds exactly when that line ends in a line feed and strips to
      "OK". */
  lemma TellTraffic(p: PortState, cmd: string)
    ensures Tell(p, cmd).port == Consume(Send(p, cmd + "\r"))
    ensures Tell(p, cmd).port.written == p.written + cmd + "\r"
    ensures Tell(p, cmd).outcome.Ok? <==>
              EndsWith(NextLine(Send(p, cmd + "\r")), "\n") && Strip(NextLine(Send(p, cmd + "\r"))) == "OK"
  {
  }

  /** The terminal capabilities dict, as its (terminal, capability string)
      items in insertion order. */
  type Capabilities = seq<(int, string)>

  /** A dict's keys are distinct. */
  predicate DistinctKeys(caps: Capabilities) {
    |caps| == 0 || (caps[0].0 !in Keys(caps[1..]) && DistinctKeys(caps[1..]))
  }

  /** terminal_nos: the keys in insertion order. */
  function Keys(caps: Capabilities): (ks: seq<int>)
    ensures |ks| == |caps| && forall i :: 0 <= i < |caps| ==> ks[i] == caps[i].0
  {
    if |caps| == 0 then [] else [caps[0].0] + Keys(caps[1..])
  }

  /** caps.get(n). */
  function Lookup(caps: Capabilities, n: int): (r: Option<string>)
    ensures r.None? <==> n !in Keys(caps)
  {
    if |caps| == 0 then None
    else if caps[0].0 == n then Some(caps[0].1)
    else Lookup(caps[1..], n)
  }

  /** caps[k] = v: a new key goes at the end, an existing one keeps its
      place and takes the new value. */
  function DictSet(caps: Capabilities, k: int, v: string): Capabilities {
    if |caps| == 0 then [(k, v)]
    else if caps[0].0 == k then [(k, v)] + caps[1..]
    else [caps[0]] + DictSet(caps[1..], k, v)
  }

  /** Setting k to v appends k to the keys unless it is there already. */
  lemma {:induction false} DictSetKeys(caps: Capabilities, k: int, v: string)
    ensures Keys(DictSet(caps, k, v)) == if k in Keys(caps) then Keys(caps) else Keys(caps) + [k]
    decreases |caps|
  {
    if |caps| > 0 {
      var r := DictSet(caps, k, v);
      assert Keys(caps) == [caps[0].0] + Keys(caps[1..]);
      assert Keys(r) == [r[0].0] + Keys(r[1..]);
      if caps[0].0 != k {
        DictSetKeys(caps[1..], k, v);
        assert r[1..] == DictSet(caps[1..], k, v);
      } else {
        assert r[1..] == caps[1..];
      }
    }
  }

  /** Setting k to v makes k map to v and leaves every other key's value
      alone. */
  lemma {:induction false} DictSetLookup(caps: Capabilities, k: int, v: string, j: int)
    ensures Lookup(DictSet(caps, k, v), j) == if j == k then Some(v) else Lookup(caps, j)
    decreases |caps|
  {
    if |caps| > 0 && caps[0].0 != k {
      var r := DictSet(caps, k, v);
      assert r[1..] == DictSet(caps[1..], k, v);
      DictSetLookup(caps[1..], k, v, j);
    }
  }

  /** Setting an item keeps the keys distinct. */
  lemma {:induction false} DictSetDistinct(caps: Capabilities, k: int, v: string)
    requires DistinctKeys(caps)
    ensures DistinctKeys(DictSet(caps, k, v))
    decreases |caps|
  {
    if |caps| > 0 && caps[0].0 != k {
      DictSetDistinct(caps[1..], k, v);
      DictSetKeys(caps[1..], k, v);
      var r := DictSet(caps, k, v);
      assert r[1..] == DictSet(caps[1..], k, v);
    } else if |caps| > 0 {
      assert DictSet(caps, k, v)[1..] == caps[1..];
    }
  }

  /** The keys whose capability string contains c, in key order. */
  function WithCapability(caps: Capabilities, c: char): (ns: seq<int>)
    ensures forall n :: n in ns ==> n in Keys(caps)
  {
    if |caps| == 0 then []
    else if c in caps[0].1 then [caps[0].0] + WithCapability(caps[1..], c)
    else WithCapability(caps[1..], c)
  }

  /** input_nos. */
  function InputNos(caps: Capabilities): seq<int> {
    WithCapability(caps, 'I')
  }

  /** output_nos. */
  function OutputNos(caps: Capabilities): seq<int> {
    WithCapability(caps, 'O')
  }

  /** xs is xs' elements taken from ys in order. */
  predicate IsSubsequence(xs: seq<int>, ys: seq<int>) {
    if |xs| == 0 then true
    else if |ys| == 0 then false
    else if xs[0] == ys[0] then IsSubsequence(xs[1..], ys[1..])
    else IsSubsequence(xs, ys[1..])
  }

  /** input_nos and output_nos list exactly the terminals whose
      capability string holds "I" (respectively "O"), each once, in the
      order of terminal_nos. */
  lemma {:induction false} WithCapabilityFilters(caps: Capabilities, c: char, n: int)
    requires DistinctKeys(caps)
    ensures n in WithCapability(caps, c) <==> Lookup(caps, n).Some? && c in Lookup(caps, n).value
    ensures IsSubsequence(WithCapability(caps, c), Keys(caps))
    ensures |WithCapability(caps, c)| <= |caps|
    decreases |caps|
  {
    if |caps| > 0 {
      var rest := caps[1..];
      WithCapabilityFilters(rest, c, n);
      var ws := WithCapability(caps, c);
      var ks := Keys(caps);
      assert ks[1..] == Keys(rest);
      if c in caps[0].1 {
        assert ws[1..] == WithCapability(rest, c);
      } else if |ws| > 0 {
        assert ws[0] in Keys(rest);
        assert ws[0] != ks[0];
      }
    }
  }

  /** _check_output_ok. */
  function CheckOutputOk(caps: Capabilities, n: int): Option<DriverError> {
    if n !in Keys(caps) then Some(InvalidTerminalNo(n))
    else if n !in OutputNos(caps) then Some(Unsupported(n))
    else None
  }

  /** _check_input_ok, also written out inline at the head of
      get_input. */
  function CheckInputOk(caps: Capabilities, n: int): Option<DriverError> {
    if n !in Keys(caps) then Some(InvalidTerminalNo(n))
    else if n !in InputNos(caps) then Some(Unsupported(n))
    else None
  }

  /** _check_dirchange_ok. */
  function CheckDirchangeOk(caps: Capabilities, n: int): Option<DriverError> {
    if n !in Keys(caps) then Some(InvalidTerminalNo(n))
    else if n !in InputNos(caps) || n !in OutputNos(caps) then Some(Unsupported(n))
    else None
  }

  /** An unknown terminal is InvalidTerminalNo before any capability is
      looked at; a known terminal passes a check exactly when its
      capability string holds the letters the check asks for, and fails
      it with Unsupported otherwise. */
  lemma CheckOutcomes(caps: Capabilities, n: int)
    requires DistinctKeys(caps)
    ensures n !in Keys(caps) ==>
              CheckOutputOk(caps, n) == CheckInputOk(caps, n) == CheckDirchangeOk(caps, n) == Some(InvalidTerminalNo(n))
    ensures n in Keys(caps) ==>
              var c := Lookup(caps, n).value;
              CheckOutputOk(caps, n) == (if 'O' in c then None else Some(Unsupported(n))) &&
              CheckInputOk(caps, n) == (if 'I' in c then None else Some(Unsupported(n))) &&
              CheckDirchangeOk(caps, n) == (if 'I' in c && 'O' in c then None else Some(Unsupported(n)))
  {
    WithCapabilityFilters(caps, 'I', n);
    WithCapabilityFilters(caps, 'O', n);
  }

  /** bool(int(answer)): a non-number is a ValueError. */
  function AnswerBool(x: Exchange<string>): Exchange<bool> {
    match x.outcome
    case Err(e) => Exchange(Err(e), x.port)
    case Ok(answer) =>
      match ParseInt(answer)
      case None => Exchange(Err(ValueError(answer)), x.port)
      case Some(v) => Exchange(Ok(v != 0), x.port)
  }

  /** get_input. */
  function GetInput(caps: Capabilities, p: PortState, n: int): Exchange<bool> {
    match CheckInputOk(caps, n)
    case Some(e) => Exchange(Err(e), p)
    case None => AnswerBool(Ask(p, "INP:" + IntText(n)))
  }

  /** get_output. */
  function GetOutput(caps: Capabilities, p: PortState, n: int): Exchange<bool> {
    match CheckOutputOk(caps, n)
    case Some(e) => Exchange(Err(e), p)
    case None => AnswerBool(Ask(p, "OUT:" + IntText(n)))
  }

  /** The digit int(bool(on)) writes for an int or bool argument. */
  function OnDigit(on: int): string {
    if on != 0 then "1" else "0"
  }

  /** set_output. */
  function SetOutput(caps: Capabilities, p: PortState, n: int, on: int): Exchange<()> {
    match CheckOutputOk(caps, n)
    case Some(e) => Exchange(Err(e), p)
    case None => Tell(p, "OUT:" + IntText(n) + "=" + OnDigit(on))
  }

  /** _direction_codes read from code to direction. */
  function DirectionFromCode(code: int): Option<IoDirection> {
    if code == 0 then Some(Input) else if code == 1 then Some(Output) else None
  }

  /** _direction_codes read from direction to code. */
  function DirectionCode(d: IoDirection): int {
    match d
    case Input => 0
    case Output => 1
  }

  /** The two readings of _direction_codes are inverse bijections
      between {0, 1} and the two directions. */
  lemma DirectionCodesBijective(code: int, d: IoDirection)
    ensures DirectionFromCode(DirectionCode(d)) == Some(d)
    ensures DirectionFromCode(code) == Some(d) <==> code == DirectionCode(d)
    ensures DirectionFromCode(code).Some? <==> code == 0 || code == 1
  {
  }

  /** IoDirection(direction): a member is itself, a string names a
      member by its value, anything else is a ValueError. */
  function DirectionOf(arg: DirectionArg): Option<IoDirection> {
    match arg
    case Member(d) => Some(d)
    case Literal(text) =>
      if text == "in" then Some(Input) else if text == "out" then Some(Output) else None
  }

  /** get_direction: a reply that is not an integer or not a known code
      is a BadResponse carrying the answer. */
  function GetDirection(caps: Capabilities, p: PortState, n: int): Exchange<IoDirection> {
    if n !in Keys(caps) then Exchange(Err(InvalidTerminalNo(n)), p)
    else
      var x := Ask(p, "DIR:" + IntText(n));
      match x.outcome
      case Err(e) => Exchange(Err(e), x.port)
      case Ok(answer) =>
        match ParseInt(answer)
        case None => Exchange(Err(BadResponse(answer)), x.port)
        case Some(code) =>
          match DirectionFromCode(code)
          case None => Exchange(Err(BadResponse(answer)), x.port)
          case Some(d) => Exchange(Ok(d), x.port)
  }

  /** set_direction: the capability check comes before the argument is
      converted. */
  function SetDirection(caps: Capabilities, p: PortState, n: int, arg: DirectionArg): Exchange<()> {
    match CheckDirchangeOk(caps, n)
    case Some(e) => Exchange(Err(e), p)
    case None =>
      match DirectionOf(arg)
      case None => Exchange(Err(ValueError(if arg.Literal? then arg.text else "")), p)
      case Some(d) => Tell(p, "DIR:" + IntText(n) + "=" + IntText(DirectionCode(d)))
  }

  /** A failing check raises its error with the port untouched: nothing
      is written and no reply is read. */
  lemma FailedCheckTouchesNothing(caps: Capabilities, p: PortState, n: int, on: int, arg: DirectionArg)
    ensures CheckInputOk(caps, n).Some? ==> GetInput(caps, p, n) == Exchange(Err(CheckInputOk(caps, n).value), p)
    ensures CheckOutputOk(caps, n).Some? ==>
              GetOutput(caps, p, n) == Exchange(Err(CheckOutputOk(caps, n).value), p) &&
              SetOutput(caps, p, n, on) == Exchange(Err(CheckOutputOk(caps, n).value), p)
    ensures n !in Keys(caps) ==> GetDirection(caps, p, n) == Exchange(Err(InvalidTerminalNo(n)), p)
    ensures CheckDirchangeOk(caps, n).Some? ==>
              SetDirection(caps, p, n, arg) == Exchange(Err(CheckDirchangeOk(caps, n).value), p)
  {
  }

  /** Past its check, set_output writes exactly "OUT:<n>=1\r" when on is
      non-zero and "OUT:<n>=0\r" otherwise, and succeeds exactly when the
      board answers "OK". */
  lemma SetOutputLine(caps: Capabilities, p: PortState, n: int, on: int)
    requires CheckOutputOk(caps, n).None?
    ensures SetOutput(caps, p, n, on).port.written ==
              p.written + "OUT:" + IntText(n) + "=" + (if on != 0 then "1" else "0") + "\r"
    ensures SetOutput(caps, p, n, on).port.replies == Consume(p).replies
    ensures SetOutput(caps, p, n, on).outcome.Ok? <==> EndsWith(NextLine(p), "\n") && Strip(NextLine(p)) == "OK"
  {
    TellTraffic(p, "OUT:" + IntText(n) + "=" + OnDigit(on));
  }

  /** bool(int(answer)) leaves the port as the exchange left it and
      succeeds exactly on an integer answer, true when it is non-zero. */
  lemma AnswerBoolOutcome(x: Exchange<string>)
    ensures AnswerBool(x).port == x.port
    ensures AnswerBool(x).outcome.Ok? <==> x.outcome.Ok? && ParseInt(x.outcome.value).Some?
    ensures AnswerBool(x).outcome.Ok? ==> AnswerBool(x).outcome.value == (ParseInt(x.outcome.value).value != 0)
  {
  }

  /** Past its check, get_output asks "OUT:<n>?\r" and reports whether
      the answer is a non-zero integer. */
  lemma GetOutputLine(caps: Capabilities, p: PortState, n: int)
    requires CheckOutputOk(caps, n).None?
    ensures GetOutput(caps, p, n) == AnswerBool(Ask(p, "OUT:" + IntText(n)))
    ensures GetOutput(caps, p, n).port.written == p.written + "OUT:" + IntText(n) + "?\r"
  {
    AskWrites(p, "OUT:" + IntText(n));
    AnswerBoolOutcome(Ask(p, "OUT:" + IntText(n)));
  }

  /** Past its check, get_input asks "INP:<n>?\r" and reports whether
      the answer is a non-zero integer. */
  lemma GetInputLine(caps: Capabilities, p: PortState, n: int)
    requires CheckInputOk(caps, n).None?
    ensures GetInput(caps, p, n) == AnswerBool(Ask(p, "INP:" + IntText(n)))
    ensures GetInput(caps, p, n).port.written == p.written + "INP:" + IntText(n) + "?\r"
  {
    AskWrites(p, "INP:" + IntText(n));
    AnswerBoolOutcome(Ask(p, "INP:" + IntText(n)));
  }

  /** get_direction returns a direction d exactly when the answer is an
      integer equal to d's code; every other answer is a BadResponse. */
  lemma GetDirectionResult(caps: Capabilities, p: PortState, n: int, d: IoDirection)
    requires n in Keys(caps)
    ensures GetDirection(caps, p, n).port.written == p.written + "DIR:" + IntText(n) + "?\r"
    ensures var a := Ask(p, "DIR:" + IntText(n)).outcome;
            (GetDirection(caps, p, n).outcome == Ok(d) <==> a.Ok? && ParseInt(a.value) == Some(DirectionCode(d))) &&
            (a.Ok? && (ParseInt(a.value).None? || DirectionFromCode(ParseInt(a.value).value).None?) ==>
               GetDirection(caps, p, n).outcome == Err(BadResponse(a.value)))
  {
    AskWrites(p, "DIR:" + IntText(n));
    var a := Ask(p, "DIR:" + IntText(n)).outcome;
    if a.Ok? && ParseInt(a.value).Some? {
      DirectionCodesBijective(ParseInt(a.value).value, d);
    }
  }

  /** Past its check, set_direction writes "DIR:<n>=<code>\r" with the
      requested direction's code; a string that names no direction is a
      ValueError raised before anything is written. */
  lemma SetDirectionLine(caps: Capabilities, p: PortState, n: int, arg: DirectionArg)
    requires CheckDirchangeOk(caps, n).None?
    ensures DirectionOf(arg).None? ==>
              SetDirection(caps, p, n, arg).port == p && SetDirection(caps, p, n, arg).outcome.Err? &&
              SetDirection(caps, p, n, arg).outcome.error.ValueError?
    ensures DirectionOf(arg).Some? ==>
              SetDirection(caps, p, n, arg).port.written ==
                p.written + "DIR:" + IntText(n) + "=" + (if DirectionOf(arg).value == Input then "0" else "1") + "\r"
  {
    if DirectionOf(arg).Some? {
      var d := DirectionOf(arg).value;
      TellTraffic(p, "DIR:" + IntText(n) + "=" + IntText(DirectionCode(d)));
    }
  }

  /** [int(x) for x in pieces]: None when some piece is not an integer. */
  function ParseAll(pieces: seq<string>): Option<seq<int>> {
    if |pieces| == 0 then Some([])
    else
      match ParseInt(pieces[0])
      case None => None
      case Some(v) =>
        match ParseAll(pieces[1..])
        case None => None
        case Some(vs) => Some([v] + vs)
  }

  /** The comprehension yields one integer per piece, each the value of
      its piece, and fails exactly when some piece is not an integer. */
  lemma {:induction false} ParseAllMeaning(pieces: seq<string>)
    ensures ParseAll(pieces).Some? ==>
              |ParseAll(pieces).value| == |pieces| &&
              forall i :: 0 <= i < |pieces| ==> ParseInt(pieces[i]) == Some(ParseAll(pieces).value[i])
    ensures ParseAll(pieces).None? ==> exists i :: 0 <= i < |pieces| && ParseInt(pieces[i]).None?
    decreases |pieces|
  {
    if |pieces| > 0 {
      ParseAllMeaning(pieces[1..]);
      if ParseAll(pieces).None? && ParseInt(pieces[0]).Some? {
        var i :| 0 <= i < |pieces[1..]| && ParseInt(pieces[1..][i]).None?;
        assert pieces[1..][i] == pieces[i + 1];
      }
      if ParseAll(pieces).Some? {
        var vs := ParseAll(pieces).value;
        forall i | 0 <= i < |pieces|
          ensures ParseInt(pieces[i]) == Some(vs[i])
        {
          if i > 0 {
            assert pieces[1..][i - 1] == pieces[i];
          }
        }
      }
    }
  }

  /** _get_term_nos: the comma-separated integers of the TLS answer. A
      piece that is not an integer is a BadResponse carrying the answer. */
  function TermNos(p: PortState): Exchange<seq<int>> {
    var x := Ask(p, "TLS");
    match x.outcome
    case Err(e) => Exchange(Err(e), x.port)
    case Ok(answer) =>
      match ParseAll(Split(answer, ','))
      case None => Exchange(Err(BadResponse(answer)), x.port)
      case Some(ns) => Exchange(Ok(ns), x.port)
  }

  /** A TLS answer written as the decimal terminal numbers joined by
      commas is read back as those numbers. */
  lemma {:induction false} TermNosRoundTrip(ns: seq<int>)
    requires |ns| >= 1
    ensures |Texts(ns)| == |ns|
    ensures ParseAll(Split(Join(Texts(ns), ','), ',')) == Some(ns)
  {
    var ts := Texts(ns);
    forall i | 0 <= i < |ts|
      ensures ',' !in ts[i]
    {
      IntTextNoComma(ns[i]);
    }
    JoinSplit(ts, ',');
    ParseAllTexts(ns);
  }

  /** A decimal text holds digits and possibly a minus sign, so never a
      comma. */
  lemma IntTextNoComma(n: int)
    ensures ',' !in IntText(n)
  {
    if n < 0 {
      NatTextDigits(-n);
      assert IntText(n)[1..] == NatText(-n);
    } else {
      NatTextDigits(n);
    }
  }

  /** The decimal texts of a list of ints. */
  function Texts(ns: seq<int>): (ts: seq<string>)
    ensures |ts| == |ns| && forall i :: 0 <= i < |ns| ==> ts[i] == IntText(ns[i])
  {
    if |ns| == 0 then [] else [IntText(ns[0])] + Texts(ns[1..])
  }

  lemma ParseAllCons(piece: string, rest: seq<string>)
    requires ParseInt(piece).Some? && ParseAll(rest).Some?
    ensures ParseAll([piece] + rest) == Some([ParseInt(piece).value] + ParseAll(rest).value)
  {
    assert ([piece] + rest)[0] == piece;
    assert ([piece] + rest)[1..] == rest;
  }

  lemma {:induction false} ParseAllTexts(ns: seq<int>)
    ensures ParseAll(Texts(ns)) == Some(ns)
    decreases |ns|
  {
    if |ns| > 0 {
      var head := IntText(ns[0]);
      var tail := Texts(ns[1..]);
      assert Texts(ns) == [head] + tail;
      ParseIntText(ns[0]);
      ParseAllTexts(ns[1..]);
      ParseAllCons(head, tail);
      assert [ns[0]] + ns[1..] == ns;
    }
  }

  /** The dict comprehension {t: _ask(f"TCP:{t}") for t in termNos},
      continued from caps: one TCP query per listed terminal, in order,
      the first failure ending it. */
  function QueryCapabilities(p: PortState, termNos: seq<int>, caps: Capabilities): Exchange<Capabilities>
    decreases |termNos|
  {
    if |termNos| == 0 then Exchange(Ok(caps), p)
    else
      var x := Ask(p, "TCP:" + IntText(termNos[0]));
      match x.outcome
      case Err(e) => Exchange(Err(e), x.port)
      case Ok(c) => QueryCapabilities(x.port, termNos[1..], DictSet(caps, termNos[0], c))
  }

  /** A completed comprehension has distinct keys, one for each listed
      terminal and each key it started with, and nothing else. */
  lemma {:induction false} QueryCapabilitiesKeys(p: PortState, termNos: seq<int>, caps: Capabilities)
    requires DistinctKeys(caps)
    requires QueryCapabilities(p, termNos, caps).outcome.Ok?
    ensures var r := QueryCapabilities(p, termNos, caps).outcome.value;
            DistinctKeys(r) && forall n :: n in Keys(r) <==> n in termNos || n in Keys(caps)
    decreases |termNos|
  {
    if |termNos| > 0 {
      var x := Ask(p, "TCP:" + IntText(termNos[0]));
      var next := DictSet(caps, termNos[0], x.outcome.value);
      DictSetDistinct(caps, termNos[0], x.outcome.value);
      DictSetKeys(caps, termNos[0], x.outcome.value);
      QueryCapabilitiesKeys(x.port, termNos[1..], next);
      assert forall n :: n in termNos <==> n == termNos[0] || n in termNos[1..];
    }
  }

  /** What __init__ learns about the board. */
  datatype BoardInfo = BoardInfo(model: string, id: string, capabilities: Capabilities)

  /** The IDN query unpacked into model and ID; a reply that does not
      split into exactly two comma-separated fields is a ValueError. */
  function Identify(p: PortState): Exchange<(string, string)> {
    var x := Ask(p, "IDN");
    match x.outcome
    case Err(e) => Exchange(Err(e), x.port)
    case Ok(answer) =>
      var fields := Split(answer, ',');
      if |fields| != 2 then Exchange(Err(ValueError(answer)), x.port)
      else Exchange(Ok((fields[0], fields[1])), x.port)
  }

  /** The identity checks of UxibxxIoBoard.__init__: the model first,
      then the ID, each only when an expected value is given. */
  function CheckIdentity(expectedModel: Option<string>, expectedId: Option<string>, model: string, id: string): Option<DriverError> {
    if expectedModel.Some? && expectedModel.value != model then
      Some(IdMismatch("board model", expectedModel.value, model))
    else if expectedId.Some? && expectedId.value != id then
      Some(IdMismatch("board ID", expectedId.value, id))
    else None
  }

  /** __init__: identify, check the identity, list the terminals, then
      query each terminal's capabilities. */
  function Connect(p: PortState, expectedModel: Option<string>, expectedId: Option<string>): Exchange<BoardInfo> {
    var x := Identify(p);
    match x.outcome
    case Err(e) => Exchange(Err(e), x.port)
    case Ok(ident) =>
      match CheckIdentity(expectedModel, expectedId, ident.0, ident.1)
      case Some(e) => Exchange(Err(e), x.port)
      case None =>
        var y := TermNos(x.port);
        match y.outcome
        case Err(e) => Exchange(Err(e), y.port)
        case Ok(ns) =>
          var z := QueryCapabilities(y.port, ns, []);
          match z.outcome
          case Err(e) => Exchange(Err(e), z.port)
          case Ok(caps) => Exchange(Ok(BoardInfo(ident.0, ident.1, caps)), z.port)
  }

  /** The IDN reply has exactly one comma when it is accepted. */
  lemma IdentifyFields(p: PortState)
    ensures var a := Ask(p, "IDN").outcome;
            a.Ok? ==> (Identify(p).outcome.Ok? <==> Count(a.value, ',') == 1)
    ensures Identify(p).outcome.Ok? ==>
              Ask(p, "IDN").outcome.value == Identify(p).outcome.value.0 + "," + Identify(p).outcome.value.1
  {
    var a := Ask(p, "IDN").outcome;
    if a.Ok? {
      SplitJoin(a.value, ',');
      SplitCount(a.value, ',');
      var f := Split(a.value, ',');
      if |f| == 2 {
        assert f[1..] == [f[1]];
      }
    }
  }

  /** Past a successful IDN query, __init__ goes on exactly when the
      identity checks pass, and raises their IdMismatch otherwise. */
  lemma ConnectAfterIdentify(p: PortState, expectedModel: Option<string>, expectedId: Option<string>)
    requires Identify(p).outcome.Ok?
    ensures var ident := Identify(p).outcome.value;
            var check := CheckIdentity(expectedModel, expectedId, ident.0, ident.1);
            check.Some? ==> Connect(p, expectedModel, expectedId) == Exchange(Err(check.value), Identify(p).port)
    ensures var ident := Identify(p).outcome.value;
            var check := CheckIdentity(expectedModel, expectedId, ident.0, ident.1);
            check.None? ==> Connect(p, expectedModel, expectedId) == Connect(p, None, None)
  {
  }

  /** A given model that differs from the reported one is an IdMismatch
      on the model, whatever the ID; a given ID that differs is an
      IdMismatch on the ID once the model matches; the check passes
      exactly when every given value matches. Without expectations it
      always passes. */
  lemma CheckIdentityOrder(expectedModel: Option<string>, expectedId: Option<string>, model: string, id: string)
    ensures expectedModel.Some? && expectedModel.value != model ==>
              CheckIdentity(expectedModel, expectedId, model, id) == Some(IdMismatch("board model", expectedModel.value, model))
    ensures (expectedModel.Some? ==> expectedModel.value == model) && expectedId.Some? && expectedId.value != id ==>
              CheckIdentity(expectedModel, expectedId, model, id) == Some(IdMismatch("board ID", expectedId.value, id))
    ensures CheckIdentity(expectedModel, expectedId, model, id).None? <==>
              (expectedModel.Some? ==> expectedModel.value == model) && (expectedId.Some? ==> expectedId.value == id)
    ensures CheckIdentity(None, None, model, id).None?
  {
  }

  /** The errors an exchange with the board itself raises. */
  predicate ExchangeError(e: DriverError) {
    e.ResponseTimeout? || e.RemoteError? || e.BadResponse?
  }

  /** _ask raises only what the exchange raises. */
  lemma AskErrors(p: PortState, cmd: string)
    ensures Ask(p, cmd).outcome.Err? ==> ExchangeError(Ask(p, cmd).outcome.error)
  {
    ReadResponseOutcomes(Send(p, cmd + "?\r"));
  }

  /** The TCP queries raise only what an exchange raises. */
  lemma {:induction false} QueryCapabilitiesErrors(p: PortState, termNos: seq<int>, caps: Capabilities)
    ensures QueryCapabilities(p, termNos, caps).outcome.Err? ==>
              ExchangeError(QueryCapabilities(p, termNos, caps).outcome.error)
    decreases |termNos|
  {
    if |termNos| > 0 {
      var x := Ask(p, "TCP:" + IntText(termNos[0]));
      AskErrors(p, "TCP:" + IntText(termNos[0]));
      if x.outcome.Ok? {
        QueryCapabilitiesErrors(x.port, termNos[1..], DictSet(caps, termNos[0], x.outcome.value));
      }
    }
  }

  /** Without expectations __init__ never raises IdMismatch: it raises
      what an exchange raises, or the ValueError of an IDN reply that is
      not two fields. */
  lemma ConnectNeverMismatches(p: PortState)
    ensures Connect(p, None, None).outcome.Err? ==>
              ExchangeError(Connect(p, None, None).outcome.error) ||
              Connect(p, None, None).outcome.error == ValueError(Ask(p, "IDN").outcome.value)
  {
    AskErrors(p, "IDN");
    var x := Identify(p);
    if x.outcome.Ok? {
      AskErrors(x.port, "TLS");
      var y := TermNos(x.port);
      if y.outcome.Ok? {
        QueryCapabilitiesErrors(y.port, y.outcome.value, []);
      }
    }
  }

  /** A connected board's capability dict has distinct keys, exactly
      the terminals the TLS answer lists. */
  lemma ConnectCapabilities(p: PortState, expectedModel: Option<string>, expectedId: Option<string>)
    requires Connect(p, expectedModel, expectedId).outcome.Ok?
    ensures var x := Identify(p);
            var ns := TermNos(x.port).outcome.value;
            var caps := Connect(p, expectedModel, expectedId).outcome.value.capabilities;
            DistinctKeys(caps) && forall n :: n in Keys(caps) <==> n in ns
  {
    var x := Identify(p);
    var y := TermNos(x.port);
    QueryCapabilitiesKeys(y.port, y.outcome.value, []);
  }
}
