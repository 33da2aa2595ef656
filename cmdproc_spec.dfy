/** Pure specification of the firmware's command front end: what the
    accumulator keeps of a byte stream, how one argument token is converted,
    how a registry entry is found, and what command record a line parses to.
    The imperative implementation in module CmdProc is proved against it. */
module CmdProcSpec {
  import opened Wrappers
  import opened CmdProcTypes

  // ---------------------------------------------------------------------
  // Line accumulator (cmdproc__processIncomingChar)
  // ---------------------------------------------------------------------

  /** What the accumulator holds: the bytes kept so far and the ready flag. */
  datatype LineState = LineState(text: string, ready: bool)

  const EmptyLine := LineState([], false)

  /** The buffer never holds more than INPUT_BUF_SIZE - 1 bytes (room for the
      NUL) and never holds a NUL. */
  predicate LineInvariant(s: LineState) {
    |s.text| <= INPUT_BUF_SIZE - 1 && NUL !in s.text
  }

  /** One incoming byte: NUL, the ignore set and anything arriving while a
      line is pending are dropped; the terminator marks the line ready; any
      other byte is appended while there is room and dropped silently after. */
  function Accumulate(s: LineState, ch: char): LineState {
    if ch == NUL || IsIgnored(ch) || s.ready then s
    else if ch == LINE_TERMINATOR then s.(ready := true)
    else if |s.text| >= INPUT_BUF_SIZE - 1 then s
    else s.(text := s.text + [ch])
  }

  /** A whole stream of bytes, fed one at a time. */
  function Feed(s: LineState, bytes: string): LineState
    decreases |bytes|
  {
    if bytes == [] then s else Feed(Accumulate(s, bytes[0]), bytes[1..])
  }

  lemma AccumulateKeepsInvariant(s: LineState, ch: char)
    requires LineInvariant(s)
    ensures LineInvariant(Accumulate(s, ch))
    ensures |Accumulate(s, ch).text| <= INPUT_BUF_SIZE - 1
  {
  }

  /** Dropped bytes and back-pressure: nothing changes. */
  lemma AccumulateIgnores(s: LineState, ch: char)
    requires ch == NUL || IsIgnored(ch) || s.ready
    ensures Accumulate(s, ch) == s
  {
  }

  /** The terminator sets ready without changing the kept text; any other
      byte is appended exactly when there is room. */
  lemma AccumulateAppendsOrTerminates(s: LineState, ch: char)
    requires !s.ready && ch != NUL && !IsIgnored(ch)
    ensures ch == LINE_TERMINATOR ==> Accumulate(s, ch) == LineState(s.text, true)
    ensures ch != LINE_TERMINATOR && |s.text| < INPUT_BUF_SIZE - 1 ==>
              Accumulate(s, ch) == LineState(s.text + [ch], false)
    ensures ch != LINE_TERMINATOR && |s.text| >= INPUT_BUF_SIZE - 1 ==> Accumulate(s, ch) == s
  {
  }

  /** Feeding a stream keeps the invariant, whatever the stream. */
  lemma {:induction false} FeedKeepsInvariant(s: LineState, bytes: string)
    requires LineInvariant(s)
    ensures LineInvariant(Feed(s, bytes))
    decreases |bytes|
  {
    if bytes != [] {
      AccumulateKeepsInvariant(s, bytes[0]);
      FeedKeepsInvariant(Accumulate(s, bytes[0]), bytes[1..]);
    }
  }

  /** Once a line is ready, no further byte changes anything. */
  lemma {:induction false} FeedWhileReady(s: LineState, bytes: string)
    requires s.ready
    ensures Feed(s, bytes) == s
    decreases |bytes|
  {
    if bytes != [] {
      FeedWhileReady(Accumulate(s, bytes[0]), bytes[1..]);
    }
  }

  /** Text made only of bytes the accumulator keeps. */
  predicate Keepable(text: string) {
    forall i :: 0 <= i < |text| ==>
      text[i] != NUL && !IsIgnored(text[i]) && text[i] != LINE_TERMINATOR
  }

  lemma {:induction false} FeedSplit(s: LineState, a: string, b: string)
    ensures Feed(s, a + b) == Feed(Feed(s, a), b)
    decreases |a|
  {
    if a == [] {
      assert a + b == b;
    } else {
      assert (a + b)[0] == a[0];
      assert (a + b)[1..] == a[1..] + b;
      FeedSplit(Accumulate(s, a[0]), a[1..], b);
    }
  }

  /** A line of keepable bytes that fits, followed by the terminator, arrives
      intact and ready. */
  lemma {:induction false} FeedLine(s: LineState, text: string)
    requires !s.ready && Keepable(text) && |s.text| + |text| <= INPUT_BUF_SIZE - 1
    ensures Feed(s, text + [LINE_TERMINATOR]) == LineState(s.text + text, true)
    decreases |text|
  {
    if text == [] {
      assert text + [LINE_TERMINATOR] == [LINE_TERMINATOR];
      assert s.text + text == s.text;
    } else {
      assert (text + [LINE_TERMINATOR])[0] == text[0];
      assert (text + [LINE_TERMINATOR])[1..] == text[1..] + [LINE_TERMINATOR];
      var s' := Accumulate(s, text[0]);
      assert s' == LineState(s.text + [text[0]], false);
      assert Keepable(text[1..]) by {
        forall i | 0 <= i < |text[1..]| ensures text[1..][i] == text[i + 1] { }
      }
      FeedLine(s', text[1..]);
      assert s.text + [text[0]] + text[1..] == s.text + text;
    }
  }

  // ---------------------------------------------------------------------
  // Character searches and bounded comparison (strchr, strncmp)
  // ---------------------------------------------------------------------

  /** strchr: index of the first c in s, or |s| when c does not occur. */
  function FirstIndex(s: string, c: char): (k: nat)
    ensures k <= |s|
    ensures k < |s| ==> s[k] == c
  {
    if s == [] then 0
    else if s[0] == c then 0
    else FirstIndex(s[1..], c) + 1
  }

  /** FirstIndex finds the first c: none occurs before it, and it is |s|
      exactly when c does not occur at all. */
  lemma {:induction false} FirstIndexFirst(s: string, c: char)
    ensures c !in s[..FirstIndex(s, c)]
    ensures FirstIndex(s, c) == |s| <==> c !in s
    decreases |s|
  {
    if s != [] && s[0] != c {
      var k := FirstIndex(s[1..], c);
      FirstIndexFirst(s[1..], c);
      assert s[..k + 1] == [s[0]] + s[1..][..k];
      assert s == [s[0]] + s[1..];
    }
  }

  /** FirstIndex is determined by its contract: no c before k, c at k. */
  lemma FirstIndexIs(s: string, c: char, k: nat)
    requires k <= |s| && c !in s[..k]
    requires k < |s| ==> s[k] == c
    ensures FirstIndex(s, c) == k
  {
    FirstIndexFirst(s, c);
  }

  function Truncate(s: string, n: nat): (t: string)
    ensures |t| <= n && t <= s
    ensures |s| <= n ==> t == s
  {
    if |s| <= n then s else s[..n]
  }

  /** strncmp(a, b, n) == 0 for NUL-free strings: the first n characters agree,
      and so does the point where each string ends if that comes earlier. */
  predicate StrnEq(a: string, b: string, n: nat) {
    Truncate(a, n) == Truncate(b, n)
  }

  lemma StrnEqShort(a: string, b: string, n: nat)
    requires |a| <= n && |b| <= n
    ensures StrnEq(a, b, n) <==> a == b
  {
  }

  // ---------------------------------------------------------------------
  // Argument values (parseArgVal and sscanf "%u")
  // ---------------------------------------------------------------------

  /** isspace() in the C locale: space, \t, \n, \v, \f, \r. */
  predicate IsCSpace(c: char) {
    c == ' ' || c == '\t' || c == '\n' || c == '\r' || c as int == 11 || c as int == 12
  }

  predicate IsDigit(c: char) {
    '0' <= c <= '9'
  }

  predicate AllDigits(s: string) {
    forall i :: 0 <= i < |s| ==> IsDigit(s[i])
  }

  function DigitValue(c: char): (d: nat)
    requires IsDigit(c)
    ensures d <= 9
  {
    c as int - '0' as int
  }

  /** Value of a run of decimal digits, most significant first. */
  function DecimalValue(s: string): nat
    requires AllDigits(s)
  {
    if s == [] then 0 else DecimalValue(s[..|s| - 1]) * 10 + DigitValue(s[|s| - 1])
  }

  function SkipSpace(s: string): (t: string)
    ensures t <= s || (|t| <= |s| && t == s[|s| - |t|..])
    ensures t == [] || !IsCSpace(t[0])
  {
    if s != [] && IsCSpace(s[0]) then SkipSpace(s[1..]) else s
  }

  /** Length of the run of decimal digits that starts s. */
  function DigitRun(s: string): (n: nat)
    ensures n <= |s| && AllDigits(s[..n])
    ensures n < |s| ==> !IsDigit(s[n])
  {
    if s != [] && IsDigit(s[0]) then
      var n := DigitRun(s[1..]);
      assert s[..n + 1] == [s[0]] + s[1..][..n];
      n + 1
    else 0
  }

  /** sscanf(tok, "%u", &v): skip white space, accept one optional sign and
      at least one digit; the conversion stops at the first non-digit, so
      trailing junk is accepted. The value is what avr-libc stores into a
      16-bit unsigned int: the decimal value modulo 2^16, negated modulo
      2^16 after a '-'. None when no digit follows (the call does not
      return 1). */
  function ScanUnsigned(tok: string): Option<uint16> {
    var t := SkipSpace(tok);
    var neg := t != [] && t[0] == '-';
    var body := if t != [] && (t[0] == '+' || t[0] == '-') then t[1..] else t;
    var n := DigitRun(body);
    if n == 0 then None
    else
      var m := DecimalValue(body[..n]) % 0x1_0000;
      Some(if neg then (0x1_0000 - m) % 0x1_0000 else m)
  }

  /** A token that starts with decimal digits scans to their value modulo
      2^16, whatever follows the digits. */
  lemma ScanLeadingDigits(digits: string, junk: string)
    requires digits != [] && AllDigits(digits)
    requires junk == [] || (!IsDigit(junk[0]))
    ensures ScanUnsigned(digits + junk) == Some(DecimalValue(digits) % 0x1_0000)
  {
    var t := digits + junk;
    assert SkipSpace(t) == t;
    assert t[0] == digits[0];
    var n := DigitRun(t);
    DigitRunOfDigits(digits, junk);
    assert t[..n] == digits;
  }

  lemma {:induction false} DigitRunOfDigits(digits: string, junk: string)
    requires AllDigits(digits)
    requires junk == [] || (!IsDigit(junk[0]))
    ensures DigitRun(digits + junk) == |digits|
    decreases |digits|
  {
    if digits == [] {
      assert digits + junk == junk;
    } else {
      assert (digits + junk)[0] == digits[0];
      assert (digits + junk)[1..] == digits[1..] + junk;
      DigitRunOfDigits(digits[1..], junk);
    }
  }

  /** A token with no digit after the optional white space and sign does
      not scan. */
  lemma ScanNeedsDigit(tok: string)
    requires forall i :: 0 <= i < |tok| ==> !IsDigit(tok[i])
    ensures ScanUnsigned(tok) == None
  {
    var t := SkipSpace(tok);
    var body := if t != [] && (t[0] == '+' || t[0] == '-') then t[1..] else t;
    if body != [] {
      assert body[0] in tok;
    }
  }

  /** parseArgVal: UInt8 takes a scanned value of at most 255, UInt16 any
      scanned value, String the first 16 characters; every other type fails. */
  function ParseArgVal(tok: string, t: ArgType): (r: Option<ArgVal>)
    ensures r.Some? ==> HasType(r.value, t)
    ensures t == ArgString ==> r.Some? && r.value.str <= tok && |r.value.str| == if |tok| <= ARG_MAX_LEN then |tok| else ARG_MAX_LEN
    ensures t == ArgInt8 || t == ArgInt16 ==> r.None?
  {
    match t
    case ArgUInt8 =>
      var v := ScanUnsigned(tok);
      if v.None? || v.value > 255 then None else Some(UInt8Val(v.value))
    case ArgUInt16 =>
      var v := ScanUnsigned(tok);
      if v.None? then None else Some(UInt16Val(v.value))
    case ArgString => Some(StringVal(Truncate(tok, ARG_MAX_LEN)))
    case _ => None
  }

  /** UInt8 succeeds exactly when "%u" converts a value of at most 255;
      UInt16 exactly when "%u" converts, with no range check. */
  lemma ParseArgValNumeric(tok: string)
    ensures ParseArgVal(tok, ArgUInt8).Some? <==>
              ScanUnsigned(tok).Some? && ScanUnsigned(tok).value <= 255
    ensures ParseArgVal(tok, ArgUInt8).Some? ==>
              ParseArgVal(tok, ArgUInt8).value == UInt8Val(ScanUnsigned(tok).value)
    ensures ParseArgVal(tok, ArgUInt16).Some? <==> ScanUnsigned(tok).Some?
    ensures ParseArgVal(tok, ArgUInt16).Some? ==>
              ParseArgVal(tok, ArgUInt16).value == UInt16Val(ScanUnsigned(tok).value)
  {
  }

  // ---------------------------------------------------------------------
  // Argument lists (parseArgs)
  // ---------------------------------------------------------------------

  /** Prepend an already parsed value to the outcome of the rest. */
  function Prepend(vs: seq<ArgVal>, r: Result<seq<ArgVal>>): Result<seq<ArgVal>> {
    match r
    case Ok(ws) => Ok(vs + ws)
    case Err(e) => Err(e)
  }

  /** parseArgs: tokens are taken left to right up to each ','; a token
      beyond the declared count is N_ARGS before it is parsed; an over-long
      or unparsable token is ARG_FMT; running out of text before the
      declared count is N_ARGS. Text ending just after a ',' ends the list,
      so one trailing comma is ignored. */
  function ParseArgs(s: string, types: seq<ArgType>): (r: Result<seq<ArgVal>>)
    ensures r.Ok? ==> |r.value| == |types|
    ensures r.Err? ==> r.error == ErrNArgs || r.error == ErrArgFmt
    decreases |s|
  {
    if s == [] then
      if types == [] then Ok([]) else Err(ErrNArgs)
    else if types == [] then Err(ErrNArgs)
    else
      var k := FirstIndex(s, ARG_DELIMITER);
      var tok := s[..k];
      if |tok| > ARG_MAX_LEN then Err(ErrArgFmt)
      else
        var v := ParseArgVal(tok, types[0]);
        if v.None? then Err(ErrArgFmt)
        else Prepend([v.value], ParseArgs(if k < |s| then s[k + 1..] else [], types[1..]))
  }

  /** Every value parseArgs stores carries the tag of its declared slot. */
  lemma {:induction false} ParseArgsTyped(s: string, types: seq<ArgType>)
    ensures ParseArgs(s, types).Ok? ==>
              forall i :: 0 <= i < |types| ==> HasType(ParseArgs(s, types).value[i], types[i])
    decreases |s|
  {
    if s != [] && types != [] {
      var k := FirstIndex(s, ARG_DELIMITER);
      var rest := if k < |s| then s[k + 1..] else [];
      ParseArgsTyped(rest, types[1..]);
    }
  }

  /** The comma-separated fields of an argument list, one trailing empty
      field dropped (the text after a final ','). */
  function Fields(s: string): (fs: seq<string>)
    ensures forall i :: 0 <= i < |fs| ==> ARG_DELIMITER !in fs[i]
    ensures s == [] <==> fs == []
    decreases |s|
  {
    if s == [] then []
    else
      var k := FirstIndex(s, ARG_DELIMITER);
      FirstIndexFirst(s, ARG_DELIMITER);
      [s[..k]] + Fields(if k < |s| then s[k + 1..] else [])
  }

  /** A field is acceptable for a slot type: short enough and parsable. */
  predicate FieldParses(f: string, t: ArgType) {
    |f| <= ARG_MAX_LEN && ParseArgVal(f, t).Some?
  }

  /** The text after the first field (empty when there is no ','). */
  function AfterField(s: string): (t: string)
    ensures |t| < |s| || s == []
  {
    var k := FirstIndex(s, ARG_DELIMITER);
    if k < |s| then s[k + 1..] else []
  }

  /** One step of parseArgs and of Fields, stated side by side. */
  lemma ParseArgsStep(s: string, types: seq<ArgType>)
    requires s != [] && types != []
    ensures Fields(s) == [s[..FirstIndex(s, ARG_DELIMITER)]] + Fields(AfterField(s))
    ensures ParseArgs(s, types) ==
              if !FieldParses(Fields(s)[0], types[0]) then Err(ErrArgFmt)
              else Prepend([ParseArgVal(Fields(s)[0], types[0]).value], ParseArgs(AfterField(s), types[1..]))
  {
  }

  /** Reference characterisation of parseArgs: it succeeds exactly when there
      is one field per declared slot and every field parses for its slot, and
      then the values are those of the fields. */
  lemma {:induction false} ParseArgsByFields(s: string, types: seq<ArgType>)
    ensures ParseArgs(s, types).Ok? <==>
              |Fields(s)| == |types| &&
              forall i :: 0 <= i < |types| ==> FieldParses(Fields(s)[i], types[i])
    ensures ParseArgs(s, types).Ok? ==>
              forall i :: 0 <= i < |types| ==>
                ParseArgs(s, types).value[i] == ParseArgVal(Fields(s)[i], types[i]).value
    decreases |s|
  {
    if |Fields(s)| == |types| && forall i :: 0 <= i < |types| ==> FieldParses(Fields(s)[i], types[i]) {
      FieldsParseOk(s, types);
    }
    if ParseArgs(s, types).Ok? {
      ParseArgsOkFields(s, types);
    }
  }

  /** A successful parse has one parsable field per slot, and each value is
      its field's. */
  lemma {:induction false} ParseArgsOkFields(s: string, types: seq<ArgType>)
    requires ParseArgs(s, types).Ok?
    ensures |Fields(s)| == |types|
    ensures forall i :: 0 <= i < |types| ==>
              FieldParses(Fields(s)[i], types[i]) &&
              ParseArgs(s, types).value[i] == ParseArgVal(Fields(s)[i], types[i]).value
    decreases |s|
  {
    if s != [] && types != [] {
      var rest := AfterField(s);
      var fs := Fields(s);
      var fr := Fields(rest);
      ParseArgsStep(s, types);
      var r := ParseArgs(rest, types[1..]);
      assert FieldParses(fs[0], types[0]);
      ParseArgsOkFields(rest, types[1..]);
      var vs := ParseArgs(s, types).value;
      assert vs == [ParseArgVal(fs[0], types[0]).value] + r.value;
      forall i | 0 <= i < |types|
        ensures FieldParses(fs[i], types[i]) && vs[i] == ParseArgVal(fs[i], types[i]).value
      {
        if i > 0 {
          assert fs[i] == fr[i - 1];
          assert vs[i] == r.value[i - 1];
          assert types[i] == types[1..][i - 1];
        }
      }
    }
  }

  /** One parsable field per slot makes the parse succeed. */
  lemma {:induction false} FieldsParseOk(s: string, types: seq<ArgType>)
    requires |Fields(s)| == |types|
    requires forall i :: 0 <= i < |types| ==> FieldParses(Fields(s)[i], types[i])
    ensures ParseArgs(s, types).Ok?
    decreases |s|
  {
    if s != [] {
      var rest := AfterField(s);
      var fs := Fields(s);
      var fr := Fields(rest);
      ParseArgsStep(s, types);
      assert FieldParses(fs[0], types[0]);
      forall i | 0 <= i < |types[1..]|
        ensures FieldParses(fr[i], types[1..][i])
      {
        assert fs[i + 1] == fr[i];
        assert FieldParses(fs[i + 1], types[i + 1]);
      }
      FieldsParseOk(rest, types[1..]);
    }
  }

  /** Token count mismatch with every overlapping field parsable is N_ARGS. */
  lemma {:induction false} ParseArgsCountMismatch(s: string, types: seq<ArgType>)
    requires |Fields(s)| != |types|
    requires forall i :: 0 <= i < |Fields(s)| && i < |types| ==> FieldParses(Fields(s)[i], types[i])
    ensures ParseArgs(s, types) == Err(ErrNArgs)
    decreases |s|
  {
    if s != [] && types != [] {
      var rest := AfterField(s);
      var fs := Fields(s);
      ParseArgsStep(s, types);
      assert FieldParses(fs[0], types[0]);
      forall i | 0 <= i < |Fields(rest)| && i < |types[1..]|
        ensures FieldParses(Fields(rest)[i], types[1..][i])
      {
        assert fs[i + 1] == Fields(rest)[i];
      }
      ParseArgsCountMismatch(rest, types[1..]);
    }
  }

  /** The first field that does not parse for its slot, with the count not
      exceeded before it, makes the list ARG_FMT. */
  lemma {:induction false} ParseArgsBadField(s: string, types: seq<ArgType>, j: nat)
    requires j < |Fields(s)| && j < |types|
    requires !FieldParses(Fields(s)[j], types[j])
    requires forall i :: 0 <= i < j ==> FieldParses(Fields(s)[i], types[i])
    ensures ParseArgs(s, types) == Err(ErrArgFmt)
    decreases |s|
  {
    var rest := AfterField(s);
    var fs := Fields(s);
    ParseArgsStep(s, types);
    if j > 0 {
      assert FieldParses(fs[0], types[0]);
      forall i | 0 <= i < j - 1
        ensures FieldParses(Fields(rest)[i], types[1..][i])
      {
        assert fs[i + 1] == Fields(rest)[i];
      }
      assert fs[j] == Fields(rest)[j - 1];
      ParseArgsBadField(rest, types[1..], j - 1);
    }
  }

  /** One trailing comma is ignored. */
  lemma {:induction false} TrailingCommaIgnored(s: string, types: seq<ArgType>)
    requires s != [] && s[|s| - 1] != ARG_DELIMITER
    ensures ParseArgs(s + [ARG_DELIMITER], types) == ParseArgs(s, types)
    decreases |s|
  {
    var s' := s + [ARG_DELIMITER];
    var k := FirstIndex(s, ARG_DELIMITER);
    assert s'[..|s|] == s;
    var k' := FirstIndex(s', ARG_DELIMITER);
    FirstIndexExtend(s, ARG_DELIMITER, [ARG_DELIMITER]);
    if types != [] {
      assert s'[..k'] == s[..k];
      if k < |s| {
        var rest := s[k + 1..];
        assert s'[k + 1..] == rest + [ARG_DELIMITER];
        assert rest != [] && rest[|rest| - 1] == s[|s| - 1];
        TrailingCommaIgnored(rest, types[1..]);
      } else {
        assert s'[k' + 1..] == [];
      }
    }
  }

  lemma FirstIndexExtend(s: string, c: char, t: string)
    ensures c in s ==> FirstIndex(s + t, c) == FirstIndex(s, c)
    ensures c !in s ==> FirstIndex(s + t, c) == |s| + FirstIndex(t, c)
  {
    if c in s {
      var j := FirstIndex(s, c);
      FirstIndexFirst(s, c);
      assert (s + t)[j] == c;
      assert s[..j] == (s + t)[..j];
      FirstIndexIs(s + t, c, j);
    } else {
      var j := FirstIndex(t, c);
      FirstIndexFirst(t, c);
      assert (s + t)[..|s| + j] == s + t[..j];
      FirstIndexIs(s + t, c, |s| + j);
    }
  }

  // ---------------------------------------------------------------------
  // Registry lookup (getCommandSpec)
  // ---------------------------------------------------------------------

  predicate SpecMatches(spec: CmdSpec, mnem: string, t: CmdType) {
    StrnEq(mnem, spec.mnem, MNEM_MAX_LEN) && spec.cmdType == t
  }

  /** getCommandSpec: index of the first entry whose mnemonic matches on the
      first 16 characters and whose shape is equal, else -1. */
  function FindSpec(reg: seq<CmdSpec>, mnem: string, t: CmdType): (r: int)
    ensures -1 <= r < |reg|
    ensures r == -1 <==> forall i :: 0 <= i < |reg| ==> !SpecMatches(reg[i], mnem, t)
    ensures r >= 0 ==> SpecMatches(reg[r], mnem, t)
    ensures r >= 0 ==> forall i :: 0 <= i < r ==> !SpecMatches(reg[i], mnem, t)
  {
    if reg == [] then -1
    else if SpecMatches(reg[0], mnem, t) then 0
    else
      var r := FindSpec(reg[1..], mnem, t);
      assert forall i :: 1 <= i < |reg| ==> reg[i] == reg[1..][i - 1];
      if r < 0 then -1 else r + 1
  }

  /** When no two entries share (mnemonic, shape), the entry found is the
      only one that matches, whatever the order of the table. */
  lemma FindSpecUnique(reg: seq<CmdSpec>, mnem: string, t: CmdType, j: nat)
    requires j < |reg| && SpecMatches(reg[j], mnem, t)
    requires forall a, b :: 0 <= a < b < |reg| ==>
               !(reg[a].mnem == reg[b].mnem && reg[a].cmdType == reg[b].cmdType)
    requires forall i :: 0 <= i < |reg| ==> |reg[i].mnem| <= MNEM_MAX_LEN
    ensures FindSpec(reg, mnem, t) == j
  {
  }

  // ---------------------------------------------------------------------
  // Command parser (cmdproc__getCommand)
  // ---------------------------------------------------------------------

  /** Query when '?' occurs anywhere, else Set when '=' occurs, else Do. */
  function ShapeOf(line: string): CmdType {
    if QUERY_OP_CH in line then Query
    else if SET_OP_CH in line then Set
    else Do
  }

  /** Where the left side ends: the first '?', else the first '=', else the
      end of the line. */
  function LeftEnd(line: string): (k: nat)
    ensures k <= |line|
    ensures k < |line| <==> ShapeOf(line) != Do
    ensures ShapeOf(line) == Query ==> line[k] == QUERY_OP_CH && QUERY_OP_CH !in line[..k]
    ensures ShapeOf(line) == Set ==> line[k] == SET_OP_CH && SET_OP_CH !in line[..k]
  {
    var q := FirstIndex(line, QUERY_OP_CH);
    FirstIndexFirst(line, QUERY_OP_CH);
    FirstIndexFirst(line, SET_OP_CH);
    if q < |line| then q else FirstIndex(line, SET_OP_CH)
  }

  /** The parts of a line: left side, right side, mnemonic and (when a ':'
      is present) the left argument text. */
  function LeftSide(line: string): string {
    line[..LeftEnd(line)]
  }

  function RightSide(line: string): string {
    var k := LeftEnd(line);
    if k < |line| then line[k + 1..] else []
  }

  function Mnemonic(line: string): string {
    var left := LeftSide(line);
    left[..FirstIndex(left, LEFTARGS_START_CH)]
  }

  predicate HasLeftArgs(line: string) {
    LEFTARGS_START_CH in LeftSide(line)
  }

  function LeftArgText(line: string): string {
    var left := LeftSide(line);
    var c := FirstIndex(left, LEFTARGS_START_CH);
    if c < |left| then left[c + 1..] else []
  }

  /** One argument list of a line: parsed when present, else N_ARGS when the
      entry expects arguments there, else empty. */
  function ArgList(present: bool, text: string, types: seq<ArgType>): Result<seq<ArgVal>> {
    if present then ParseArgs(text, types)
    else if |types| > 0 then Err(ErrNArgs)
    else Ok([])
  }

  /** The left list is present when the left side holds a ':'. */
  function LeftArgs(line: string, spec: CmdSpec): Result<seq<ArgVal>> {
    ArgList(HasLeftArgs(line), LeftArgText(line), spec.leftArgTypes)
  }

  /** The right list is present when the right side is non-empty. */
  function RightArgs(line: string, spec: CmdSpec): Result<seq<ArgVal>> {
    ArgList(RightSide(line) != [], RightSide(line), spec.rightArgTypes)
  }

  /** cmdproc__getCommand on a ready line: the first error wins. */
  function Parse(line: string, reg: seq<CmdSpec>): (cmd: Command)
    ensures cmd.cmdType == ShapeOf(line)
    ensures cmd.parseError != NoError ==> cmd.leftArgs == [] && cmd.rightArgs == []
    ensures cmd.parseError == NoError ==>
              cmd.mnem == Mnemonic(line) && FindSpec(reg, cmd.mnem, cmd.cmdType) >= 0
    ensures cmd.parseError == NoError ==>
              var spec := reg[FindSpec(reg, cmd.mnem, cmd.cmdType)];
              |cmd.leftArgs| == |spec.leftArgTypes| && |cmd.rightArgs| == |spec.rightArgTypes|
  {
    var cmdType := ShapeOf(line);
    var mnem := Mnemonic(line);
    if |mnem| > MNEM_MAX_LEN then Command(cmdType, [], [], [], ErrCmd)
    else
      var idx := FindSpec(reg, mnem, cmdType);
      if idx < 0 then Command(cmdType, mnem, [], [], ErrCmd)
      else
        var left := LeftArgs(line, reg[idx]);
        if left.Err? then Command(cmdType, mnem, [], [], left.error)
        else
          var right := RightArgs(line, reg[idx]);
          if right.Err? then Command(cmdType, mnem, [], [], right.error)
          else Command(cmdType, mnem, left.value, right.value, NoError)
  }

  /** A successful parse stores values tagged as the registry entry declares. */
  lemma ParseTyped(line: string, reg: seq<CmdSpec>)
    requires Parse(line, reg).parseError == NoError
    ensures var cmd := Parse(line, reg);
            var spec := reg[FindSpec(reg, cmd.mnem, cmd.cmdType)];
            (forall i :: 0 <= i < |cmd.leftArgs| ==> HasType(cmd.leftArgs[i], spec.leftArgTypes[i])) &&
            (forall i :: 0 <= i < |cmd.rightArgs| ==> HasType(cmd.rightArgs[i], spec.rightArgTypes[i]))
  {
    var spec := reg[FindSpec(reg, Mnemonic(line), ShapeOf(line))];
    if HasLeftArgs(line) {
      ParseArgsTyped(LeftArgText(line), spec.leftArgTypes);
    }
    if RightSide(line) != [] {
      ParseArgsTyped(RightSide(line), spec.rightArgTypes);
    }
  }

  /** '?' anywhere beats '=': a line holding both is a Query whose left side
      ends at the first '?'. */
  lemma QueryBeatsSet(line: string)
    requires QUERY_OP_CH in line
    ensures Parse(line, []).cmdType == Query
    ensures LeftEnd(line) == FirstIndex(line, QUERY_OP_CH)
  {
  }

  /** CMD exactly when the mnemonic is too long or (mnemonic, shape) is not
      registered; it is decided before any argument is looked at. */
  lemma ParseCmdError(line: string, reg: seq<CmdSpec>)
    ensures Parse(line, reg).parseError == ErrCmd <==>
              |Mnemonic(line)| > MNEM_MAX_LEN || FindSpec(reg, Mnemonic(line), ShapeOf(line)) < 0
  {
    var mnem := Mnemonic(line);
    if |mnem| <= MNEM_MAX_LEN {
      var idx := FindSpec(reg, mnem, ShapeOf(line));
      if idx >= 0 {
        ArgListNotCmd(HasLeftArgs(line), LeftArgText(line), reg[idx].leftArgTypes);
        ArgListNotCmd(RightSide(line) != [], RightSide(line), reg[idx].rightArgTypes);
      }
    }
  }

  /** An argument list fails only with N_ARGS or ARG_FMT. */
  lemma ArgListNotCmd(present: bool, text: string, types: seq<ArgType>)
    ensures ArgList(present, text, types).Err? ==>
              ArgList(present, text, types).error == ErrNArgs || ArgList(present, text, types).error == ErrArgFmt
  {
    if present {
      var r := ParseArgs(text, types);
      assert r.Err? ==> r.error == ErrNArgs || r.error == ErrArgFmt;
    }
  }

  /** Error precedence after the lookup: the left list is judged before the
      right list, and a left error hides any right error. */
  lemma ParseErrorPrecedence(line: string, reg: seq<CmdSpec>)
    requires |Mnemonic(line)| <= MNEM_MAX_LEN
    requires FindSpec(reg, Mnemonic(line), ShapeOf(line)) >= 0
    ensures var spec := reg[FindSpec(reg, Mnemonic(line), ShapeOf(line))];
            var cmd := Parse(line, reg);
            (!HasLeftArgs(line) && |spec.leftArgTypes| > 0 ==> cmd.parseError == ErrNArgs) &&
            (LeftArgs(line, spec).Err? ==> cmd.parseError == LeftArgs(line, spec).error) &&
            (LeftArgs(line, spec).Ok? && RightSide(line) == [] && |spec.rightArgTypes| > 0 ==>
               cmd.parseError == ErrNArgs) &&
            (LeftArgs(line, spec).Ok? && RightArgs(line, spec).Err? ==>
               cmd.parseError == RightArgs(line, spec).error)
  {
  }
}
