/** The parts of Python's str and int the host drivers rely on, on
    strings of characters: str.strip() with no argument, startswith and
    endswith, str.split(sep) and str.rsplit(sep, 1), int(text) for base
    10, and the decimal text f"{n}" of an int. */
module PyText {
  import opened Wrappers

  /** str.isspace() on the ASCII range: tab, line feed, vertical tab,
      form feed, carriage return, the four separators 0x1C-0x1F and the
      space. */
  predicate IsSpace(c: char) {
    var k := c as int;
    k == 32 || 9 <= k <= 13 || 28 <= k <= 31
  }

  /** str.lstrip(). */
  function StripLeft(s: string): (r: string)
    ensures |r| <= |s|
  {
    if |s| > 0 && IsSpace(s[0]) then StripLeft(s[1..]) else s
  }

  /** str.rstrip(). */
  function StripRight(s: string): (r: string)
    ensures |r| <= |s|
  {
    if |s| > 0 && IsSpace(s[|s| - 1]) then StripRight(s[..|s| - 1]) else s
  }

  /** str.strip(). */
  function Strip(s: string): string {
    StripRight(StripLeft(s))
  }

  /** lstrip removes the longest run of leading whitespace: what it
      removes is all whitespace, and what it keeps does not start with
      whitespace. */
  lemma {:induction false} StripLeftSpaces(s: string)
    ensures StripLeft(s) == s[|s| - |StripLeft(s)|..]
    ensures forall i :: 0 <= i < |s| - |StripLeft(s)| ==> IsSpace(s[i])
    ensures |StripLeft(s)| > 0 ==> !IsSpace(StripLeft(s)[0])
    decreases |s|
  {
    if |s| > 0 && IsSpace(s[0]) {
      StripLeftSpaces(s[1..]);
      assert s[1..][|s| - 1 - |StripLeft(s)|..] == s[|s| - |StripLeft(s)|..];
      forall i | 1 <= i < |s| - |StripLeft(s)|
        ensures IsSpace(s[i])
      {
        assert s[i] == s[1..][i - 1];
      }
    }
  }

  /** rstrip removes the longest run of trailing whitespace. */
  lemma {:induction false} StripRightSpaces(s: string)
    ensures StripRight(s) == s[..|StripRight(s)|]
    ensures forall i :: |StripRight(s)| <= i < |s| ==> IsSpace(s[i])
    ensures |StripRight(s)| > 0 ==> !IsSpace(StripRight(s)[|StripRight(s)| - 1])
    decreases |s|
  {
    if |s| > 0 && IsSpace(s[|s| - 1]) {
      StripRightSpaces(s[..|s| - 1]);
      assert s[..|s| - 1][..|StripRight(s)|] == s[..|StripRight(s)|];
      forall i | |StripRight(s)| <= i < |s| - 1
        ensures IsSpace(s[i])
      {
        assert s[i] == s[..|s| - 1][i];
      }
    }
  }

  /** Strip removes whitespace from both ends and nothing else: the
      result is the slice of s between the leading and the trailing
      whitespace, and it neither starts nor ends with whitespace. */
  lemma StripSlice(s: string)
    ensures var a := |s| - |StripLeft(s)|;
            a + |Strip(s)| <= |s| && Strip(s) == s[a..a + |Strip(s)|]
    ensures |Strip(s)| > 0 ==> !IsSpace(Strip(s)[0]) && !IsSpace(Strip(s)[|Strip(s)| - 1])
  {
    var l := StripLeft(s);
    var r := StripRight(l);
    StripLeftSpaces(s);
    StripRightSpaces(l);
    var a := |s| - |l|;
    assert r == s[a..a + |r|];
    if |r| > 0 {
      assert r[0] == l[0];
    }
  }

  /** Text without whitespace at its ends is left alone. */
  lemma StripFixed(s: string)
    requires |s| > 0 ==> !IsSpace(s[0]) && !IsSpace(s[|s| - 1])
    ensures Strip(s) == s
  {
    assert StripLeft(s) == s;
    assert StripRight(s) == s;
  }

  /** Stripping twice is stripping once. */
  lemma StripIdempotent(s: string)
    ensures Strip(Strip(s)) == Strip(s)
  {
    StripSlice(s);
    StripFixed(Strip(s));
  }

  predicate StartsWith(s: string, prefix: string) {
    |prefix| <= |s| && s[..|prefix|] == prefix
  }

  predicate EndsWith(s: string, suffix: string) {
    |suffix| <= |s| && s[|s| - |suffix|..] == suffix
  }

  /** str.rsplit(c, 1)[-1]: the text after the last c, or all of s when
      there is none. */
  function AfterLast(s: string, c: char): (r: string)
    ensures |r| <= |s|
  {
    if |s| == 0 then s
    else if s[|s| - 1] == c then []
    else AfterLast(s[..|s| - 1], c) + [s[|s| - 1]]
  }

  /** The text after the last c holds no c; when s holds a c, the
      character before that text is one; otherwise it is all of s. So s
      is what precedes the last c, the c, and the text after it. */
  lemma {:induction false} AfterLastSplits(s: string, c: char)
    ensures c !in AfterLast(s, c)
    ensures c in s ==> (|AfterLast(s, c)| < |s| && s[|s| - |AfterLast(s, c)| - 1] == c &&
                        s == s[..|s| - |AfterLast(s, c)| - 1] + [c] + AfterLast(s, c))
    ensures c !in s ==> AfterLast(s, c) == s
    decreases |s|
  {
    if |s| > 0 {
      var front := s[..|s| - 1];
      var last := s[|s| - 1];
      if last != c {
        AfterLastSplits(front, c);
        var r := AfterLast(front, c);
        assert AfterLast(s, c) == r + [last];
        assert c in s <==> c in front by {
          assert s == front + [last];
        }
        if c in front {
          var cut := |front| - |r| - 1;
          assert s[..cut] == front[..cut];
          assert s == front[..cut] + [c] + (r + [last]) by {
            assert s == front + [last];
          }
        }
      } else {
        assert s == front + [c] + [];
      }
    }
  }

  /** The index of the first c in s. */
  function IndexOf(s: string, c: char): (k: nat)
    requires c in s
    ensures k < |s| && s[k] == c
  {
    if s[0] == c then 0 else IndexOf(s[1..], c) + 1
  }

  lemma {:induction false} IndexOfFirst(s: string, c: char)
    requires c in s
    ensures c !in s[..IndexOf(s, c)]
    decreases |s|
  {
    if s[0] != c {
      IndexOfFirst(s[1..], c);
      assert s[..IndexOf(s, c)] == [s[0]] + s[1..][..IndexOf(s[1..], c)];
    }
  }

  /** str.split(sep) for a one-character separator: the pieces between
      separators. */
  function Split(s: string, sep: char): (parts: seq<string>)
    ensures |parts| >= 1
    decreases |s|
  {
    if sep !in s then [s]
    else
      var k := IndexOf(s, sep);
      [s[..k]] + Split(s[k + 1..], sep)
  }

  /** No piece holds the separator. */
  lemma {:induction false} SplitPieces(s: string, sep: char)
    ensures forall i :: 0 <= i < |Split(s, sep)| ==> sep !in Split(s, sep)[i]
    decreases |s|
  {
    if sep in s {
      var k := IndexOf(s, sep);
      IndexOfFirst(s, sep);
      SplitPieces(s[k + 1..], sep);
      var parts := Split(s, sep);
      assert parts[1..] == Split(s[k + 1..], sep);
      forall i | 1 <= i < |parts|
        ensures sep !in parts[i]
      {
        assert parts[i] == parts[1..][i - 1];
      }
    }
  }

  /** sep.join(parts). */
  function Join(parts: seq<string>, sep: char): string
    requires |parts| >= 1
  {
    if |parts| == 1 then parts[0] else parts[0] + [sep] + Join(parts[1..], sep)
  }

  /** The number of occurrences of c in s. */
  function Count(s: string, c: char): nat {
    if |s| == 0 then 0 else Count(s[..|s| - 1], c) + (if s[|s| - 1] == c then 1 else 0)
  }

  lemma {:induction false} CountAppend(a: string, b: string, c: char)
    ensures Count(a + b, c) == Count(a, c) + Count(b, c)
    decreases |b|
  {
    if |b| == 0 {
      assert a + b == a;
    } else {
      assert (a + b)[..|a + b| - 1] == a + b[..|b| - 1];
      CountAppend(a, b[..|b| - 1], c);
    }
  }

  lemma {:induction false} CountAbsent(s: string, c: char)
    requires c !in s
    ensures Count(s, c) == 0
    decreases |s|
  {
    if |s| > 0 {
      var t := s[..|s| - 1];
      assert forall x :: x in t ==> x in s;
      CountAbsent(t, c);
    }
  }

  lemma JoinCons(head: string, rest: seq<string>, sep: char)
    requires |rest| >= 1
    ensures Join([head] + rest, sep) == head + [sep] + Join(rest, sep)
  {
    assert ([head] + rest)[1..] == rest;
  }

  lemma CutAt(s: string, k: nat)
    requires k < |s|
    ensures s == s[..k] + [s[k]] + s[k + 1..]
  {
  }

  /** Joining the pieces with the separator gives back the text. */
  lemma {:induction false} SplitJoin(s: string, sep: char)
    ensures Join(Split(s, sep), sep) == s
    decreases |s|
  {
    if sep in s {
      var k := IndexOf(s, sep);
      var rest := s[k + 1..];
      SplitJoin(rest, sep);
      assert Split(s, sep) == [s[..k]] + Split(rest, sep);
      JoinCons(s[..k], Split(rest, sep), sep);
      CutAt(s, k);
    }
  }

  /** There is one piece more than there are separators. */
  lemma {:induction false} SplitCount(s: string, sep: char)
    ensures |Split(s, sep)| == Count(s, sep) + 1
    decreases |s|
  {
    if sep in s {
      var k := IndexOf(s, sep);
      IndexOfFirst(s, sep);
      var a, rest := s[..k], s[k + 1..];
      assert s == a + [sep] + rest;
      SplitAtFirst(a, sep, rest);
      SplitCount(rest, sep);
      CountAbsent(a, sep);
      CountAppend(a + [sep], rest, sep);
      CountAppend(a, [sep], sep);
      assert Count([sep], sep) == 1 by {
        assert [sep][..0] == [];
      }
      assert Count(s, sep) == Count(rest, sep) + 1;
    } else {
      CountAbsent(s, sep);
    }
  }

  /** Splitting the joined pieces gives back the pieces when none holds
      the separator. */
  lemma {:induction false} JoinSplit(parts: seq<string>, sep: char)
    requires |parts| >= 1
    requires forall i :: 0 <= i < |parts| ==> sep !in parts[i]
    ensures Split(Join(parts, sep), sep) == parts
    decreases |parts|
  {
    if |parts| > 1 {
      var rest := parts[1..];
      assert Join(parts, sep) == parts[0] + [sep] + Join(rest, sep);
      SplitAtFirst(parts[0], sep, Join(rest, sep));
      assert forall i :: 0 <= i < |rest| ==> sep !in rest[i] by {
        forall i | 0 <= i < |rest| ensures sep !in rest[i] {
          assert rest[i] == parts[i + 1];
        }
      }
      JoinSplit(rest, sep);
      assert [parts[0]] + rest == parts;
    }
  }

  /** Split stops at the first separator. */
  lemma SplitAtFirst(a: string, sep: char, b: string)
    requires sep !in a
    ensures Split(a + [sep] + b, sep) == [a] + Split(b, sep)
  {
    var s := a + [sep] + b;
    assert s[|a|] == sep;
    var k := IndexOf(s, sep);
    IndexOfFirst(s, sep);
    assert s[..|a|] == a;
    assert k == |a|;
    assert s[k + 1..] == b;
  }

  predicate IsDigit(c: char) {
    '0' <= c <= '9'
  }

  /** What may follow a digit in a Python integer literal:
      (["_"] digit)*. */
  predicate DigitTail(s: string) {
    |s| == 0 ||
    (IsDigit(s[0]) && DigitTail(s[1..])) ||
    (|s| >= 2 && s[0] == '_' && IsDigit(s[1]) && DigitTail(s[2..]))
  }

  /** The digits of a Python integer literal in base 10:
      digit (["_"] digit)*, single underscores between digits. */
  predicate ValidDigits(s: string) {
    |s| > 0 && IsDigit(s[0]) && DigitTail(s[1..])
  }

  /** The value of the digits of s, every other character contributing
      nothing. */
  function DigitsValue(s: string): nat {
    if |s| == 0 then 0
    else if IsDigit(s[|s| - 1]) then DigitsValue(s[..|s| - 1]) * 10 + (s[|s| - 1] as int - '0' as int)
    else DigitsValue(s[..|s| - 1])
  }

  /** int(text) in base 10: surrounding whitespace stripped, an optional
      sign, then valid digits; None where Python raises ValueError. */
  function ParseInt(text: string): Option<int> {
    var t := Strip(text);
    if |t| > 0 && (t[0] == '+' || t[0] == '-') then
      if ValidDigits(t[1..]) then
        var v: int := DigitsValue(t[1..]);
        Some(if t[0] == '-' then -v else v)
      else None
    else if ValidDigits(t) then Some(DigitsValue(t))
    else None
  }

  function DigitChar(d: nat): (c: char)
    requires d < 10
    ensures IsDigit(c) && c as int - '0' as int == d
  {
    ('0' as int + d) as char
  }

  /** The decimal digits of n, most significant first. */
  function NatText(n: nat): (s: string)
    ensures |s| > 0
  {
    if n < 10 then [DigitChar(n)] else NatText(n / 10) + [DigitChar(n % 10)]
  }

  /** f"{n}": the decimal text of an int, with '-' before a negative
      value. */
  function IntText(n: int): string {
    if n < 0 then "-" + NatText(-n) else NatText(n)
  }

  /** A digit run stays one with a digit appended. */
  lemma {:induction false} DigitTailSnoc(s: string, d: char)
    requires DigitTail(s) && IsDigit(d)
    ensures DigitTail(s + [d])
    decreases |s|
  {
    if |s| > 0 {
      if IsDigit(s[0]) && DigitTail(s[1..]) {
        DigitTailSnoc(s[1..], d);
        assert (s + [d])[1..] == s[1..] + [d];
      } else {
        DigitTailSnoc(s[2..], d);
        assert (s + [d])[2..] == s[2..] + [d];
      }
    } else {
      assert [d][1..] == [];
    }
  }

  /** The decimal text is all digits, a valid literal, with no leading
      zero. */
  lemma {:induction false} NatTextDigits(n: nat)
    ensures forall i :: 0 <= i < |NatText(n)| ==> IsDigit(NatText(n)[i])
    ensures ValidDigits(NatText(n))
    ensures |NatText(n)| > 1 ==> NatText(n)[0] != '0'
  {
    var s := NatText(n);
    if n < 10 {
      assert s[1..] == [];
    } else {
      var front := NatText(n / 10);
      NatTextDigits(n / 10);
      assert s == front + [DigitChar(n % 10)];
      DigitTailSnoc(front[1..], DigitChar(n % 10));
      assert s[1..] == front[1..] + [DigitChar(n % 10)];
      forall i | 0 <= i < |s|
        ensures IsDigit(s[i])
      {
        if i < |front| {
          assert s[i] == front[i];
        }
      }
      assert s[0] == front[0];
    }
  }

  lemma {:induction false} NatTextValue(n: nat)
    ensures DigitsValue(NatText(n)) == n
  {
    if n >= 10 {
      var s := NatText(n);
      assert s[..|s| - 1] == NatText(n / 10);
      NatTextValue(n / 10);
    } else {
      assert NatText(n)[..0] == [];
    }
  }

  /** int(f"{n}") == n for every int n. */
  lemma ParseIntText(n: int)
    ensures ParseInt(IntText(n)) == Some(n)
  {
    if n < 0 {
      ParseIntNegative(n);
    } else {
      ParseIntNat(n);
    }
  }

  lemma ParseIntNat(n: nat)
    ensures ParseInt(NatText(n)) == Some(n)
  {
    var s := NatText(n);
    NatTextDigits(n);
    NatTextValue(n);
    assert IsDigit(s[0]) && IsDigit(s[|s| - 1]);
    StripFixed(s);
  }

  lemma ParseIntNegative(n: int)
    requires n < 0
    ensures ParseInt("-" + NatText(-n)) == Some(n)
  {
    var t := NatText(-n);
    var s := "-" + t;
    NatTextDigits(-n);
    NatTextValue(-n);
    assert s[0] == '-' && s[1..] == t;
    assert s[|s| - 1] == t[|t| - 1];
    assert IsDigit(t[|t| - 1]);
    StripFixed(s);
  }

  /** int() strips its argument first, so whitespace around a number,
      such as the line end of a reply, never matters. */
  lemma ParseIntIgnoresSpace(text: string)
    ensures ParseInt(text) == ParseInt(Strip(text))
  {
    StripIdempotent(text);
  }
}
