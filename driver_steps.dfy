/** The steps of the Python drivers that are plain computation inside a
    method: the list comprehension of _get_term_nos and the
    bool(int(answer)) of get_input and get_output. Both driver classes
    use them. */
module DriverSteps {
  import opened Wrappers
  import opened PyText
  import opened DriverProtocol

  /** The list comprehension in _get_term_nos, read one piece at a time:
      the pieces so far all parse exactly when the longer list does up to
      its last piece. */
  lemma {:induction false} ParseAllSnoc(pieces: seq<string>, piece: string)
    ensures ParseAll(pieces + [piece]) ==
              if ParseAll(pieces).Some? && ParseInt(piece).Some?
              then Some(ParseAll(pieces).value + [ParseInt(piece).value])
              else None
    decreases |pieces|
  {
    if |pieces| > 0 {
      assert pieces + [piece] == [pieces[0]] + (pieces[1..] + [piece]);
      ParseAllSnoc(pieces[1..], piece);
      assert pieces == [pieces[0]] + pieces[1..];
      if ParseAll(pieces).Some? && ParseInt(piece).Some? {
        ParseAllCons(pieces[0], pieces[1..]);
        ParseAllCons(pieces[0], pieces[1..] + [piece]);
        assert [ParseAll(pieces).value[0]] + (ParseAll(pieces[1..]).value + [ParseInt(piece).value]) ==
               ParseAll(pieces).value + [ParseInt(piece).value];
      }
    } else {
      assert pieces + [piece] == [piece] + [];
      assert ParseAll([]) == Some([]);
      if ParseInt(piece).Some? {
        ParseAllCons(piece, []);
        assert [ParseInt(piece).value] + [] == [] + [ParseInt(piece).value];
      }
    }
  }

  /** The list comprehension of _get_term_nos, int() applied to each
      piece in turn; None where int() raises. */
  method ParsePieces(pieces: seq<string>) returns (r: Option<seq<int>>)
    ensures r == ParseAll(pieces)
  {
    var values: seq<int> := [];
    for i := 0 to |pieces|
      invariant ParseAll(pieces[..i]) == Some(values)
    {
      var x := ParseInt(pieces[i]);
      ParseAllSnoc(pieces[..i], pieces[i]);
      assert pieces[..i + 1] == pieces[..i] + [pieces[i]];
      if x.None? {
        ParseAllMeaning(pieces);
        return None;
      }
      values := values + [x.value];
    }
    assert pieces[..|pieces|] == pieces;
    return Some(values);
  }

  /** bool(int(answer)) on an answer _ask returned or an error it
      raised. */
  method AnswerToBool(answer: Outcome<string>) returns (r: Outcome<bool>)
    ensures forall p :: Exchange(r, p) == AnswerBool(Exchange(answer, p))
  {
    if answer.Err? {
      return Err(answer.error);
    }
    var v := ParseInt(answer.value);
    if v.None? {
      return Err(ValueError(answer.value));
    }
    return Ok(v.value != 0);
  }
}
