/** The `since` query parameter of the listing endpoint: a fixed-position rewrite
    of the timezone offset, then a parse that falls back to "no filter".

    The parser (`strptime` with the configured pattern) is a parameter: a total
    function that answers None where Python raises ValueError. */
module Since {
  import opened Wrappers
  import Py

  /** The exception a `since` too short to index raises; `except ValueError` does not catch it. */
  datatype PyError = IndexError

  function Max(a: int, b: int): int {
    if a >= b then a else b
  }

  /** The rewrite exactly as written: when the third character from the end is a
      colon, remove it, then replace the two characters before the last four with `+`. */
  function RewriteAsWritten(s: string): (r: Result<string, PyError>)
    ensures r.Failure? <==> |s| < 3
    ensures |s| >= 3 && s[|s| - 3] != ':' ==> r == Success(s)
  {
    match Py.At(s, -3)
    case None => Failure(IndexError)
    case Some(c) =>
      if c == ':' then
        var t := Py.Take(s, -3) + Py.Drop(s, -2);
        Success(Py.Take(t, -6) + "+" + Py.Drop(t, -4))
      else Success(s)
  }

  /** With a colon in third-to-last place the rewrite removes the colon, forces the
      sign to `+` and drops the character before the sign (for a full timestamp,
      the last fractional-second digit). */
  lemma RewriteAsWrittenEffect(s: string)
    requires |s| >= 3 && s[|s| - 3] == ':'
    ensures |s| >= 7 ==>
      RewriteAsWritten(s) == Success(s[..|s| - 7] + "+" + s[|s| - 5..|s| - 3] + s[|s| - 2..])
    ensures |s| < 7 ==>
      RewriteAsWritten(s) == Success("+" + s[Max(0, |s| - 5)..|s| - 3] + s[|s| - 2..])
  {
    var n := |s|;
    var a, b := s[..n - 3], s[n - 2..];
    var t := a + b;
    assert Py.At(s, -3) == Some(':');
    assert Py.Take(s, -3) == a && Py.Drop(s, -2) == b;
    assert RewriteAsWritten(s) == Success(Py.Take(t, -6) + "+" + Py.Drop(t, -4));
    assert Py.Drop(t, -4) == s[Max(0, n - 5)..n - 3] + b by {
      assert t[Max(0, n - 5)..] == a[Max(0, n - 5)..] + b;
    }
    if n >= 7 {
      assert Py.Take(t, -6) == s[..n - 7] by {
        assert t[..n - 7] == a[..n - 7];
      }
      assert Max(0, n - 5) == n - 5;
      var x := s[n - 5..n - 3];
      assert RewriteAsWritten(s) == Success(s[..n - 7] + "+" + (x + b));
      assert s[..n - 7] + "+" + (x + b) == s[..n - 7] + "+" + x + b;
    } else {
      assert Py.Take(t, -6) == [];
      var x := s[Max(0, n - 5)..n - 3];
      assert RewriteAsWritten(s) == Success([] + "+" + (x + b));
      assert [] + "+" + (x + b) == "+" + x + b;
    }
  }

  /** Stated on the parts of a timestamp: the digit `d` before the offset is lost. */
  lemma RewriteAsWrittenLosesDigit(body: string, d: char, sign: char, hh: string, mm: string)
    requires |hh| == 2 && |mm| == 2
    ensures RewriteAsWritten(body + [d, sign] + hh + ":" + mm) == Success(body + "+" + hh + mm)
  {
    var s := body + [d, sign] + hh + ":" + mm;
    var n := |s|;
    RewriteAsWrittenEffect(s);
    assert s[..n - 7] == body;
    assert s[n - 5..n - 3] == hh;
    assert s[n - 2..] == mm;
  }

  /** The rewrite evidently intended: replace the offset `±HH:MM` by `+HHMM` and keep
      everything before it, fractional seconds included. */
  function Rewrite(s: string): (r: string)
    ensures |s| >= 6 && s[|s| - 3] == ':' ==> |r| == |s| - 1 && r[..|s| - 6] == s[..|s| - 6]
    ensures !(|s| >= 6 && s[|s| - 3] == ':') ==> r == s
  {
    if |s| >= 6 && s[|s| - 3] == ':' then
      s[..|s| - 6] + "+" + s[|s| - 5..|s| - 3] + s[|s| - 2..]
    else s
  }

  /** The intended rewrite on the parts of a timestamp: only the offset changes. */
  lemma {:induction false} RewriteReplacesOffset(body: string, sign: char, hh: string, mm: string)
    requires |hh| == 2 && |mm| == 2
    ensures Rewrite(body + [sign] + hh + ":" + mm) == body + "+" + hh + mm
  {
    var s := body + [sign] + hh + ":" + mm;
    var n := |s|;
    assert s[n - 3] == ':';
    assert s[..n - 6] == body;
    assert s[n - 5..n - 3] == hh;
    assert s[n - 2..] == mm;
  }

  /** Where both rewrite, the code as written is the intended rewrite minus one character. */
  lemma AsWrittenDropsOneCharacter(s: string)
    requires |s| >= 7 && s[|s| - 3] == ':'
    ensures var r := Rewrite(s);
      RewriteAsWritten(s) == Success(r[..|s| - 7] + r[|s| - 6..])
  {
    var n := |s|;
    var r := Rewrite(s);
    RewriteAsWrittenEffect(s);
    assert r[..n - 7] == s[..n - 7];
    assert r[n - 6..] == "+" + s[n - 5..n - 3] + s[n - 2..];
    assert r[..n - 7] + r[n - 6..] == s[..n - 7] + "+" + s[n - 5..n - 3] + s[n - 2..];
  }

  /** A full timestamp with microseconds loses its last digit as written. */
  lemma AsWrittenExample()
    ensures RewriteAsWritten("2024-01-01 00:00:00.123456+02:00") == Success("2024-01-01 00:00:00.12345+0200")
    ensures Rewrite("2024-01-01 00:00:00.123456+02:00") == "2024-01-01 00:00:00.123456+0200"
  {
    RewriteAsWrittenLosesDigit("2024-01-01 00:00:00.12345", '6', '+', "02", "00");
    RewriteReplacesOffset("2024-01-01 00:00:00.123456", '+', "02", "00");
    assert "2024-01-01 00:00:00.12345" + ['6', '+'] + "02" + ":" + "00" == "2024-01-01 00:00:00.123456+02:00";
    assert "2024-01-01 00:00:00.123456" + ['+'] + "02" + ":" + "00" == "2024-01-01 00:00:00.123456+02:00";
    assert "2024-01-01 00:00:00.12345" + "+" + "02" + "00" == "2024-01-01 00:00:00.12345+0200";
    assert "2024-01-01 00:00:00.123456" + "+" + "02" + "00" == "2024-01-01 00:00:00.123456+0200";
  }

  /** The floor as the code computes it: absent when no `since` was given or when it
      does not parse; a `since` shorter than three characters raises instead; with
      an offset, what is parsed is the text as rewritten, one digit short. */
  function NormaliseAsWritten(since: Option<string>, parse: string -> Option<int>): (r: Result<Option<int>, PyError>)
    ensures since.None? ==> r == Success(None)
    ensures r.Failure? <==> since.Some? && |since.value| < 3
    ensures since.Some? && |since.value| >= 3 && since.value[|since.value| - 3] != ':' ==> r == Success(parse(since.value))
    ensures since.Some? && |since.value| >= 7 && since.value[|since.value| - 3] == ':' ==>
      var s := since.value;
      r == Success(parse(s[..|s| - 7] + "+" + s[|s| - 5..|s| - 3] + s[|s| - 2..]))
  {
    match since
    case None => Success(None)
    case Some(s) =>
      match RewriteAsWritten(s)
      case Failure(e) => Failure(e)
      case Success(t) =>
        OffsetRewritten(s);
        Success(parse(t))
  }

  lemma OffsetRewritten(s: string)
    ensures |s| >= 7 && s[|s| - 3] == ':' ==>
      RewriteAsWritten(s) == Success(s[..|s| - 7] + "+" + s[|s| - 5..|s| - 3] + s[|s| - 2..])
  {
    if |s| >= 7 && s[|s| - 3] == ':' {
      RewriteAsWrittenEffect(s);
    }
  }

  /** An empty `since` (`?since=`) fails the request rather than dropping the filter. */
  lemma EmptySinceFails(parse: string -> Option<int>)
    ensures NormaliseAsWritten(Some(""), parse) == Failure(IndexError)
  {
  }

  /** The floor as intended: every `since` that does not parse disables the filter,
      and none fails the request. */
  function Normalise(since: Option<string>, parse: string -> Option<int>): (r: Option<int>)
    ensures since.None? ==> r.None?
    ensures since.Some? ==> r == parse(Rewrite(since.value))
    ensures since.Some? && |since.value| >= 6 && since.value[|since.value| - 3] == ':' ==>
      var s := since.value;
      r == parse(s[..|s| - 6] + "+" + s[|s| - 5..|s| - 3] + s[|s| - 2..])
  {
    match since
    case None => None
    case Some(s) => parse(Rewrite(s))
  }

  /** The intended floor agrees with the code wherever no offset is rewritten, and
      a `since` too short to index is handed to the parser like any other text. */
  lemma NormaliseAgreesWithoutOffset(s: string, parse: string -> Option<int>)
    requires |s| < 3 || s[|s| - 3] != ':'
    ensures Normalise(Some(s), parse) == parse(s)
    ensures |s| >= 3 ==> NormaliseAsWritten(Some(s), parse) == Success(Normalise(Some(s), parse))
  {
  }

  /** On every `since` that carries an offset and is long enough to hold a time, the
      code parses the intended text with the character before the sign removed. */
  lemma FloorAsWrittenVsIntended(s: string, parse: string -> Option<int>)
    requires |s| >= 7 && s[|s| - 3] == ':'
    ensures var r := Rewrite(s);
      && Normalise(Some(s), parse) == parse(r)
      && NormaliseAsWritten(Some(s), parse) == Success(parse(r[..|s| - 7] + r[|s| - 6..]))
  {
    AsWrittenDropsOneCharacter(s);
  }
}
