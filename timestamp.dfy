/** `timestamp_to_seconds` and the timestamp grammar of tracklist lines. */
module Timestamp {
  import opened Wrappers
  import opened Text

  /** The two `ValueError`s the conversion can raise. */
  datatype TimestampError =
    | InvalidFormat(timestamp: string)  // neither two nor three `:`-separated fields
    | InvalidLiteral(field: string)     // a field that `int()` rejects

  /** The timestamp group of the tracklist pattern, `\d+:\d+(?::\d+)?`, over ASCII digits. */
  predicate IsTimestampShape(t: string) {
    var a := LeadingDigits(t);
    0 < a < |t| && t[a] == ':' &&
    var rest := t[a + 1..];
    var b := LeadingDigits(rest);
    0 < b && (b == |rest| || (rest[b] == ':' && var tail := rest[b + 1..]; 0 < LeadingDigits(tail) == |tail|))
  }

  /** A timestamp is made of ASCII digits and colons, and starts with a digit. */
  lemma ShapeChars(t: string)
    requires IsTimestampShape(t)
    ensures t != [] && IsDigit(t[0])
    ensures forall j :: 0 <= j < |t| ==> IsDigit(t[j]) || t[j] == ':'
  {
    var a := LeadingDigits(t);
    var rest := t[a + 1..];
    var b := LeadingDigits(rest);
    assert t[..a][0] == t[0];
    forall j | 0 <= j < |t| ensures IsDigit(t[j]) || t[j] == ':' {
      if j < a {
        assert t[..a][j] == t[j];
      } else if j > a {
        var i := j - a - 1;
        assert rest[i] == t[j];
        if i < b {
          assert rest[..b][i] == rest[i];
        } else if i > b {
          var tail := rest[b + 1..];
          assert tail[..|tail|][i - b - 1] == rest[i];
        }
      }
    }
  }

  /** No character of a timestamp is whitespace. */
  lemma ShapeHasNoSpace(t: string)
    requires IsTimestampShape(t)
    ensures forall j :: 0 <= j < |t| ==> !IsSpace(t[j])
  {
    ShapeChars(t);
  }

  /** `int(field)`: a decimal literal, or `ValueError`. */
  function IntField(field: string): (r: Result<nat, TimestampError>)
    ensures r.Ok? <==> field != [] && IsDigits(field)
    ensures r.Ok? ==> r.value == DigitsValue(field)
    ensures r.Err? ==> r.error == InvalidLiteral(field)
  {
    match ParseNat(field)
    case Some(v) => Ok(v)
    case None => Err(InvalidLiteral(field))
  }

  /** The two-field case: minutes then seconds, converted left to right. */
  function MinutesSeconds(m: string, s: string): Result<nat, TimestampError> {
    var minutes :- IntField(m);
    var seconds :- IntField(s);
    Ok(minutes * 60 + seconds)
  }

  /** The three-field case: hours, minutes, then seconds, converted left to right. */
  function HoursMinutesSeconds(h: string, m: string, s: string): Result<nat, TimestampError> {
    var hours :- IntField(h);
    var minutes :- IntField(m);
    var seconds :- IntField(s);
    Ok(hours * 3600 + minutes * 60 + seconds)
  }

  /**
    `timestamp_to_seconds`: `m:s` is `m*60+s`, `h:m:s` is `h*3600+m*60+s`, any other field count
    raises; the fields are converted left to right, so the first bad one is reported.
   */
  function TimestampToSeconds(timestamp: string): Result<nat, TimestampError> {
    var parts := Split(timestamp, ':');
    if |parts| == 2 then MinutesSeconds(parts[0], parts[1])
    else if |parts| == 3 then HoursMinutesSeconds(parts[0], parts[1], parts[2])
    else Err(InvalidFormat(timestamp))
  }

  /** Two decimal literals as minutes and seconds. */
  lemma MinutesSecondsOk(m: string, s: string)
    requires m != [] && IsDigits(m) && s != [] && IsDigits(s)
    ensures MinutesSeconds(m, s) == Ok(DigitsValue(m) * 60 + DigitsValue(s))
  {
  }

  /** Three decimal literals as hours, minutes and seconds. */
  lemma HoursMinutesSecondsOk(h: string, m: string, s: string)
    requires h != [] && IsDigits(h) && m != [] && IsDigits(m) && s != [] && IsDigits(s)
    ensures HoursMinutesSeconds(h, m, s) == Ok(DigitsValue(h) * 3600 + DigitsValue(m) * 60 + DigitsValue(s))
  {
  }

  /** Two fields are converted as minutes and seconds. */
  lemma TwoFieldCase(t: string)
    requires |Split(t, ':')| == 2
    ensures TimestampToSeconds(t) == MinutesSeconds(Split(t, ':')[0], Split(t, ':')[1])
  {
  }

  /** Three fields are converted as hours, minutes and seconds. */
  lemma ThreeFieldCase(t: string)
    requires |Split(t, ':')| == 3
    ensures TimestampToSeconds(t) == HoursMinutesSeconds(Split(t, ':')[0], Split(t, ':')[1], Split(t, ':')[2])
  {
  }

  /** Converting a string that splits into two decimal literals. */
  lemma ConvertTwo(t: string, m: string, s: string)
    requires m != [] && IsDigits(m) && s != [] && IsDigits(s)
    requires Split(t, ':') == [m, s]
    ensures TimestampToSeconds(t) == Ok(DigitsValue(m) * 60 + DigitsValue(s))
  {
    TwoFieldCase(t);
    MinutesSecondsOk(m, s);
  }

  /** Converting a string that splits into three decimal literals. */
  lemma ConvertThree(t: string, h: string, m: string, s: string)
    requires h != [] && IsDigits(h) && m != [] && IsDigits(m) && s != [] && IsDigits(s)
    requires Split(t, ':') == [h, m, s]
    ensures TimestampToSeconds(t) == Ok(DigitsValue(h) * 3600 + DigitsValue(m) * 60 + DigitsValue(s))
  {
    ThreeFieldCase(t);
    HoursMinutesSecondsOk(h, m, s);
  }

  /** A two-field timestamp means minutes and seconds, with no bound on either field. */
  lemma TwoFields(m: string, s: string)
    requires m != [] && IsDigits(m) && s != [] && IsDigits(s)
    ensures TimestampToSeconds(m + ":" + s) == Ok(DigitsValue(m) * 60 + DigitsValue(s))
  {
    var t := m + ":" + s;
    assert Join([m, s], ':') == t;
    SplitJoin([m, s], ':');
    ConvertTwo(t, m, s);
  }

  /** A three-field timestamp means hours, minutes and seconds, with no bound on any field. */
  lemma ThreeFields(h: string, m: string, s: string)
    requires h != [] && IsDigits(h) && m != [] && IsDigits(m) && s != [] && IsDigits(s)
    ensures TimestampToSeconds(h + ":" + m + ":" + s) ==
            Ok(DigitsValue(h) * 3600 + DigitsValue(m) * 60 + DigitsValue(s))
  {
    var t := h + ":" + m + ":" + s;
    var parts := [h, m, s];
    assert parts[1..] == [m, s];
    assert Join([m, s], ':') == m + ":" + s;
    assert Join(parts, ':') == h + [':'] + (m + ":" + s);
    assert t == h + [':'] + (m + ":" + s);
    SplitJoin(parts, ':');
    ConvertThree(t, h, m, s);
  }

  /** Any number of `:` other than one or two is a format error, whatever the fields hold. */
  lemma WrongFieldCount(t: string)
    requires Count(t, ':') != 1 && Count(t, ':') != 2
    ensures TimestampToSeconds(t) == Err(InvalidFormat(t))
  {
    JoinSplit(t, ':');
  }

  /** A digit-only field of `t` split at the first non-digit. */
  lemma {:induction false} FieldAtStart(t: string, field: string, rest: string)
    requires IsDigits(field) && t == field + rest && (rest == [] || rest[0] == ':')
    ensures LeadingDigits(t) == |field|
  {
    LeadingDigitsOf(field, rest);
  }

  /** Two digit fields around one `:` have the timestamp shape. */
  lemma TwoFieldShape(a: string, b: string)
    requires a != [] && IsDigits(a) && b != [] && IsDigits(b)
    ensures IsTimestampShape(a + ":" + b)
  {
    var t := a + ":" + b;
    FieldAtStart(t, a, ":" + b);
    assert t[|a| + 1..] == b;
    FieldAtStart(b, b, []);
  }

  /** Three digit fields separated by `:` have the timestamp shape. */
  lemma ThreeFieldShape(a: string, b: string, c: string)
    requires a != [] && IsDigits(a) && b != [] && IsDigits(b) && c != [] && IsDigits(c)
    ensures IsTimestampShape(a + ":" + (b + ":" + c))
  {
    var rest := b + ":" + c;
    var t := a + ":" + rest;
    FieldAtStart(t, a, ":" + rest);
    assert t[|a| + 1..] == rest;
    FieldAtStart(rest, b, ":" + c);
    assert rest[|b| + 1..] == c;
    FieldAtStart(c, c, []);
  }

  /** `Join` of two or three fields written out. */
  lemma JoinFew(parts: seq<string>, sep: char)
    requires 2 <= |parts| <= 3
    ensures |parts| == 2 ==> Join(parts, sep) == parts[0] + [sep] + parts[1]
    ensures |parts| == 3 ==> Join(parts, sep) == parts[0] + [sep] + (parts[1] + [sep] + parts[2])
  {
    if |parts| == 3 {
      assert parts[1..][1..] == [parts[2]];
    }
  }

  /** Every string the conversion accepts has the timestamp shape. */
  lemma {:induction false} ConvertedHasShape(t: string)
    requires TimestampToSeconds(t).Ok?
    ensures IsTimestampShape(t)
  {
    var parts := Split(t, ':');
    JoinSplit(t, ':');
    JoinFew(parts, ':');
    if |parts| == 2 {
      assert IntField(parts[0]).Ok? && IntField(parts[1]).Ok?;
      TwoFieldShape(parts[0], parts[1]);
    } else {
      assert IntField(parts[0]).Ok? && IntField(parts[1]).Ok? && IntField(parts[2]).Ok?;
      ThreeFieldShape(parts[0], parts[1], parts[2]);
    }
  }

  /** Every string of the timestamp shape converts. */
  lemma {:induction false} ShapeConverts(t: string)
    requires IsTimestampShape(t)
    ensures TimestampToSeconds(t).Ok?
  {
    var a := LeadingDigits(t);
    var rest := t[a + 1..];
    var b := LeadingDigits(rest);
    var first := t[..a];
    assert t == first + [':'] + rest;
    if b == |rest| {
      assert rest[..b] == rest;
      assert Join([first, rest], ':') == t;
      SplitJoin([first, rest], ':');
      ConvertTwo(t, first, rest);
    } else {
      var second := rest[..b];
      var tail := rest[b + 1..];
      assert rest == second + [':'] + tail;
      assert tail[..|tail|] == tail;
      var parts := [first, second, tail];
      assert parts[1..] == [second, tail];
      assert Join([second, tail], ':') == rest;
      assert Join(parts, ':') == t;
      SplitJoin(parts, ':');
      ConvertThree(t, first, second, tail);
    }
  }

  /** The conversion succeeds exactly on the strings the tracklist pattern admits as timestamps. */
  lemma ConvertsIffShape(t: string)
    ensures TimestampToSeconds(t).Ok? <==> IsTimestampShape(t)
  {
    if TimestampToSeconds(t).Ok? { ConvertedHasShape(t); }
    if IsTimestampShape(t) { ShapeConverts(t); }
  }
}
