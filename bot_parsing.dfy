// Reading a rating and a title with an optional year out of chat text. Each
// regular expression of the bot is written out as the positions it matches:
// `\d` is an ASCII digit, `\s` is `IsSpace`, and `.` is any character but a
// newline, so a `(.*)$` group cannot span lines.
module BotParsing {
  import opened Wrappers
  import opened Text

  datatype ParsedRating = ParsedRating(rating: real, restText: string)

  predicate NoNewline(s: string)
  {
    forall i :: 0 <= i < |s| ==> s[i] != '\n'
  }

  // The index of the first non-space character at or after i (what `\s*` skips).
  function SkipSpace(t: string, i: nat): (p: nat)
    requires i <= |t|
    ensures i <= p <= |t| && TrimLeft(t[i..]) == t[p..]
  {
    TrimLeftShape(t[i..]);
    |t| - |TrimLeft(t[i..])|
  }

  // `\d(?:[.,]\d)?` at the start of t: its value in tenths and its length. The
  // long form is the only one that can lead to a match when it is there: after
  // the short form the next character is '.' or ',', which none of the three
  // patterns accepts.
  function LeadingNumber(t: string): (r: Option<(nat, nat)>)
    ensures r.Some? ==> r.value.0 <= 99 && 1 <= r.value.1 <= |t|
  {
    if |t| >= 1 && IsDigit(t[0]) then
      if |t| >= 3 && (t[1] == '.' || t[1] == ',') && IsDigit(t[2]) then Some((10 * DigitValue(t[0]) + DigitValue(t[2]), 3))
      else Some((10 * DigitValue(t[0]), 1))
    else None
  }

  // `round(rating * 2) / 2` for a rating of `tenths` tenths; a tenth times two
  // is a fifth, so no value lies half-way and rounding is to the nearest half.
  function Halves(tenths: nat): (h: nat)
    ensures 5 * h <= tenths + 2 && tenths <= 5 * h + 2
  {
    (2 * tenths + 5) / 10
  }

  function RatingOf(tenths: nat): (r: real)
    ensures tenths <= 50 ==> 0.0 <= r <= 5.0
  {
    Halves(tenths) as real / 2.0
  }

  // `\s*/\s*5\s*(.*)$` after the number: where the rest starts, if it matches.
  function SlashFiveRest(t: string, n: nat): (r: Option<nat>)
    requires n <= |t|
    ensures r.Some? ==> n < r.value <= |t|
  {
    var p := SkipSpace(t, n);
    if p < |t| && t[p] == '/' then
      var q := SkipSpace(t, p + 1);
      if q < |t| && t[q] == '5' then
        var s := SkipSpace(t, q + 1);
        if NoNewline(t[s..]) then Some(s) else None
      else None
    else None
  }

  // `\s+(.*)$` after the number.
  function SpaceRest(t: string, n: nat): (r: Option<nat>)
    requires n <= |t|
    ensures r.Some? ==> n < r.value <= |t|
  {
    if n < |t| && IsSpace(t[n]) then
      var s := SkipSpace(t, n + 1);
      if NoNewline(t[s..]) then Some(s) else None
    else None
  }

  // The text after position i, stripped: `m.group(2).strip()`.
  function RestFrom(t: string, i: nat): (r: string)
    requires i <= |t|
    ensures Strip(r) == r
  {
    StripIdempotent(t[i..]);
    Strip(t[i..])
  }

  // The three patterns of `parse_rating_from_text`, tried in order on the
  // stripped text t.
  function RatingIn(t: string): (r: Option<ParsedRating>)
    ensures r.Some? ==> var num := LeadingNumber(t);
      num.Some? && num.value.0 <= 50 && r.value.rating == RatingOf(num.value.0)
    ensures r.Some? ==> Strip(r.value.restText) == r.value.restText
  {
    match LeadingNumber(t)
    case None => None
    case Some((v, n)) =>
      if v > 50 then None
      else
        var slash := SlashFiveRest(t, n);
        if slash.Some? then Some(ParsedRating(RatingOf(v), RestFrom(t, slash.value)))
        else
          var spaced := SpaceRest(t, n);
          if spaced.Some? then Some(ParsedRating(RatingOf(v), RestFrom(t, spaced.value)))
          else if AllSpace(t[n..]) then Some(ParsedRating(RatingOf(v), ""))
          else None
  }

  // `parse_rating_from_text`: a rating is the leading number of the stripped
  // text, at most 5, rounded to the nearest half; the text after it is trimmed.
  function ParseRating(text: string): (r: Option<ParsedRating>)
    ensures Strip(text) == [] ==> r == None
    ensures r.Some? ==> 0.0 <= r.value.rating <= 5.0 && WholeHalves(r.value.rating)
    ensures r.Some? ==> var num := LeadingNumber(Strip(text));
      num.Some? && num.value.0 <= 50 && r.value.rating == RatingOf(num.value.0)
    ensures r.Some? ==> Strip(r.value.restText) == r.value.restText
  {
    var t := Strip(text);
    if t == [] then None
    else
      var r := RatingIn(t);
      if r.Some? then HalfStep(LeadingNumber(t).value.0); r else r
  }

  // x is a whole number of halves.
  predicate WholeHalves(x: real)
  {
    (x * 2.0).Floor as real == x * 2.0
  }

  // A rounded rating is a whole number of halves.
  lemma HalfStep(tenths: nat)
    ensures WholeHalves(RatingOf(tenths))
  {
    var h := Halves(tenths);
    assert RatingOf(tenths) == h as real / 2.0;
    assert RatingOf(tenths) * 2.0 == h as real;
    assert (h as real).Floor == h;
  }

  // A rating as the chat writes it: a digit, or a digit, '.' or ',' and a digit.
  predicate RatingText(num: string)
  {
    || (|num| == 1 && IsDigit(num[0]))
    || (|num| == 3 && IsDigit(num[0]) && (num[1] == '.' || num[1] == ',') && IsDigit(num[2]))
  }

  // Its value in tenths.
  function TenthsOf(num: string): nat
    requires RatingText(num)
  {
    if |num| == 1 then 10 * DigitValue(num[0]) else 10 * DigitValue(num[0]) + DigitValue(num[2])
  }

  // The number is read whole when the character after it is not '.' or ','.
  lemma LeadingNumberOf(num: string, u: string)
    requires RatingText(num) && (u == [] || (u[0] != '.' && u[0] != ','))
    ensures LeadingNumber(num + u) == Some((TenthsOf(num), |num|))
  {
    var t := num + u;
    assert t[0] == num[0];
    if |num| == 3 {
      assert t[1] == num[1] && t[2] == num[2];
    } else if |t| >= 2 {
      assert t[1] == u[0];
    }
  }

  // A non-blank stripped text is read by the three patterns.
  lemma ParseRatingIsRatingIn(text: string)
    requires Strip(text) != []
    ensures ParseRating(text) == RatingIn(Strip(text))
  {
  }

  // Stripping a text that opens with a number only trims its tail.
  lemma StripAfterNumber(num: string, b: string)
    requires RatingText(num)
    ensures Strip(num + b) == num + TrimRight(b)
  {
    var text := num + b;
    assert text[0] == num[0] && !IsSpace(text[0]);
    assert TrimLeft(text) == text;
    TrimRightAppend(num, b);
  }

  // `\s*/\s*5\s*` right after position n, where t has "/5": the rest starts
  // where the blanks after "/5" end.
  lemma SlashFiveRestAt(t: string, n: nat)
    requires n + 2 <= |t| && t[n] == '/' && t[n + 1] == '5' && NoNewline(TrimLeft(t[n + 2..]))
    ensures SlashFiveRest(t, n) == Some(SkipSpace(t, n + 2))
  {
    assert t[n..][0] == '/';
    assert SkipSpace(t, n) == n;
    assert t[n + 1..][0] == '5';
    assert SkipSpace(t, n + 1) == n + 1;
  }

  // The slash pattern on "r/5" and a trimmed tail.
  lemma SlashRatingIn(num: string, rest: string)
    requires RatingText(num) && TenthsOf(num) <= 50 && NoNewline(rest)
    ensures RatingIn(num + ("/5" + TrimRight(rest))) == Some(ParsedRating(RatingOf(TenthsOf(num)), Strip(rest)))
  {
    var u := TrimRight(rest);
    var t := num + ("/5" + u);
    var n := |num|;
    LeadingNumberOf(num, "/5" + u);
    assert t[n] == '/' && t[n + 1] == '5';
    assert t[n + 2..] == u;
    TrimLeftTrimRight(rest);
    StripKeepsNoNewline(rest);
    SlashFiveRestAt(t, n);
    StripIdempotent(rest);
  }

  // "r/5" followed by any single-line text: the rating is r rounded to the
  // nearest half, and the text is what follows, trimmed.
  lemma ParseRatingSlashRest(num: string, rest: string)
    requires RatingText(num) && TenthsOf(num) <= 50 && NoNewline(rest)
    ensures ParseRating(num + "/5" + rest) == Some(ParsedRating(RatingOf(TenthsOf(num)), Strip(rest)))
  {
    var b := "/5" + rest;
    assert num + "/5" + rest == num + b;
    StripAfterNumber(num, b);
    assert b[|"/5"| - 1] == '5';
    TrimRightAppend("/5", rest);
    SlashRatingIn(num, rest);
    ParseRatingIsRatingIn(num + b);
  }

  // What the trailing `rstrip` leaves after the number in "r" + ws + rest.
  lemma SpacedTail(ws: string, rest: string)
    requires ws != [] && AllSpace(ws)
    ensures var u := TrimRight(ws + rest);
      && TrimLeft(u) == Strip(rest)
      && (u == [] ==> Strip(rest) == [])
      && (u != [] ==> IsSpace(u[0]) && TrimLeft(rest) != [] && Strip(rest) != [] && Strip(rest)[0] == TrimLeft(rest)[0])
  {
    var b := ws + rest;
    var u := TrimRight(b);
    TrimLeftSpacePrefix(ws, rest);
    TrimLeftTrimRight(b);
    TrimRightShape(b);
    if u == [] {
      StripOfAllSpace([]);
    } else {
      assert u[0] == b[0] == ws[0];
      TrimLeftDropsSpace(u);
      assert u[..|u|] == u;
      assert TrimLeft(u) != [];
      TrimLeftShape(rest);
      TrimRightShape(TrimLeft(rest));
    }
  }

  // The spaced and the bare patterns on "r" and a trimmed tail of blanks and text.
  lemma SpacedRatingIn(num: string, ws: string, rest: string)
    requires RatingText(num) && TenthsOf(num) <= 50
    requires ws != [] && AllSpace(ws) && NoNewline(rest)
    requires TrimLeft(rest) == [] || TrimLeft(rest)[0] != '/'
    ensures RatingIn(num + TrimRight(ws + rest)) == Some(ParsedRating(RatingOf(TenthsOf(num)), Strip(rest)))
  {
    var u := TrimRight(ws + rest);
    var t := num + u;
    var n := |num|;
    SpacedTail(ws, rest);
    if u == [] {
      assert t == num;
      LeadingNumberOf(num, []);
      assert t[n..] == [];
    } else {
      LeadingNumberOf(num, u);
      assert t[n..] == u;
      assert TrimLeft(u) == TrimLeft(u[1..]);
      assert t[n + 1..] == u[1..];
      assert SlashFiveRest(t, n) == None;
      StripKeepsNoNewline(rest);
      assert SpaceRest(t, n) == Some(SkipSpace(t, n + 1));
      StripIdempotent(rest);
    }
  }

  // "r", whitespace and a single-line text that does not open with '/': the
  // rating is r rounded to the nearest half, and the text is the rest, trimmed
  // ("" when nothing but blanks follows the number).
  lemma ParseRatingSpacedRest(num: string, ws: string, rest: string)
    requires RatingText(num) && TenthsOf(num) <= 50
    requires ws != [] && AllSpace(ws) && NoNewline(rest)
    requires TrimLeft(rest) == [] || TrimLeft(rest)[0] != '/'
    ensures ParseRating(num + ws + rest) == Some(ParsedRating(RatingOf(TenthsOf(num)), Strip(rest)))
  {
    var b := ws + rest;
    assert num + ws + rest == num + b;
    StripAfterNumber(num, b);
    SpacedRatingIn(num, ws, rest);
    ParseRatingIsRatingIn(num + b);
  }

  // A leading number above 5 is refused whatever follows it ("7/5", "7 text").
  lemma ParseRatingOverFive(text: string)
    requires var t := Strip(text); LeadingNumber(t).Some? && LeadingNumber(t).value.0 > 50
    ensures ParseRating(text) == None
  {
  }

  // Text that does not start with a digit (once stripped) has no rating.
  lemma ParseRatingNeedsDigit(text: string)
    requires var t := Strip(text); t == [] || !IsDigit(t[0])
    ensures ParseRating(text) == None
  {
  }

  lemma StripOfPlain(s: string)
    requires s != [] && !IsSpace(s[0]) && !IsSpace(s[|s| - 1])
    ensures Strip(s) == s
  {
    StripNoSpaceEnds(s);
  }

  // "d/5 rest" gives the digit as the rating and the rest as the text.
  lemma ParseRatingSlashForm(d: nat, rest: string)
    requires d <= 5 && NoNewline(rest) && rest != [] && !IsSpace(rest[0]) && !IsSpace(rest[|rest| - 1])
    ensures ParseRating([DigitChar(d)] + "/5 " + rest) == Some(ParsedRating(d as real, rest))
  {
    var num := [DigitChar(d)];
    var tail := " " + rest;
    assert [DigitChar(d)] + "/5 " + rest == num + "/5" + tail;
    assert NoNewline(tail) by {
      assert forall i :: 1 <= i < |tail| ==> tail[i] == rest[i - 1];
    }
    assert RatingText(num) && TenthsOf(num) == 10 * d;
    ParseRatingSlashRest(num, tail);
    assert Strip(tail) == rest by {
      TrimLeftSpacePrefix(" ", rest);
      StripOfPlain(rest);
    }
    assert RatingOf(10 * d) == d as real by {
      assert 2 * (10 * d) + 5 == 10 * (2 * d) + 5;
      assert Halves(10 * d) == 2 * d;
    }
  }

  // A bare digit from 0 to 5 is a rating with no text.
  lemma ParseRatingBareDigit(d: nat)
    requires d <= 5
    ensures ParseRating([DigitChar(d)]) == Some(ParsedRating(d as real, ""))
  {
    var t := [DigitChar(d)];
    StripOfPlain(t);
    assert t[1..] == [];
  }

  // "d,e" and "d.e" read the decimal and round it to the nearest half.
  lemma ParseRatingDecimal(d: nat, e: nat, sep: char)
    requires d <= 4 && e <= 9 && (sep == '.' || sep == ',')
    ensures ParseRating([DigitChar(d), sep, DigitChar(e)]) == Some(ParsedRating(RatingOf(10 * d + e), ""))
  {
    var t := [DigitChar(d), sep, DigitChar(e)];
    StripOfPlain(t);
    assert t[3..] == [];
  }

  // The text after a rating never spans lines: a rating followed by more
  // lines of text is not recognised at all.
  lemma ParsedRestSingleLine(text: string)
    requires ParseRating(text).Some?
    ensures NoNewline(ParseRating(text).value.restText)
  {
    var t := Strip(text);
    var (v, n) := LeadingNumber(t).value;
    var slash := SlashFiveRest(t, n);
    var spaced := SpaceRest(t, n);
    if slash.Some? && v <= 50 {
      StripKeepsNoNewline(t[slash.value..]);
    } else if spaced.Some? && v <= 50 {
      StripKeepsNoNewline(t[spaced.value..]);
    }
  }

  lemma StripKeepsNoNewline(s: string)
    requires NoNewline(s)
    ensures NoNewline(Strip(s))
  {
    TrimLeftShape(s);
    var l := TrimLeft(s);
    TrimRightShape(l);
    assert forall i :: 0 <= i < |l| ==> l[i] == s[|s| - |l| + i];
  }

  // `(\d{4})` closing the text, and its value.
  predicate FourDigitsAt(t: string, i: nat)
  {
    i + 4 <= |t| && AllDigits(t[i..i + 4])
  }

  // `^(.*)\((\d{4})\)\s*$` on a stripped text: the title part and the year.
  function ParenthesisedYear(t: string): (r: Option<(string, int)>)
    ensures r.Some? ==> 0 <= r.value.1 <= 9999
  {
    var n := |t|;
    if n >= 6 && t[n - 1] == ')' && t[n - 6] == '(' && FourDigitsAt(t, n - 5) && NoNewline(t[..n - 6]) then
      FourDigitsBound(t[n - 5..n - 1]);
      Some((t[..n - 6], DigitsValue(t[n - 5..n - 1]) as int))
    else None
  }

  // `^(.*)\s+(\d{4})\s*$` on a stripped text: the title part and the year.
  // The greedy group ends where the whitespace before the digits starts, so
  // it is the text before the digits without its trailing whitespace.
  function SpacedYear(t: string): (r: Option<(string, int)>)
    ensures r.Some? ==> 0 <= r.value.1 <= 9999
  {
    var n := |t|;
    if n >= 5 && FourDigitsAt(t, n - 4) && IsSpace(t[n - 5]) && NoNewline(TrimRight(t[..n - 4])) then
      FourDigitsBound(t[n - 4..n]);
      Some((t[..n - 4], DigitsValue(t[n - 4..n]) as int))
    else None
  }

  // `parse_title_and_year`: "Title (YYYY)" first, then "Title YYYY", else the
  // whole trimmed text without a year.
  function ParseTitleAndYear(text: string): (r: (string, Option<int>))
    ensures r.1.Some? ==> 0 <= r.1.value <= 9999
    ensures r.1.None? ==> r.0 == Strip(text)
  {
    var t := Strip(text);
    match ParenthesisedYear(t)
    case Some((title, y)) => (Strip(title), Some(y))
    case None =>
      match SpacedYear(t)
      case Some((title, y)) => (Strip(title), Some(y))
      case None => (t, None)
  }

  // The title that comes back is always trimmed.
  lemma ParsedTitleTrimmed(text: string)
    ensures var r := ParseTitleAndYear(text); Strip(r.0) == r.0
  {
    var t := Strip(text);
    StripIdempotent(text);
    if ParenthesisedYear(t).Some? {
      StripIdempotent(ParenthesisedYear(t).value.0);
    } else if SpacedYear(t).Some? {
      StripIdempotent(SpacedYear(t).value.0);
    }
  }

  // "Title (YYYY)" gives the title and the year.
  lemma ParseTitleParenthesised(title: string, y: nat)
    requires 1000 <= y <= 9999 && NoNewline(title)
    requires title == [] || (!IsSpace(title[0]) && !IsSpace(title[|title| - 1]))
    ensures ParseTitleAndYear(title + "(" + NatToString(y) + ")") == (title, Some(y as int))
  {
    var ys := NatToString(y);
    FourDigitYear(y);
    DigitsOfNatToString(y);
    var t := title + "(" + ys + ")";
    var n := |t|;
    if title == [] {
      assert t == "(" + ys + ")";
      StripOfPlain(t);
    } else {
      StripOfPlain(t);
    }
    assert t[n - 5..n - 1] == ys;
    assert t[..n - 6] == title;
    StripNoSpaceEnds(title);
  }

  // "Title YYYY" gives the title and the year.
  lemma ParseTitleSpaced(title: string, y: nat)
    requires 1000 <= y <= 9999 && NoNewline(title)
    requires title != [] && !IsSpace(title[0]) && !IsSpace(title[|title| - 1])
    ensures ParseTitleAndYear(title + " " + NatToString(y)) == (title, Some(y as int))
  {
    var ys := NatToString(y);
    FourDigitYear(y);
    DigitsOfNatToString(y);
    var t := title + " " + ys;
    var n := |t|;
    StripOfPlain(t);
    assert t[n - 1] == ys[3];
    assert ParenthesisedYear(t) == None;
    assert t[n - 4..n] == ys;
    assert t[..n - 4] == title + " ";
    assert TrimRight(title + " ") == TrimRight(title);
    assert (title + " ")[..|title|] == title;
    StripOfPlain(title);
    assert TrimRight(title) == title;
    assert TrimLeft(title + " ") == title + " ";
  }

  // A bare four-digit number is a title without a year: "2001" is the film.
  lemma ParseTitleBareYear(y: nat)
    requires 1000 <= y <= 9999
    ensures ParseTitleAndYear(NatToString(y)) == (NatToString(y), None)
  {
    var t := NatToString(y);
    FourDigitYear(y);
    StripOfPlain(t);
  }
}
