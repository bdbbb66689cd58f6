// The pure parts of the Letterboxd CSV import: reading the fields of a row
// (title, year, rating, review and watched date under several possible
// column names), normalising titles, and scoring the TMDB search results to
// pick the film a row means, or to declare the row ambiguous.
module Letterboxd {
  import opened Wrappers
  import opened Text
  import opened Numbers
  import opened Sorting
  import opened Dates
  import Tmdb

  // --- normalize_title ---------------------------------------------------------------

  // The characters `[’'`]` removes.
  predicate IsApostrophe(c: char)
  {
    c == '\U{2019}' || c == '\'' || c == '`'
  }

  // The characters `[a-z0-9а-яё\s]` matches under IGNORECASE.
  predicate IsTitleChar(c: char)
  {
    ('a' <= c <= 'z') || ('A' <= c <= 'Z') || IsDigit(c)
    || ('\U{0430}' <= c <= '\U{044F}') || ('\U{0410}' <= c <= '\U{042F}')
    || c == '\U{0451}' || c == '\U{0401}' || IsSpace(c)
  }

  // A character `str.lower` leaves as it is.
  predicate IsLowered(c: char)
  {
    LowerChar(c) == c
  }

  // What survives the first two substitutions: lower-case title characters.
  predicate CleanChar(c: char)
  {
    IsLowered(c) && !IsApostrophe(c) && IsTitleChar(c)
  }

  predicate AllClean(s: string)
  {
    forall i :: 0 <= i < |s| ==> CleanChar(s[i])
  }

  // Every whitespace character is a plain space and no two are adjacent.
  predicate SingleSpaced(s: string)
  {
    (forall i :: 0 <= i < |s| ==> IsSpace(s[i]) ==> s[i] == ' ')
    && (forall i :: 0 <= i < |s| - 1 ==> !(IsSpace(s[i]) && IsSpace(s[i + 1])))
  }

  // `re.sub(r"[’'`]", "", s)`.
  function DropApostrophes(s: string): (r: string)
    ensures |r| <= |s|
    ensures (forall i :: 0 <= i < |s| ==> IsLowered(s[i])) ==> forall i :: 0 <= i < |r| ==> IsLowered(r[i]) && !IsApostrophe(r[i])
  {
    if s == [] then []
    else DropApostrophes(s[..|s| - 1]) + (if IsApostrophe(s[|s| - 1]) then [] else [s[|s| - 1]])
  }

  // `re.sub(r"[^a-z0-9а-яё\s]", " ", s, flags=re.IGNORECASE)`.
  function BlankPunctuation(s: string): (r: string)
    ensures |r| == |s| && forall i :: 0 <= i < |s| ==> r[i] == (if IsTitleChar(s[i]) then s[i] else ' ')
  {
    seq(|s|, i requires 0 <= i < |s| => if IsTitleChar(s[i]) then s[i] else ' ')
  }

  // `re.sub(r"\s+", " ", s)`: every run of whitespace becomes one space.
  function CollapseSpaces(s: string): string
    decreases |s|
  {
    if s == [] then []
    else if IsSpace(s[0]) then
      TrimLeftShape(s[1..]);
      " " + CollapseSpaces(TrimLeft(s[1..]))
    else [s[0]] + CollapseSpaces(s[1..])
  }

  // `normalize_title`.
  function NormalizeTitle(s: string): string
  {
    Strip(CollapseSpaces(BlankPunctuation(DropApostrophes(Lower(Strip(s))))))
  }

  lemma {:induction false} CollapseFacts(s: string)
    ensures var r := CollapseSpaces(s);
      && (r == [] <==> s == [])
      && (s != [] ==> r[0] == if IsSpace(s[0]) then ' ' else s[0])
      && SingleSpaced(r)
      && (AllClean(s) ==> AllClean(r))
    decreases |s|
  {
    if s != [] {
      var r := CollapseSpaces(s);
      if IsSpace(s[0]) {
        var t := TrimLeft(s[1..]);
        TrimLeftShape(s[1..]);
        CollapseFacts(t);
        var c := CollapseSpaces(t);
        assert r == " " + c;
        assert t == s[|s| - |t|..];
        assert c != [] ==> !IsSpace(c[0]);
        forall i | 0 <= i < |r| - 1
          ensures !(IsSpace(r[i]) && IsSpace(r[i + 1]))
        {
          if i > 0 {
            assert r[i] == c[i - 1] && r[i + 1] == c[i];
          }
        }
        if AllClean(s) {
          assert AllClean(t) by {
            forall i | 0 <= i < |t| ensures CleanChar(t[i]) {
              assert t[i] == s[|s| - |t| + i];
            }
          }
          assert CleanChar(' ');
        }
      } else {
        CollapseFacts(s[1..]);
        var c := CollapseSpaces(s[1..]);
        assert r == [s[0]] + c;
        forall i | 0 <= i < |r| - 1
          ensures !(IsSpace(r[i]) && IsSpace(r[i + 1]))
        {
          if i > 0 {
            assert r[i] == c[i - 1] && r[i + 1] == c[i];
          }
        }
        if AllClean(s) {
          assert AllClean(s[1..]) by {
            forall i | 0 <= i < |s| - 1 ensures CleanChar(s[1..][i]) {
              assert s[1..][i] == s[i + 1];
            }
          }
        }
      }
    }
  }

  // A text already single-spaced is left as it is by the collapse.
  lemma {:induction false} CollapseOfSingleSpaced(s: string)
    requires SingleSpaced(s)
    ensures CollapseSpaces(s) == s
    decreases |s|
  {
    if s != [] {
      assert SingleSpaced(s[1..]) by {
        forall i | 0 <= i < |s| - 2 ensures !(IsSpace(s[1..][i]) && IsSpace(s[1..][i + 1])) {
          assert s[1..][i] == s[i + 1] && s[1..][i + 1] == s[i + 2];
        }
      }
      CollapseOfSingleSpaced(s[1..]);
      if IsSpace(s[0]) {
        assert s[1..] == [] || !IsSpace(s[1..][0]);
        assert TrimLeft(s[1..]) == s[1..];
      }
    }
  }

  lemma SliceKeepsShape(s: string, k: nat, n: nat)
    requires k + n <= |s| && SingleSpaced(s) && AllClean(s)
    ensures SingleSpaced(s[k..k + n]) && AllClean(s[k..k + n])
  {
    var t := s[k..k + n];
    assert forall i :: 0 <= i < n ==> t[i] == s[k + i];
  }

  lemma LowerStripShape(s: string)
    ensures var l := Lower(Strip(s)); forall i :: 0 <= i < |l| ==> IsLowered(l[i])
  {
    var l := Lower(Strip(s));
    forall i | 0 <= i < |l| ensures IsLowered(l[i]) {
      LowerCharIdempotent(Strip(s)[i]);
    }
  }

  // A normalised title is lower-case, free of apostrophes and punctuation,
  // single-spaced and trimmed.
  lemma NormalizedShape(s: string)
    ensures var r := NormalizeTitle(s); AllClean(r) && SingleSpaced(r) && Strip(r) == r
  {
    var l := Lower(Strip(s));
    LowerStripShape(s);
    var d := DropApostrophes(l);
    var p := BlankPunctuation(d);
    assert AllClean(p) by {
      forall i | 0 <= i < |p| ensures CleanChar(p[i]) {
        assert IsLowered(d[i]) && !IsApostrophe(d[i]);
      }
    }
    var c := CollapseSpaces(p);
    CollapseFacts(p);
    var k := StripIsSlice(c);
    SliceKeepsShape(c, k, |Strip(c)|);
    StripIdempotent(c);
  }

  lemma {:induction false} DropApostrophesOfClean(s: string)
    requires forall i :: 0 <= i < |s| ==> !IsApostrophe(s[i])
    ensures DropApostrophes(s) == s
  {
    if s != [] {
      DropApostrophesOfClean(s[..|s| - 1]);
      assert s == s[..|s| - 1] + [s[|s| - 1]];
    }
  }

  // Normalising twice is normalising once.
  lemma NormalizeIdempotent(s: string)
    ensures NormalizeTitle(NormalizeTitle(s)) == NormalizeTitle(s)
  {
    var r := NormalizeTitle(s);
    NormalizedShape(s);
    var l := Lower(Strip(r));
    assert l == r by {
      forall i | 0 <= i < |r| ensures l[i] == r[i] {
        assert IsLowered(r[i]);
      }
    }
    DropApostrophesOfClean(r);
    assert BlankPunctuation(r) == r;
    CollapseOfSingleSpaced(r);
  }

  // --- parse_year --------------------------------------------------------------------

  const MinYear: int := 1870
  const MaxYear: int := 2100

  // `parse_year`: four ASCII digits between 1870 and 2100, once trimmed.
  function ParseYear(value: Option<string>): (r: Option<int>)
    ensures r.Some? <==> value.Some? && |Strip(value.value)| == 4 && AllDigits(Strip(value.value))
                         && MinYear <= DigitsValue(Strip(value.value)) <= MaxYear
    ensures r.Some? ==> MinYear <= r.value <= MaxYear
  {
    if value.None? then None
    else
      var s := Strip(value.value);
      if s == [] then None
      else if IsDigitString(s) && |s| == 4 && MinYear <= DigitsValue(s) <= MaxYear then Some(DigitsValue(s) as int)
      else None
  }

  lemma {:induction false} NatToStringShort(n: nat)
    requires n < 1000
    ensures |NatToString(n)| <= 3
  {
    if n >= 10 {
      NatToStringShort(n / 10);
      if n >= 100 {
        assert n / 10 >= 10;
        assert |NatToString(n / 10 / 10)| == 1;
      }
    }
  }

  lemma {:induction false} NatToStringLong(n: nat)
    requires n >= 10000
    ensures |NatToString(n)| >= 5
  {
    if n >= 100000 {
      NatToStringLong(n / 10);
    } else {
      FourDigitYear(n / 10);
    }
  }

  // The year written out reads back exactly when it lies in the accepted range.
  lemma ParseYearOfText(y: nat)
    ensures ParseYear(Some(NatToString(y))) == if MinYear <= y <= MaxYear then Some(y as int) else None
  {
    var s := NatToString(y);
    StripOfDigits(s);
    if 1000 <= y <= 9999 {
      FourDigitYear(y);
      DigitsOfNatToString(y);
    } else if y < 1000 {
      NatToStringShort(y);
    } else {
      NatToStringLong(y);
    }
  }

  lemma StripOfDigits(s: string)
    requires IsDigitString(s)
    ensures Strip(s) == s
  {
    StripNoSpaceEnds(s);
  }

  // --- parse_date --------------------------------------------------------------------

  datatype FieldOrder = YMD | DMY | MDY
  datatype DateFormat = DateFormat(order: FieldOrder, sep: char)

  // "%Y-%m-%d", "%d/%m/%Y", "%m/%d/%Y", "%d.%m.%Y", tried in this order.
  const Formats: seq<DateFormat> := [DateFormat(YMD, '-'), DateFormat(DMY, '/'), DateFormat(MDY, '/'), DateFormat(DMY, '.')]

  // `%Y`: four digits.
  function YearField(p: string): (r: Option<int>)
    ensures r.Some? ==> 0 <= r.value <= 9999
  {
    if |p| == 4 && AllDigits(p) then
      FourDigitsBound(p);
      Some(DigitsValue(p) as int)
    else None
  }

  // `%m`: `1[0-2]|0[1-9]|[1-9]` covering the whole field.
  function MonthField(p: string): (r: Option<int>)
    ensures r.Some? ==> 1 <= r.value <= 12
  {
    if |p| == 1 && IsDigit(p[0]) && p[0] != '0' then Some(DigitValue(p[0]) as int)
    else if |p| == 2 && IsDigit(p[0]) && IsDigit(p[1]) then
      var v := 10 * DigitValue(p[0]) + DigitValue(p[1]);
      if 1 <= v <= 12 then Some(v as int) else None
    else None
  }

  // `%d`: `3[0-1]|[1-2]\d|0[1-9]|[1-9]| [1-9]` covering the whole field.
  function DayField(p: string): (r: Option<int>)
    ensures r.Some? ==> 1 <= r.value <= 31
  {
    if |p| == 1 && IsDigit(p[0]) && p[0] != '0' then Some(DigitValue(p[0]) as int)
    else if |p| == 2 && p[0] == ' ' && IsDigit(p[1]) && p[1] != '0' then Some(DigitValue(p[1]) as int)
    else if |p| == 2 && IsDigit(p[0]) && IsDigit(p[1]) then
      var v := 10 * DigitValue(p[0]) + DigitValue(p[1]);
      if 1 <= v <= 31 then Some(v as int) else None
    else None
  }

  // `datetime.strptime(s, fmt).date()`, None where it raises ValueError: the
  // separators split the text into three fields, each must match its
  // directive, and the date must exist.
  function ParseWith(s: string, f: DateFormat): (r: Option<Date>)
    ensures r.Some? ==> Valid(r.value)
  {
    var parts := Split(s, f.sep);
    if |parts| != 3 then None
    else
      var (yp, mp, dp) := match f.order
        case YMD => (parts[0], parts[1], parts[2])
        case DMY => (parts[2], parts[1], parts[0])
        case MDY => (parts[2], parts[0], parts[1]);
      var y := YearField(yp);
      var m := MonthField(mp);
      var d := DayField(dp);
      if y.Some? && m.Some? && d.Some? && Valid(Date(y.value, m.value, d.value)) then Some(Date(y.value, m.value, d.value))
      else None
  }

  // The first format that reads the text.
  function FirstFormat(s: string, fs: seq<DateFormat>): (r: Option<Date>)
    ensures r.Some? ==> Valid(r.value)
  {
    if fs == [] then None
    else match ParseWith(s, fs[0])
      case Some(d) => Some(d)
      case None => FirstFormat(s, fs[1..])
  }

  function ParseDateOf(value: Option<string>): (r: Option<Date>)
    ensures r.Some? ==> Valid(r.value)
    ensures value.None? || Strip(value.value) == [] ==> r.None?
  {
    if value.None? then None
    else
      var s := Strip(value.value);
      if s == [] then None else FirstFormat(s, Formats)
  }

  // `parse_date`: the formats are tried one after the other.
  method ParseDate(value: Option<string>) returns (r: Option<Date>)
    ensures r == ParseDateOf(value)
  {
    if value.None? {
      return None;
    }
    var s := Strip(value.value);
    if s == [] {
      return None;
    }
    var i := 0;
    while i < |Formats|
      invariant 0 <= i <= |Formats|
      invariant FirstFormat(s, Formats) == FirstFormat(s, Formats[i..])
    {
      assert Formats[i..][1..] == Formats[i + 1..];
      var d := ParseWith(s, Formats[i]);
      if d.Some? {
        return d;
      }
      i := i + 1;
    }
    return None;
  }

  // Two digits, zero-padded (`%02d`).
  function TwoDigits(n: nat): (s: string)
    requires n < 100
    ensures |s| == 2 && AllDigits(s) && 10 * DigitValue(s[0]) + DigitValue(s[1]) == n
  {
    [DigitChar(n / 10), DigitChar(n % 10)]
  }

  function NumericText(a: string, sep: char, b: string, c: string): string
  {
    a + [sep] + b + [sep] + c
  }

  // `date.isoformat()` for a four-digit year.
  function IsoText(d: Date): string
    requires Valid(d) && d.year >= 1000
  {
    NumericText(NatToString(d.year), '-', TwoDigits(d.month), TwoDigits(d.day))
  }

  // The date written day first, as "31/01/2024" or "31.01.2024".
  function DayFirstText(d: Date, sep: char): string
    requires Valid(d) && d.year >= 1000
  {
    NumericText(TwoDigits(d.day), sep, TwoDigits(d.month), NatToString(d.year))
  }

  // The date written month first, as "01/31/2024".
  function MonthFirstText(d: Date): string
    requires Valid(d) && d.year >= 1000
  {
    NumericText(TwoDigits(d.month), '/', TwoDigits(d.day), NatToString(d.year))
  }

  lemma SplitNumeric(a: string, sep: char, b: string, c: string, other: char)
    requires AllDigits(a) && AllDigits(b) && AllDigits(c) && !IsDigit(sep) && !IsDigit(other) && other != sep
    ensures Split(NumericText(a, sep, b, c), sep) == [a, b, c]
    ensures Split(NumericText(a, sep, b, c), other) == [NumericText(a, sep, b, c)]
  {
    DigitsFree(a, sep);
    DigitsFree(b, sep);
    DigitsFree(c, sep);
    SplitAfterPiece(b, sep, c);
    SplitOfPlain(c, sep);
    assert NumericText(a, sep, b, c) == a + [sep] + (b + [sep] + c);
    SplitAfterPiece(a, sep, b + [sep] + c);
    DigitsFree(a, other);
    DigitsFree(b, other);
    DigitsFree(c, other);
    SplitOfPlain(NumericText(a, sep, b, c), other);
  }

  // The formats in the order they are tried.
  lemma FormatsInOrder(s: string)
    ensures FirstFormat(s, Formats) ==
      if ParseWith(s, Formats[0]).Some? then ParseWith(s, Formats[0])
      else if ParseWith(s, Formats[1]).Some? then ParseWith(s, Formats[1])
      else if ParseWith(s, Formats[2]).Some? then ParseWith(s, Formats[2])
      else ParseWith(s, Formats[3])
  {
    var f1 := Formats[1..];
    var f2 := f1[1..];
    var f3 := f2[1..];
    assert f1[0] == Formats[1] && f2[0] == Formats[2] && f3[0] == Formats[3] && f3[1..] == [];
    assert FirstFormat(s, f3) == ParseWith(s, Formats[3]);
    assert FirstFormat(s, f2) == if ParseWith(s, Formats[2]).Some? then ParseWith(s, Formats[2]) else FirstFormat(s, f3);
    assert FirstFormat(s, f1) == if ParseWith(s, Formats[1]).Some? then ParseWith(s, Formats[1]) else FirstFormat(s, f2);
    assert FirstFormat(s, Formats) == if ParseWith(s, Formats[0]).Some? then ParseWith(s, Formats[0]) else FirstFormat(s, f1);
  }

  lemma NumericStripped(a: string, sep: char, b: string, c: string)
    requires IsDigitString(a) && IsDigitString(c)
    ensures Strip(NumericText(a, sep, b, c)) == NumericText(a, sep, b, c)
  {
    var s := NumericText(a, sep, b, c);
    assert s[0] == a[0] && s[|s| - 1] == c[|c| - 1];
    StripNoSpaceEnds(s);
  }

  lemma FieldsOfDate(d: Date)
    requires Valid(d) && d.year >= 1000
    ensures YearField(NatToString(d.year)) == Some(d.year)
    ensures MonthField(TwoDigits(d.month)) == Some(d.month)
    ensures DayField(TwoDigits(d.day)) == Some(d.day)
    ensures MonthField(TwoDigits(d.day)) == if d.day <= 12 then Some(d.day) else None
  {
    FourDigitYear(d.year);
    DigitsOfNatToString(d.year);
  }

  // An ISO date reads back as itself.
  lemma ParseDateIso(d: Date)
    requires Valid(d) && d.year >= 1000
    ensures ParseDateOf(Some(IsoText(d))) == Some(d)
  {
    var s := IsoText(d);
    FourDigitYear(d.year);
    NumericStripped(NatToString(d.year), '-', TwoDigits(d.month), TwoDigits(d.day));
    SplitNumeric(NatToString(d.year), '-', TwoDigits(d.month), TwoDigits(d.day), '/');
    FieldsOfDate(d);
    FormatsInOrder(s);
    assert ParseWith(s, Formats[0]) == Some(d);
  }

  // A date written day first reads back as itself, with either separator.
  lemma ParseDateDayFirst(d: Date, sep: char)
    requires Valid(d) && d.year >= 1000 && (sep == '/' || sep == '.')
    ensures ParseDateOf(Some(DayFirstText(d, sep))) == Some(d)
  {
    var s := DayFirstText(d, sep);
    var other := if sep == '/' then '.' else '/';
    FourDigitYear(d.year);
    NumericStripped(TwoDigits(d.day), sep, TwoDigits(d.month), NatToString(d.year));
    SplitNumeric(TwoDigits(d.day), sep, TwoDigits(d.month), NatToString(d.year), '-');
    SplitNumeric(TwoDigits(d.day), sep, TwoDigits(d.month), NatToString(d.year), other);
    FieldsOfDate(d);
    FormatsInOrder(s);
    assert ParseWith(s, Formats[0]) == None;
    if sep == '/' {
      assert ParseWith(s, Formats[1]) == Some(d);
    } else {
      assert ParseWith(s, Formats[1]) == None;
      assert ParseWith(s, Formats[2]) == None;
      assert ParseWith(s, Formats[3]) == Some(d);
    }
  }

  // A date written month first is read month first only when its day cannot
  // be a month; otherwise day and month are swapped.
  lemma ParseDateMonthFirst(d: Date)
    requires Valid(d) && d.year >= 1000
    ensures d.day > 12 ==> ParseDateOf(Some(MonthFirstText(d))) == Some(d)
    ensures d.day <= 12 && Valid(Date(d.year, d.day, d.month)) ==>
      ParseDateOf(Some(MonthFirstText(d))) == Some(Date(d.year, d.day, d.month))
  {
    var s := MonthFirstText(d);
    FourDigitYear(d.year);
    NumericStripped(TwoDigits(d.month), '/', TwoDigits(d.day), NatToString(d.year));
    SplitNumeric(TwoDigits(d.month), '/', TwoDigits(d.day), NatToString(d.year), '-');
    FieldsOfDate(d);
    FieldsOfDate(Date(d.year, 1, d.month));
    FormatsInOrder(s);
    assert ParseWith(s, Formats[0]) == None;
    if d.day > 12 {
      assert ParseWith(s, Formats[1]) == None;
      assert ParseWith(s, Formats[2]) == Some(d);
    }
  }

  // --- parse_rating ------------------------------------------------------------------

  const HalfSymbol: char := '\U{00BD}'

  // `s.replace("½", ".5")`.
  function ReplaceHalf(s: string): (r: string)
  {
    if s == [] then []
    else ReplaceHalf(s[..|s| - 1]) + (if s[|s| - 1] == HalfSymbol then ".5" else [s[|s| - 1]])
  }

  // The text `float` is given: the half symbol spelled out when there is one.
  function RatingText(s: string): string
  {
    if HalfSymbol in s then ReplaceHalf(s) else s
  }

  function Pow10(n: nat): (p: nat)
    ensures p >= 1
  {
    if n == 0 then 1 else 10 * Pow10(n - 1)
  }

  // An unsigned decimal literal: digits with at most one point, at least one digit.
  function UnsignedDecimal(body: string): (r: Option<real>)
    ensures r.Some? ==> r.value >= 0.0
  {
    match IndexOf(body, '.')
    case None =>
      if IsDigitString(body) then Some(DigitsValue(body) as real) else None
    case Some(i) =>
      var ip := body[..i];
      var fp := body[i + 1..];
      if AllDigits(ip) && AllDigits(fp) && |ip| + |fp| > 0 then Some(PointValue(ip, fp)) else None
  }

  // The value of "ip.fp".
  function PointValue(ip: string, fp: string): (v: real)
    requires AllDigits(ip) && AllDigits(fp)
    ensures v >= 0.0
  {
    DigitsValue(ip) as real + DigitsValue(fp) as real / Pow10(|fp|) as real
  }

  // `float(s)` on a decimal literal with an optional sign.
  function ParseDecimal(s: string): (r: Option<real>)
  {
    if |s| > 0 && s[0] == '-' then
      match UnsignedDecimal(s[1..])
      case None => None
      case Some(x) => Some(-x)
    else if |s| > 0 && s[0] == '+' then UnsignedDecimal(s[1..])
    else UnsignedDecimal(s)
  }

  // `round(r * 2) / 2.0`: the nearest half.
  function NearestHalf(x: real): (q: real)
    ensures -0.25 <= q - x <= 0.25
    ensures (q * 2.0).Floor as real == q * 2.0
  {
    RoundHalfEven(x * 2.0) as real / 2.0
  }

  // `parse_rating`: the half symbol becomes ".5", the number is rounded to the
  // nearest half and kept only inside 0..5.
  function ParseRatingOf(value: Option<string>): (r: Option<real>)
    ensures r.Some? ==> 0.0 <= r.value <= 5.0 && (r.value * 2.0).Floor as real == r.value * 2.0
    ensures value.None? || Strip(value.value) == [] ==> r.None?
    ensures r.Some? ==> var x := ParseDecimal(RatingText(Strip(value.value)));
      x.Some? && -0.25 <= r.value - x.value <= 0.25
  {
    if value.None? then None
    else
      var s := Strip(value.value);
      if s == [] then None
      else match ParseDecimal(RatingText(s))
        case None => None
        case Some(x) =>
          var q := NearestHalf(x);
          if 0.0 <= q <= 5.0 then Some(q) else None
  }

  lemma DigitsFree(s: string, c: char)
    requires AllDigits(s) && !IsDigit(c)
    ensures c !in s
  {
  }

  lemma DigitsValueShort(s: string)
    requires 1 <= |s| <= 2 && AllDigits(s)
    ensures DigitsValue(s) == if |s| == 1 then DigitValue(s[0]) else 10 * DigitValue(s[0]) + DigitValue(s[1])
  {
    assert s[..|s| - 1][..0] == [];
    if |s| == 2 {
      assert s[..1] == [s[0]];
    }
  }

  lemma ParseDecimalOfDigits(ip: string)
    requires IsDigitString(ip)
    ensures ParseDecimal(ip) == Some(DigitsValue(ip) as real)
  {
    DigitsFree(ip, '.');
  }

  lemma ParseDecimalOfPoint(ip: string, fp: string)
    requires IsDigitString(ip) && AllDigits(fp)
    ensures ParseDecimal(ip + ['.'] + fp) == Some(PointValue(ip, fp))
  {
    var s := ip + ['.'] + fp;
    assert s[0] == ip[0];
    DigitsFree(ip, '.');
    IndexAfterPiece(ip, '.', fp);
    assert s[..|ip|] == ip && s[|ip| + 1..] == fp;
  }

  // The text of a rating of h halves as the export writes it: "4", "4.5".
  function HalvesText(h: nat): string
  {
    NatToString(h / 2) + (if h % 2 == 1 then ".5" else "")
  }

  // Every rating from 0 to 5 in half steps reads back as itself.
  lemma ParseRatingOfHalves(h: nat)
    requires h <= 10
    ensures ParseRatingOf(Some(HalvesText(h))) == Some(h as real / 2.0)
  {
    var n := NatToString(h / 2);
    assert n == [DigitChar(h / 2)];
    DigitsValueShort(n);
    var s := HalvesText(h);
    StripNoSpaceEnds(s);
    if h % 2 == 1 {
      assert s == n + ['.'] + "5";
      DigitsValueShort("5");
      ParseDecimalOfPoint(n, "5");
      assert HalfSymbol !in s;
      assert ParseDecimal(RatingText(s)) == Some((h / 2) as real + 0.5);
    } else {
      assert s == n;
      DigitsFree(n, HalfSymbol);
      ParseDecimalOfDigits(n);
      assert ParseDecimal(RatingText(s)) == Some((h / 2) as real);
    }
  }

  // "4½" is four and a half.
  lemma ParseRatingHalfSymbol(d: nat)
    requires d <= 4
    ensures ParseRatingOf(Some([DigitChar(d), HalfSymbol])) == Some(d as real + 0.5)
  {
    var s := [DigitChar(d), HalfSymbol];
    StripNoSpaceEnds(s);
    assert ReplaceHalf(s) == [DigitChar(d)] + ['.'] + "5" by {
      assert s[..1] == [DigitChar(d)];
      assert ReplaceHalf(s[..1]) == [DigitChar(d)];
    }
    DigitsValueShort([DigitChar(d)]);
    DigitsValueShort("5");
    ParseDecimalOfPoint([DigitChar(d)], "5");
    assert ParseDecimal(RatingText(s)) == Some(d as real + 0.5);
  }

  function QuarterText(n: nat, q: nat): string
    requires n < 10 && q < 100
  {
    [DigitChar(n)] + ['.'] + TwoDigits(q)
  }

  lemma QuarterValue(n: nat, q: nat)
    requires n < 10 && q < 100
    ensures Strip(QuarterText(n, q)) == QuarterText(n, q)
    ensures ParseDecimal(RatingText(QuarterText(n, q))) == Some(n as real + q as real / 100.0)
  {
    var s := QuarterText(n, q);
    StripNoSpaceEnds(s);
    DigitsValueShort([DigitChar(n)]);
    DigitsValueShort(TwoDigits(q));
    ParseDecimalOfPoint([DigitChar(n)], TwoDigits(q));
    assert Pow10(2) == 100;
    DigitsFree([DigitChar(n)], HalfSymbol);
    DigitsFree(TwoDigits(q), HalfSymbol);
    assert HalfSymbol !in s;
  }

  // A quarter rounds to the even half: "n.25" is n and "n.75" is n + 1
  // ("1.25" is 1.0, "3.75" is 4.0).
  lemma ParseRatingQuarters(n: nat)
    requires n <= 4
    ensures ParseRatingOf(Some(QuarterText(n, 25))) == Some(n as real)
    ensures ParseRatingOf(Some(QuarterText(n, 75))) == Some(n as real + 1.0)
  {
    QuarterValue(n, 25);
    QuarterValue(n, 75);
    NearestHalfOfQuarters(n);
  }

  lemma NearestHalfOfQuarters(n: nat)
    ensures NearestHalf(n as real + 25 as real / 100.0) == n as real
    ensures NearestHalf(n as real + 75 as real / 100.0) == n as real + 1.0
  {
    var a := (n as real + 25 as real / 100.0) * 2.0;
    var b := (n as real + 75 as real / 100.0) * 2.0;
    assert a == (2 * n) as real + 0.5;
    assert a.Floor == 2 * n;
    assert b == (2 * n + 1) as real + 0.5;
    assert b.Floor == 2 * n + 1;
  }

  // --- pick_first --------------------------------------------------------------------

  // A CSV row: the headers and their values (None for a missing cell).
  type Row = seq<(string, Option<string>)>

  function HeaderKey(h: string): string
  {
    Strip(Lower(h))
  }

  // `lower_map.get(key)`: the last header whose lowered, trimmed form is `key`.
  function ResolveKey(row: Row, key: string): (r: Option<nat>)
    ensures r.Some? ==> r.value < |row| && HeaderKey(row[r.value].0) == key
                        && forall j :: r.value < j < |row| ==> HeaderKey(row[j].0) != key
    ensures r.None? ==> forall j :: 0 <= j < |row| ==> HeaderKey(row[j].0) != key
  {
    if row == [] then None
    else if HeaderKey(row[|row| - 1].0) == key then Some(|row| - 1)
    else ResolveKey(row[..|row| - 1], key)
  }

  // The value of a found column: None when missing or blank, else trimmed.
  function CellValue(v: Option<string>): (r: Option<string>)
    ensures r.Some? ==> r.value != [] && Strip(r.value) == r.value
    ensures r.Some? <==> v.Some? && Strip(v.value) != []
  {
    if v.None? then None
    else
      var s := Strip(v.value);
      StripIdempotent(v.value);
      if s == [] then None else Some(s)
  }

  function PickFirstOf(row: Row, keys: seq<string>): (r: Option<string>)
    ensures r.Some? ==> r.value != [] && Strip(r.value) == r.value
  {
    if keys == [] then None
    else match ResolveKey(row, Lower(keys[0]))
      case Some(i) => CellValue(row[i].1)
      case None => PickFirstOf(row, keys[1..])
  }

  // `pick_first`: the first of the keys that names a column decides.
  method PickFirst(row: Row, keys: seq<string>) returns (r: Option<string>)
    ensures r == PickFirstOf(row, keys)
  {
    var k := 0;
    while k < |keys|
      invariant 0 <= k <= |keys|
      invariant PickFirstOf(row, keys) == PickFirstOf(row, keys[k..])
    {
      assert keys[k..][1..] == keys[k + 1..];
      var actual := ResolveKey(row, Lower(keys[k]));
      if actual.Some? {
        var v := row[actual.value].1;
        if v.None? {
          return None;
        }
        var s := Strip(v.value);
        return if s != [] then Some(s) else None;
      }
      k := k + 1;
    }
    return None;
  }

  // The first key that names a column decides, even when its cell is blank
  // and a later key names a filled one.
  lemma {:induction false} PickFirstFirstPresent(row: Row, keys: seq<string>, k: nat)
    requires k < |keys| && ResolveKey(row, Lower(keys[k])).Some?
    requires forall j :: 0 <= j < k ==> ResolveKey(row, Lower(keys[j])).None?
    ensures PickFirstOf(row, keys) == CellValue(row[ResolveKey(row, Lower(keys[k])).value].1)
  {
    if k > 0 {
      PickFirstFirstPresent(row, keys[1..], k - 1);
    }
  }

  // No key names a column: nothing is found.
  lemma {:induction false} PickFirstAbsent(row: Row, keys: seq<string>)
    requires forall j :: 0 <= j < |keys| ==> ResolveKey(row, Lower(keys[j])).None?
    ensures PickFirstOf(row, keys) == None
  {
    if keys != [] {
      PickFirstAbsent(row, keys[1..]);
    }
  }

  // --- extract_fields ----------------------------------------------------------------

  const TitleKeys: seq<string> := ["Name", "Film Name", "Title", "Film", "Movie", "Movie Title"]
  const YearKeys: seq<string> := ["Year", "Release Year"]
  const RatingKeys: seq<string> := ["Rating", "Your Rating", "Stars"]
  const ReviewKeys: seq<string> := ["Review", "Your Review", "Comment", "Notes", "Text"]
  const DateKeys: seq<string> := ["Watched Date", "Date", "Diary Date", "Watched", "Watched On"]

  datatype Fields = Fields(title: Option<string>, year: Option<int>, rating: Option<real>,
                           review: Option<string>, watchedDate: Option<Date>)

  // `extract_fields`.
  function ExtractFields(row: Row): (f: Fields)
    ensures f.title.Some? ==> f.title.value != [] && Strip(f.title.value) == f.title.value
    ensures f.year.Some? ==> MinYear <= f.year.value <= MaxYear
    ensures f.rating.Some? ==> 0.0 <= f.rating.value <= 5.0
    ensures f.review.Some? ==> f.review.value != [] && Strip(f.review.value) == f.review.value
    ensures f.watchedDate.Some? ==> Valid(f.watchedDate.value)
  {
    Fields(PickFirstOf(row, TitleKeys),
           ParseYear(PickFirstOf(row, YearKeys)),
           ParseRatingOf(PickFirstOf(row, RatingKeys)),
           PickFirstOf(row, ReviewKeys),
           ParseDateOf(PickFirstOf(row, DateKeys)))
  }

  // --- score_candidate ---------------------------------------------------------------

  // Exact normalised title +5, else containment either way +2.
  function TitleScore(candidate: string, want: string): (s: real)
    ensures s == 5.0 <==> NormalizeTitle(candidate) == NormalizeTitle(want)
    ensures s == 0.0 || s == 2.0 || s == 5.0
  {
    var a := NormalizeTitle(candidate);
    var b := NormalizeTitle(want);
    if a == b then 5.0
    else if Contains(a, b) || Contains(b, a) then 2.0
    else 0.0
  }

  // Same year +4, a year off +1.5.
  function YearScore(candidate: Option<int>, want: Option<int>): (s: real)
    ensures s == 4.0 <==> want.Some? && candidate == want
    ensures s == 0.0 || s == 1.5 || s == 4.0
  {
    if want.Some? && candidate.Some? then
      if candidate.value == want.value then 4.0
      else if Abs(candidate.value - want.value) == 1 then 1.5
      else 0.0
    else 0.0
  }

  // `min(1.0, v / scale)`, 0 when the value is missing.
  function CappedBonus(v: Option<real>, scale: real): (s: real)
    requires scale > 0.0
    ensures s <= 1.0
    ensures v.Some? && v.value >= 0.0 ==> s >= 0.0
    ensures v.None? ==> s == 0.0
  {
    if v.None? then 0.0 else Min(1.0, v.value / scale)
  }

  // `score_candidate`.
  function ScoreCandidate(c: Tmdb.MovieCandidate, wantTitle: string, wantYear: Option<int>): (s: real)
    ensures s <= 11.0
  {
    TitleScore(c.title, wantTitle) + YearScore(c.year, wantYear)
    + CappedBonus(c.voteAverage, 10.0) + CappedBonus(c.popularity, 100.0)
  }

  predicate NonNegativeExtras(c: Tmdb.MovieCandidate)
  {
    (c.voteAverage.None? || c.voteAverage.value >= 0.0) && (c.popularity.None? || c.popularity.value >= 0.0)
  }

  // The exact title in the wanted year scores at least 9.
  lemma ExactTitleAndYearScore(c: Tmdb.MovieCandidate, wantTitle: string, wantYear: Option<int>)
    requires NormalizeTitle(c.title) == NormalizeTitle(wantTitle) && wantYear.Some? && c.year == wantYear
    requires NonNegativeExtras(c)
    ensures ScoreCandidate(c, wantTitle, wantYear) >= 9.0
  {
  }

  // Without a title match a candidate never reaches 7.
  lemma NoTitleMatchScore(c: Tmdb.MovieCandidate, wantTitle: string, wantYear: Option<int>)
    requires TitleScore(c.title, wantTitle) == 0.0
    ensures ScoreCandidate(c, wantTitle, wantYear) <= 6.0
  {
  }

  // --- choose_best_candidate ---------------------------------------------------------

  datatype Selection = Selection(chosen: Option<Tmdb.MovieCandidate>, confidence: real, reason: string,
                                 topCandidates: seq<Tmdb.MovieCandidate>)

  const TopCount: nat := 5
  const NoRunnerUp: real := -999.0

  // `[(c, score(c)) for c in candidates]`.
  function ScoredBy(cands: seq<Tmdb.MovieCandidate>, score: Tmdb.MovieCandidate -> real): (r: seq<(Tmdb.MovieCandidate, real)>)
    ensures |r| == |cands|
    ensures forall i :: 0 <= i < |r| ==> r[i] == (cands[i], score(cands[i]))
  {
    seq(|cands|, i requires 0 <= i < |cands| => (cands[i], score(cands[i])))
  }

  function ScoreOf(p: (Tmdb.MovieCandidate, real)): real
  {
    p.1
  }

  // `scored.sort(key=lambda x: x[1], reverse=True)`.
  function RankedBy(cands: seq<Tmdb.MovieCandidate>, score: Tmdb.MovieCandidate -> real): (r: seq<(Tmdb.MovieCandidate, real)>)
    ensures |r| == |cands|
  {
    SortBy(ScoredBy(cands, score), ByKeyDesc(ScoreOf))
  }

  function Firsts(ps: seq<(Tmdb.MovieCandidate, real)>): (r: seq<Tmdb.MovieCandidate>)
    ensures |r| == |ps| && forall i :: 0 <= i < |ps| ==> r[i] == ps[i].0
  {
    seq(|ps|, i requires 0 <= i < |ps| => ps[i].0)
  }

  // `[c for c, _ in scored[:5]]`.
  function TopOf(cands: seq<Tmdb.MovieCandidate>, score: Tmdb.MovieCandidate -> real): (top: seq<Tmdb.MovieCandidate>)
    ensures |top| == if |cands| < TopCount then |cands| else TopCount
  {
    Firsts(Take(RankedBy(cands, score), TopCount))
  }

  // Every ranked pair carries its own candidate's score.
  lemma RankedScores(cands: seq<Tmdb.MovieCandidate>, score: Tmdb.MovieCandidate -> real)
    ensures var r := RankedBy(cands, score); forall i :: 0 <= i < |r| ==> r[i].1 == score(r[i].0)
  {
    var scored := ScoredBy(cands, score);
    var r := RankedBy(cands, score);
    forall i | 0 <= i < |r| ensures r[i].1 == score(r[i].0) {
      assert r[i] in multiset(scored);
      assert r[i] in scored;
    }
  }

  // The top candidates are in order of falling score.
  lemma TopOrdered(cands: seq<Tmdb.MovieCandidate>, score: Tmdb.MovieCandidate -> real)
    ensures var top := TopOf(cands, score); forall i, j :: 0 <= i < j < |top| ==> score(top[i]) >= score(top[j])
  {
    var scored := ScoredBy(cands, score);
    var ge := ByKeyDesc(ScoreOf);
    ByKeyDescTotal(ScoreOf);
    var ranked := RankedBy(cands, score);
    SortSorted(scored, ge);
    RankedScores(cands, score);
    var top := TopOf(cands, score);
    forall i, j | 0 <= i < j < |top|
      ensures score(top[i]) >= score(top[j])
    {
      assert ge(ranked[i], ranked[j]);
      ByKeyDescApply(ScoreOf, ranked[i], ranked[j]);
      assert top[i] == ranked[i].0 && top[j] == ranked[j].0;
    }
  }

  // The first top candidate is the earliest candidate with the highest score
  // (the sort is stable).
  lemma TopFirstIsEarliestMax(cands: seq<Tmdb.MovieCandidate>, score: Tmdb.MovieCandidate -> real) returns (k: nat)
    requires cands != []
    ensures k < |cands| && TopOf(cands, score)[0] == cands[k] && RankedBy(cands, score)[0] == (cands[k], score(cands[k]))
    ensures forall i :: 0 <= i < |cands| ==> score(cands[k]) >= score(cands[i])
    ensures forall i :: 0 <= i < k ==> score(cands[i]) < score(cands[k])
  {
    var scored := ScoredBy(cands, score);
    var ge := ByKeyDesc(ScoreOf);
    ByKeyDescTotal(ScoreOf);
    k := SortFirstIsEarliestMax(scored, ge);
    forall i | 0 <= i < |cands| ensures score(cands[k]) >= score(cands[i]) {
      assert ge(scored[k], scored[i]);
      ByKeyDescApply(ScoreOf, scored[k], scored[i]);
    }
    forall i | 0 <= i < k ensures score(cands[i]) < score(cands[k]) {
      assert !ge(scored[i], scored[k]);
      ByKeyDescApply(ScoreOf, scored[i], scored[k]);
    }
  }

  function CandidateScore(wantTitle: string, wantYear: Option<int>): Tmdb.MovieCandidate -> real
  {
    c => ScoreCandidate(c, wantTitle, wantYear)
  }

  predicate StrictMatch(best: Tmdb.MovieCandidate, wantTitle: string, wantYear: Option<int>)
  {
    NormalizeTitle(best.title) == NormalizeTitle(wantTitle) && (wantYear.None? || best.year == wantYear)
  }

  // The decision on the ranked candidates: the best is chosen when its title
  // and year match strictly, or its score and its lead over the runner-up are
  // high enough; otherwise the row is ambiguous.
  function Decide(ranked: seq<(Tmdb.MovieCandidate, real)>, top: seq<Tmdb.MovieCandidate>, wantTitle: string, wantYear: Option<int>): (sel: Selection)
    requires ranked != [] && top != [] && top[0] == ranked[0].0
    ensures sel.topCandidates == top
    ensures sel.chosen.Some? ==> sel.chosen.value == top[0] && sel.confidence >= 0.75
    ensures sel.chosen.None? ==> sel.reason == "ambiguous" && 0.2 <= sel.confidence <= 0.7
    ensures sel.reason == "strict_title_year_match" ==> sel.chosen.Some? && StrictMatch(sel.chosen.value, wantTitle, wantYear)
    ensures sel.chosen.Some? <==> (StrictMatch(ranked[0].0, wantTitle, wantYear) && ranked[0].1 >= 8.5)
                                  || (ranked[0].1 >= 8.0 && ranked[0].1 - RunnerUp(ranked) >= 2.5)
                                  || (ranked[0].1 >= 7.0 && ranked[0].1 - RunnerUp(ranked) >= 3.5)
  {
    var (best, bestScore) := ranked[0];
    var margin := bestScore - RunnerUp(ranked);
    if StrictMatch(best, wantTitle, wantYear) && bestScore >= 8.5 then
      Selection(Some(best), 0.95, "strict_title_year_match", top)
    else if bestScore >= 8.0 && margin >= 2.5 then
      Selection(Some(best), 0.85, "high_score_and_margin", top)
    else if bestScore >= 7.0 && margin >= 3.5 then
      Selection(Some(best), 0.75, "ok_score_big_margin", top)
    else
      Selection(None, Max(0.2, Min(0.7, bestScore / 10.0)), "ambiguous", top)
  }

  // The runner-up's score, or -999 when there is none.
  function RunnerUp(ranked: seq<(Tmdb.MovieCandidate, real)>): real
  {
    if |ranked| > 1 then ranked[1].1 else NoRunnerUp
  }

  // `choose_best_candidate`.
  function ChooseBest(cands: seq<Tmdb.MovieCandidate>, wantTitle: string, wantYear: Option<int>): (sel: Selection)
    ensures cands == [] <==> sel.reason == "no_candidates"
    ensures cands == [] ==> sel == Selection(None, 0.0, "no_candidates", [])
    ensures sel.topCandidates == TopOf(cands, CandidateScore(wantTitle, wantYear))
    ensures sel.chosen.Some? ==> sel.topCandidates != [] && sel.chosen.value == sel.topCandidates[0] && sel.confidence >= 0.75
    ensures sel.chosen.None? && cands != [] ==> sel.reason == "ambiguous" && 0.2 <= sel.confidence <= 0.7
    ensures sel.reason == "strict_title_year_match" ==> sel.chosen.Some? && StrictMatch(sel.chosen.value, wantTitle, wantYear)
  {
    if cands == [] then Selection(None, 0.0, "no_candidates", [])
    else
      var score := CandidateScore(wantTitle, wantYear);
      Decide(RankedBy(cands, score), TopOf(cands, score), wantTitle, wantYear)
  }

  // The top candidates of the selection are in order of falling score.
  lemma TopCandidatesOrdered(cands: seq<Tmdb.MovieCandidate>, wantTitle: string, wantYear: Option<int>)
    ensures var top := ChooseBest(cands, wantTitle, wantYear).topCandidates;
      forall i, j :: 0 <= i < j < |top| ==> ScoreCandidate(top[i], wantTitle, wantYear) >= ScoreCandidate(top[j], wantTitle, wantYear)
  {
    TopOrdered(cands, CandidateScore(wantTitle, wantYear));
  }

  // Whatever is chosen is the earliest candidate with the highest score.
  lemma ChosenIsEarliestBest(cands: seq<Tmdb.MovieCandidate>, wantTitle: string, wantYear: Option<int>) returns (k: nat)
    requires ChooseBest(cands, wantTitle, wantYear).chosen.Some?
    ensures k < |cands| && ChooseBest(cands, wantTitle, wantYear).chosen == Some(cands[k])
    ensures forall i :: 0 <= i < |cands| ==> ScoreCandidate(cands[k], wantTitle, wantYear) >= ScoreCandidate(cands[i], wantTitle, wantYear)
    ensures forall i :: 0 <= i < k ==> ScoreCandidate(cands[i], wantTitle, wantYear) < ScoreCandidate(cands[k], wantTitle, wantYear)
  {
    k := TopFirstIsEarliestMax(cands, CandidateScore(wantTitle, wantYear));
  }

  // A lone candidate scoring 7 or more is always chosen.
  lemma LoneCandidateChosen(c: Tmdb.MovieCandidate, wantTitle: string, wantYear: Option<int>)
    requires ScoreCandidate(c, wantTitle, wantYear) >= 7.0
    ensures ChooseBest([c], wantTitle, wantYear).chosen == Some(c)
  {
    var score := CandidateScore(wantTitle, wantYear);
    var k := TopFirstIsEarliestMax([c], score);
    assert RunnerUp(RankedBy([c], score)) == NoRunnerUp;
  }

  // The exact title in the wanted year, among rivals with no title match, is
  // chosen as a strict match.
  lemma UniqueExactMatchChosen(cands: seq<Tmdb.MovieCandidate>, k: nat, wantTitle: string, wantYear: Option<int>)
    requires k < |cands| && (forall i :: 0 <= i < |cands| ==> NonNegativeExtras(cands[i]))
    requires NormalizeTitle(cands[k].title) == NormalizeTitle(wantTitle) && wantYear.Some? && cands[k].year == wantYear
    requires forall i :: 0 <= i < |cands| && i != k ==> TitleScore(cands[i].title, wantTitle) == 0.0
    ensures var sel := ChooseBest(cands, wantTitle, wantYear); sel.chosen == Some(cands[k]) && sel.confidence == 0.95
  {
    ExactTitleAndYearScore(cands[k], wantTitle, wantYear);
    var score := CandidateScore(wantTitle, wantYear);
    var j := TopFirstIsEarliestMax(cands, score);
    if j != k {
      NoTitleMatchScore(cands[j], wantTitle, wantYear);
      assert false;
    }
  }
}
