// Character and string helpers with the meaning Python gives them: `str.isspace`,
// `str.strip`, `str.lower`, `in` on strings, `str.join` and `str(int)`.
module Text {
  import opened Wrappers

  // The characters Python's `str.isspace` (and `\s` in a str pattern) accepts.
  predicate IsSpace(c: char)
  {
    ('\U{0009}' <= c <= '\U{000D}') || ('\U{001C}' <= c <= '\U{0020}')
    || c == '\U{0085}' || c == '\U{00A0}' || c == '\U{1680}'
    || ('\U{2000}' <= c <= '\U{200A}') || c == '\U{2028}' || c == '\U{2029}'
    || c == '\U{202F}' || c == '\U{205F}' || c == '\U{3000}'
  }

  // ASCII decimal digits.
  predicate IsDigit(c: char)
  {
    '0' <= c <= '9'
  }

  predicate AllDigits(s: string)
  {
    forall i :: 0 <= i < |s| ==> IsDigit(s[i])
  }

  // Python's `s.isdigit()`: non-empty and every character a digit.
  predicate IsDigitString(s: string)
  {
    |s| > 0 && AllDigits(s)
  }

  predicate AllSpace(s: string)
  {
    forall i :: 0 <= i < |s| ==> IsSpace(s[i])
  }

  function DigitValue(c: char): (d: nat)
    requires IsDigit(c)
    ensures d < 10
  {
    c as int - '0' as int
  }

  function DigitChar(d: nat): (c: char)
    requires d < 10
    ensures IsDigit(c) && DigitValue(c) == d
  {
    ('0' as int + d) as char
  }

  // The number an all-digit string denotes in base 10 (`int(s)`).
  function DigitsValue(s: string): nat
    requires AllDigits(s)
  {
    if |s| == 0 then 0 else DigitsValue(s[..|s| - 1]) * 10 + DigitValue(s[|s| - 1])
  }

  // `str(n)` for a non-negative integer.
  function NatToString(n: nat): (s: string)
    ensures IsDigitString(s)
  {
    if n < 10 then [DigitChar(n)] else NatToString(n / 10) + [DigitChar(n % 10)]
  }

  // `str(n)` for any integer.
  function IntToString(n: int): string
  {
    if n < 0 then "-" + NatToString(-n) else NatToString(n)
  }

  lemma {:induction false} DigitsOfNatToString(n: nat)
    ensures DigitsValue(NatToString(n)) == n
  {
    if n >= 10 {
      var s := NatToString(n);
      assert s[..|s| - 1] == NatToString(n / 10);
      DigitsOfNatToString(n / 10);
    }
  }

  // `s.lstrip()`: drops leading whitespace.
  function TrimLeft(s: string): string
  {
    if |s| > 0 && IsSpace(s[0]) then TrimLeft(s[1..]) else s
  }

  // What `lstrip` keeps is a suffix that does not start with whitespace.
  lemma {:induction false} TrimLeftShape(s: string)
    ensures var r := TrimLeft(s); |r| <= |s| && r == s[|s| - |r|..] && (r == [] || !IsSpace(r[0]))
  {
    if |s| > 0 && IsSpace(s[0]) {
      TrimLeftShape(s[1..]);
    }
  }

  // What `lstrip` drops is whitespace.
  lemma {:induction false} TrimLeftDropsSpace(s: string)
    ensures |TrimLeft(s)| <= |s| && AllSpace(s[..|s| - |TrimLeft(s)|])
  {
    TrimLeftShape(s);
    if |s| > 0 && IsSpace(s[0]) {
      var r := TrimLeft(s[1..]);
      TrimLeftDropsSpace(s[1..]);
      assert s[..|s| - |r|] == [s[0]] + s[1..][..|s| - 1 - |r|];
    }
  }

  // `s.rstrip()`: drops trailing whitespace.
  function TrimRight(s: string): string
  {
    if |s| > 0 && IsSpace(s[|s| - 1]) then TrimRight(s[..|s| - 1]) else s
  }

  // What `rstrip` keeps is a prefix that does not end in whitespace.
  lemma {:induction false} TrimRightShape(s: string)
    ensures var r := TrimRight(s); |r| <= |s| && r == s[..|r|] && (r == [] || !IsSpace(r[|r| - 1]))
  {
    if |s| > 0 && IsSpace(s[|s| - 1]) {
      TrimRightShape(s[..|s| - 1]);
    }
  }

  // What `rstrip` drops is whitespace.
  lemma {:induction false} TrimRightDropsSpace(s: string)
    ensures |TrimRight(s)| <= |s| && AllSpace(s[|TrimRight(s)|..])
  {
    TrimRightShape(s);
    if |s| > 0 && IsSpace(s[|s| - 1]) {
      var r := TrimRight(s[..|s| - 1]);
      TrimRightDropsSpace(s[..|s| - 1]);
      assert s[|r|..] == s[..|s| - 1][|r|..] + [s[|s| - 1]];
    }
  }

  // `s.strip()`.
  function Strip(s: string): string
  {
    TrimRight(TrimLeft(s))
  }

  // The stripped text is no longer than the original and neither starts nor
  // ends with whitespace.
  lemma StripShape(s: string)
    ensures var r := Strip(s); |r| <= |s| && (r == [] || (!IsSpace(r[0]) && !IsSpace(r[|r| - 1])))
  {
    TrimLeftShape(s);
    var l := TrimLeft(s);
    TrimRightShape(l);
    var r := TrimRight(l);
    if r != [] {
      assert r[0] == l[0];
    }
  }

  lemma {:induction false} TrimLeftOfAllSpace(s: string)
    requires AllSpace(s)
    ensures TrimLeft(s) == []
  {
    if |s| > 0 {
      assert IsSpace(s[0]);
      TrimLeftOfAllSpace(s[1..]);
    }
  }

  lemma StripOfAllSpace(s: string)
    requires AllSpace(s)
    ensures Strip(s) == []
  {
    TrimLeftOfAllSpace(s);
  }

  lemma StripNoSpaceEnds(s: string)
    requires s == [] || (!IsSpace(s[0]) && !IsSpace(s[|s| - 1]))
    ensures Strip(s) == s
  {
  }

  lemma StripIdempotent(s: string)
    ensures Strip(Strip(s)) == Strip(s)
  {
    StripShape(s);
    StripNoSpaceEnds(Strip(s));
  }

  // Leading whitespace in front of a text is all `lstrip` removes of it.
  lemma {:induction false} TrimLeftSpacePrefix(ws: string, x: string)
    requires AllSpace(ws)
    ensures TrimLeft(ws + x) == TrimLeft(x)
  {
    if ws != [] {
      assert IsSpace((ws + x)[0]);
      assert (ws + x)[1..] == ws[1..] + x;
      TrimLeftSpacePrefix(ws[1..], x);
    } else {
      assert ws + x == x;
    }
  }

  // `rstrip` stops at a text's last non-space character.
  lemma {:induction false} TrimRightAppend(a: string, b: string)
    requires a != [] && !IsSpace(a[|a| - 1])
    ensures TrimRight(a + b) == a + TrimRight(b)
  {
    if b == [] {
      assert a + b == a;
    } else if IsSpace(b[|b| - 1]) {
      assert (a + b)[..|a + b| - 1] == a + b[..|b| - 1];
      TrimRightAppend(a, b[..|b| - 1]);
    }
  }

  lemma {:induction false} TrimLeftAppend(y: string, z: string)
    requires TrimLeft(y) != []
    ensures TrimLeft(y + z) == TrimLeft(y) + z
  {
    if IsSpace(y[0]) {
      assert (y + z)[1..] == y[1..] + z;
      TrimLeftAppend(y[1..], z);
    }
  }

  lemma {:induction false} TrimRightSpaceTail(w: string, sp: string)
    requires AllSpace(sp)
    ensures TrimRight(w + sp) == TrimRight(w)
  {
    if sp == [] {
      assert w + sp == w;
    } else {
      assert (w + sp)[..|w + sp| - 1] == w + sp[..|sp| - 1];
      TrimRightSpaceTail(w, sp[..|sp| - 1]);
    }
  }

  // `rstrip` then `lstrip` is `strip`.
  lemma TrimLeftTrimRight(x: string)
    ensures TrimLeft(TrimRight(x)) == Strip(x)
  {
    var y := TrimRight(x);
    TrimRightShape(x);
    TrimRightDropsSpace(x);
    var sp := x[|y|..];
    assert x == y + sp;
    TrimLeftShape(y);
    if TrimLeft(y) != [] {
      TrimLeftAppend(y, sp);
      TrimRightSpaceTail(TrimLeft(y), sp);
      var l := TrimLeft(y);
      assert l[|l| - 1] == y[|y| - 1];
    } else {
      TrimLeftDropsSpace(y);
      assert AllSpace(x) by {
        assert y[..|y|] == y;
      }
      StripOfAllSpace(x);
    }
  }

  // Python's `str.lower` on Latin-1 and Cyrillic upper-case letters; every
  // other character is left as it is.
  function LowerChar(c: char): (l: char)
    ensures !('A' <= l <= 'Z')
  {
    if 'A' <= c <= 'Z' then (c as int + 32) as char
    else if ('\U{00C0}' <= c <= '\U{00DE}') && c != '\U{00D7}' then (c as int + 32) as char
    else if '\U{0400}' <= c <= '\U{040F}' then (c as int + 0x50) as char
    else if '\U{0410}' <= c <= '\U{042F}' then (c as int + 0x20) as char
    else c
  }

  function Lower(s: string): (r: string)
    ensures |r| == |s| && forall i :: 0 <= i < |s| ==> r[i] == LowerChar(s[i])
  {
    seq(|s|, i requires 0 <= i < |s| => LowerChar(s[i]))
  }

  // `needle in hay` for strings.
  predicate Contains(hay: string, needle: string)
  {
    exists i :: 0 <= i <= |hay| - |needle| && OccursAt(hay, needle, i)
  }

  predicate OccursAt(hay: string, needle: string, i: int)
    requires 0 <= i <= |hay| - |needle|
  {
    hay[i..i + |needle|] == needle
  }

  // `sep.join(parts)`.
  function Join(parts: seq<string>, sep: string): string
  {
    if |parts| == 0 then "" else if |parts| == 1 then parts[0] else parts[0] + sep + Join(parts[1..], sep)
  }

  lemma {:induction false} JoinExtend(parts: seq<string>, p: string, sep: string)
    requires |parts| > 0
    ensures Join(parts + [p], sep) == Join(parts, sep) + sep + p
  {
    if |parts| > 1 {
      assert (parts + [p])[1..] == parts[1..] + [p];
      JoinExtend(parts[1..], p, sep);
    } else {
      assert (parts + [p])[1..] == [p];
    }
  }

  // A string occurs in any concatenation that has it as a part.
  lemma ContainsInMiddle(a: string, n: string, b: string)
    ensures Contains(a + n + b, n)
  {
    var s := a + n + b;
    assert s[|a|..|a| + |n|] == n;
    assert OccursAt(s, n, |a|);
  }

  lemma ContainsSuffix(a: string, n: string)
    ensures Contains(a + n, n)
  {
    assert (a + n)[|a|..|a| + |n|] == n;
    assert OccursAt(a + n, n, |a|);
  }

  lemma ContainsPrefix(n: string, b: string)
    ensures Contains(n + b, n)
  {
    assert (n + b)[0..|n|] == n;
    assert OccursAt(n + b, n, 0);
  }

  lemma ContainsGrows(a: string, h: string, b: string, n: string)
    requires Contains(h, n)
    ensures Contains(a + h + b, n)
  {
    var i :| 0 <= i <= |h| - |n| && OccursAt(h, n, i);
    var s := a + h + b;
    assert s[|a| + i..|a| + i + |n|] == h[i..i + |n|];
    assert OccursAt(s, n, |a| + i);
  }

  // Every part of a join occurs in the joined text.
  lemma {:induction false} JoinContainsPart(parts: seq<string>, sep: string, i: nat)
    requires i < |parts|
    ensures Contains(Join(parts, sep), parts[i])
  {
    if |parts| == 1 {
      ContainsInMiddle("", parts[0], "");
      assert "" + parts[0] + "" == parts[0];
    } else if i == 0 {
      ContainsInMiddle("", parts[0], sep + Join(parts[1..], sep));
      assert "" + parts[0] + (sep + Join(parts[1..], sep)) == Join(parts, sep);
    } else {
      JoinContainsPart(parts[1..], sep, i - 1);
      ContainsGrows(parts[0] + sep, Join(parts[1..], sep), "", parts[i]);
      assert parts[0] + sep + Join(parts[1..], sep) + "" == Join(parts, sep);
    }
  }

  // Lower-casing keeps an occurrence: `n in h` implies `n.lower() in h.lower()`.
  lemma LowerContains(h: string, n: string)
    requires Contains(h, n)
    ensures Contains(Lower(h), Lower(n))
  {
    var i :| 0 <= i <= |h| - |n| && OccursAt(h, n, i);
    assert Lower(h)[i..i + |n|] == Lower(n);
    assert OccursAt(Lower(h), Lower(n), i);
  }

  // A join starts with its first part.
  lemma {:induction false} JoinStartsWithFirst(parts: seq<string>, sep: string)
    requires |parts| > 0
    ensures |parts[0]| <= |Join(parts, sep)| && Join(parts, sep)[..|parts[0]|] == parts[0]
  {
  }

  // `rstrip` keeps every occurrence that ends in a non-space character.
  lemma TrimRightKeeps(s: string, n: string)
    requires Contains(s, n) && n != [] && !IsSpace(n[|n| - 1])
    ensures Contains(TrimRight(s), n)
  {
    var i :| 0 <= i <= |s| - |n| && OccursAt(s, n, i);
    var r := TrimRight(s);
    TrimRightShape(s);
    TrimRightDropsSpace(s);
    assert s[i + |n| - 1] == n[|n| - 1];
    assert r[i..i + |n|] == s[i..i + |n|];
    assert OccursAt(r, n, i);
  }

  lemma ContainsTrans(h: string, m: string, n: string)
    requires Contains(h, m) && Contains(m, n)
    ensures Contains(h, n)
  {
    var a :| 0 <= a <= |h| - |m| && OccursAt(h, m, a);
    var b :| 0 <= b <= |m| - |n| && OccursAt(m, n, b);
    assert h[a..a + |m|] == m;
    forall t | 0 <= t < |n|
      ensures h[a + b + t] == n[t]
    {
      assert h[a + b + t] == h[a..a + |m|][b + t];
      assert n[t] == m[b..b + |n|][t];
    }
    assert h[a + b..a + b + |n|] == n;
    assert OccursAt(h, n, a + b);
  }

  // `strip` of a text that starts with a non-space character keeps every
  // occurrence that ends in one.
  lemma StripKeeps(s: string, n: string)
    requires |s| > 0 && !IsSpace(s[0])
    requires Contains(s, n) && n != [] && !IsSpace(n[|n| - 1])
    ensures Contains(Strip(s), n)
  {
    TrimRightKeeps(s, n);
  }

  // `strip` of a text that starts with a given non-space prefix keeps the
  // prefix up to its last non-space character.
  lemma StripKeepsPrefix(s: string, p: string)
    requires |p| <= |s| && s[..|p|] == p && p != [] && !IsSpace(p[|p| - 1]) && !IsSpace(p[0])
    ensures |p| <= |Strip(s)| && Strip(s)[..|p|] == p
  {
    var r := TrimRight(s);
    TrimRightShape(s);
    TrimRightDropsSpace(s);
    assert s[|p| - 1] == p[|p| - 1];
  }

  // `str(x)` of a float with at most one decimal, as Python prints it:
  // "4.0", "4.5", "0.5".
  function TenthsText(r: real): (t: string)
    ensures t != []
  {
    var k := (r * 10.0).Floor;
    if k < 0 then "-" + NatToString(-k / 10) + "." + [DigitChar(-k % 10)]
    else NatToString(k / 10) + "." + [DigitChar(k % 10)]
  }

  // Four digits denote at most 9999, and the years 1000 to 9999 are written with four.
  lemma FourDigitsBound(s: string)
    requires |s| == 4 && AllDigits(s)
    ensures DigitsValue(s) <= 9999
  {
    assert s[..3][..2] == s[..2];
    assert s[..2][..1] == s[..1];
    assert s[..1][..0] == [];
    assert DigitsValue(s[..1]) <= 9;
    assert DigitsValue(s[..2]) <= 99;
    assert DigitsValue(s[..3]) <= 999;
  }

  lemma FourDigitYear(y: nat)
    requires 1000 <= y <= 9999
    ensures |NatToString(y)| == 4
  {
    assert |NatToString(y / 1000)| == 1;
    assert y / 10 / 10 == y / 100 && y / 100 / 10 == y / 1000;
    assert |NatToString(y / 100)| == 2;
    assert |NatToString(y / 10)| == 3;
  }

  // What `strip` keeps is one contiguous slice of the text.
  lemma StripIsSlice(s: string) returns (k: nat)
    ensures k + |Strip(s)| <= |s| && Strip(s) == s[k..k + |Strip(s)|]
  {
    TrimLeftShape(s);
    var l := TrimLeft(s);
    TrimRightShape(l);
    k := |s| - |l|;
  }

  // `str.lower` changes nothing the second time.
  lemma LowerCharIdempotent(c: char)
    ensures LowerChar(LowerChar(c)) == LowerChar(c)
  {
  }

  // The first position of c in s (`s.find(c)` when it is not -1).
  function IndexOf(s: string, c: char): (r: Option<nat>)
    ensures r.Some? ==> r.value < |s| && s[r.value] == c && c !in s[..r.value]
    ensures r.None? <==> c !in s
  {
    if s == [] then None
    else if s[0] == c then Some(0)
    else match IndexOf(s[1..], c)
      case None => None
      case Some(i) =>
        assert s[..i + 1] == [s[0]] + s[1..][..i];
        Some(i + 1)
  }

  // `s.split(c)`: the pieces between the occurrences of c.
  function Split(s: string, c: char): (r: seq<string>)
    ensures |r| >= 1
    decreases |s|
  {
    match IndexOf(s, c)
    case None => [s]
    case Some(i) => [s[..i]] + Split(s[i + 1..], c)
  }

  // The first occurrence of c in a text that starts with a piece free of c.
  lemma IndexAfterPiece(a: string, c: char, b: string)
    requires c !in a
    ensures IndexOf(a + [c] + b, c) == Some(|a|)
  {
    var s := a + [c] + b;
    assert s[|a|] == c;
  }

  // Splitting a text that starts with a piece free of c and then c.
  lemma SplitAfterPiece(a: string, c: char, b: string)
    requires c !in a
    ensures Split(a + [c] + b, c) == [a] + Split(b, c)
  {
    var s := a + [c] + b;
    IndexAfterPiece(a, c, b);
    assert s[..|a|] == a;
    assert s[|a| + 1..] == b;
  }

  lemma SplitOfPlain(a: string, c: char)
    requires c !in a
    ensures Split(a, c) == [a]
  {
  }

  // `s[:n]` for a non-negative n.
  function Take<T>(s: seq<T>, n: nat): (r: seq<T>)
    ensures |r| == if n < |s| then n else |s|
    ensures r == s[..|r|]
  {
    if n < |s| then s[..n] else s
  }
}
