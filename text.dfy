/**
 * The few pieces of Python's string handling that the parsers rely on:
 * `str.strip()`, `str.split()` with no separator, `str.replace(",", " ")`,
 * `int(str)` for base-10 text and `str(int)`.
 */
module Text {
  import opened Common

  /** Python's `str.isspace()` for one character. */
  predicate IsSpace(c: char)
  {
    || ('\t' <= c <= '\r') || ('\U{1C}' <= c <= '\U{1F}') || c == ' '
    || c == '\U{85}' || c == '\U{A0}' || c == '\U{1680}'
    || ('\U{2000}' <= c <= '\U{200A}') || c == '\U{2028}' || c == '\U{2029}'
    || c == '\U{202F}' || c == '\U{205F}' || c == '\U{3000}'
  }

  predicate AllSpace(s: string)
  {
    forall i :: 0 <= i < |s| ==> IsSpace(s[i])
  }

  predicate NoSpace(s: string)
  {
    forall i :: 0 <= i < |s| ==> !IsSpace(s[i])
  }

  /** `str.lstrip()`: the suffix left after dropping leading whitespace. */
  function LStrip(s: string): (r: string)
    ensures |r| <= |s| && r == s[|s| - |r|..]
    ensures AllSpace(s[..|s| - |r|])
    ensures r == [] || !IsSpace(r[0])
  {
    if |s| > 0 && IsSpace(s[0]) then
      var r := LStrip(s[1..]);
      LStripStep(s, r);
      r
    else
      assert s[..0] == [];
      s
  }

  lemma LStripStep(s: string, r: string)
    requires |s| > 0 && IsSpace(s[0])
    requires |r| <= |s| - 1 && r == s[1..][|s| - 1 - |r|..] && AllSpace(s[1..][..|s| - 1 - |r|])
    ensures r == s[|s| - |r|..] && AllSpace(s[..|s| - |r|])
  {
    assert s[1..][|s| - 1 - |r|..] == s[|s| - |r|..];
    var pre, rest := s[..|s| - |r|], s[1..][..|s| - 1 - |r|];
    assert pre == [s[0]] + rest;
  }

  /** `str.rstrip()`: the prefix left after dropping trailing whitespace. */
  function RStrip(s: string): (r: string)
    ensures |r| <= |s| && r == s[..|r|]
    ensures AllSpace(s[|r|..])
    ensures r == [] || !IsSpace(r[|r| - 1])
  {
    if |s| > 0 && IsSpace(s[|s| - 1]) then
      var r := RStrip(s[..|s| - 1]);
      RStripStep(s, r);
      r
    else
      assert s[|s|..] == [];
      s
  }

  lemma RStripStep(s: string, r: string)
    requires |s| > 0 && IsSpace(s[|s| - 1])
    requires |r| <= |s| - 1 && r == s[..|s| - 1][..|r|] && AllSpace(s[..|s| - 1][|r|..])
    ensures r == s[..|r|] && AllSpace(s[|r|..])
  {
    assert s[..|s| - 1][..|r|] == s[..|r|];
    var post, rest := s[|r|..], s[..|s| - 1][|r|..];
    assert post == rest + [s[|s| - 1]];
  }

  /** s is r with i whitespace characters before it and only whitespace after it. */
  predicate Padded(s: string, r: string, i: int)
  {
    && 0 <= i <= |s| - |r| && s[i..i + |r|] == r
    && AllSpace(s[..i]) && AllSpace(s[i + |r|..])
  }

  /** `str.strip()`: s is r surrounded by whitespace only, and r neither starts nor ends with it. */
  function Strip(s: string): (r: string)
    ensures r == [] || (!IsSpace(r[0]) && !IsSpace(r[|r| - 1]))
    ensures exists i :: Padded(s, r, i)
  {
    StripPadded(s);
    RStrip(LStrip(s))
  }

  lemma StripPadded(s: string)
    ensures Padded(s, RStrip(LStrip(s)), |s| - |LStrip(s)|)
  {
    PaddedParts(s, LStrip(s), RStrip(LStrip(s)));
  }

  /** Whitespace stripped off the front of s, then off the back of the rest, pads what remains. */
  lemma PaddedParts(s: string, l: string, r: string)
    requires |l| <= |s| && l == s[|s| - |l|..] && AllSpace(s[..|s| - |l|])
    requires |r| <= |l| && r == l[..|r|] && AllSpace(l[|r|..])
    ensures Padded(s, r, |s| - |l|)
  {
    var i := |s| - |l|;
    assert s[i..i + |r|] == r by {
      assert s[i..i + |r|] == l[..|r|];
    }
    assert AllSpace(s[i + |r|..]) by {
      assert s[i + |r|..] == l[|r|..];
    }
  }

  /** Length of the leading run of non-whitespace characters. */
  function WordLength(s: string): (n: nat)
    ensures n <= |s| && NoSpace(s[..n])
    ensures n == |s| || IsSpace(s[n])
  {
    if |s| == 0 || IsSpace(s[0]) then 0 else 1 + WordLength(s[1..])
  }

  /** `str.split()`: the maximal runs of non-whitespace characters, in order. */
  function Split(s: string): (ws: seq<string>)
    ensures forall w :: w in ws ==> |w| > 0 && NoSpace(w)
    decreases |s|
  {
    if s == [] then []
    else if IsSpace(s[0]) then Split(s[1..])
    else
      var n := WordLength(s);
      [s[..n]] + Split(s[n..])
  }

  /** `str.replace(",", " ")`. */
  function ReplaceCommas(s: string): (r: string)
    ensures |r| == |s|
    ensures forall i :: 0 <= i < |s| ==> r[i] == (if s[i] == ',' then ' ' else s[i])
  {
    seq(|s|, i requires 0 <= i < |s| => if s[i] == ',' then ' ' else s[i])
  }

  predicate IsDigit(c: char) { '0' <= c <= '9' }

  function DigitValue(c: char): nat
    requires IsDigit(c)
  {
    (c as int) - ('0' as int)
  }

  function DigitChar(d: nat): (c: char)
    requires d < 10
    ensures IsDigit(c) && DigitValue(c) == d
  {
    ('0' as int + d) as char
  }

  /**
   * The digit part accepted by `int(str)` in base 10: ASCII digits, where single
   * underscores may separate two digits.
   */
  predicate WellFormedDigits(s: string)
  {
    && |s| >= 1 && IsDigit(s[0]) && IsDigit(s[|s| - 1])
    && (forall i :: 0 <= i < |s| ==> IsDigit(s[i]) || s[i] == '_')
    && (forall i :: 0 <= i < |s| - 1 ==> s[i] == '_' ==> IsDigit(s[i + 1]))
  }

  /** Value of a digit string, underscores ignored. */
  function DigitsValue(s: string): nat
    requires forall i :: 0 <= i < |s| ==> IsDigit(s[i]) || s[i] == '_'
  {
    if s == [] then 0
    else if s[|s| - 1] == '_' then DigitsValue(s[..|s| - 1])
    else 10 * DigitsValue(s[..|s| - 1]) + DigitValue(s[|s| - 1])
  }

  /** `int(token)` on a whitespace-free token: an optional sign, then digits. */
  function ParseInt(s: string): Option<int>
  {
    if |s| >= 1 && (s[0] == '+' || s[0] == '-') then
      if WellFormedDigits(s[1..]) then
        var v: int := DigitsValue(s[1..]);
        Some(if s[0] == '-' then -v else v)
      else None
    else if WellFormedDigits(s) then Some(DigitsValue(s))
    else None
  }

  /** `str(n)` for a non-negative n: its decimal digits, no leading zero. */
  function NatToString(n: nat): (s: string)
    ensures |s| >= 1 && forall i :: 0 <= i < |s| ==> IsDigit(s[i])
    ensures |s| > 1 ==> s[0] != '0'
  {
    if n < 10 then [DigitChar(n)] else NatToString(n / 10) + [DigitChar(n % 10)]
  }

  /** `str(n)`. */
  function IntToString(n: int): string
  {
    if n < 0 then "-" + NatToString(-n) else NatToString(n)
  }

  lemma {:induction false} NatToStringValue(n: nat)
    ensures WellFormedDigits(NatToString(n)) && DigitsValue(NatToString(n)) == n
  {
    var s := NatToString(n);
    if n >= 10 {
      NatToStringValue(n / 10);
      assert s[..|s| - 1] == NatToString(n / 10);
    }
  }

  /** `int(str(n)) == n`. */
  lemma ParseIntRoundTrip(n: int)
    ensures ParseInt(IntToString(n)) == Some(n)
  {
    var s := IntToString(n);
    if n < 0 {
      var digits := NatToString(-n);
      NatToStringValue(-n);
      assert s[0] == '-' && s[1..] == digits;
    } else {
      NatToStringValue(n);
      assert IsDigit(s[0]);
    }
  }

  /** What `str(n)` looks like: a non-empty token without whitespace or commas. */
  lemma IntToStringShape(n: int)
    ensures var s := IntToString(n);
      && |s| >= 1 && NoSpace(s) && ',' !in s && IsDigit(s[|s| - 1])
  {
  }

  lemma {:induction false} SplitSkipsSpace(sp: string, rest: string)
    requires AllSpace(sp)
    ensures Split(sp + rest) == Split(rest)
    decreases |sp|
  {
    if sp != [] {
      var whole := sp + rest;
      assert whole[0] == sp[0];
      assert whole[1..] == sp[1..] + rest;
      SplitSkipsSpace(sp[1..], rest);
    } else {
      assert sp + rest == rest;
    }
  }

  lemma {:induction false} WordLengthOfWord(w: string, rest: string)
    requires NoSpace(w) && (rest == [] || IsSpace(rest[0]))
    ensures WordLength(w + rest) == |w|
    decreases |w|
  {
    if w != [] {
      assert (w + rest)[1..] == w[1..] + rest;
      WordLengthOfWord(w[1..], rest);
    } else {
      assert w + rest == rest;
    }
  }

  /** A word followed by whitespace (or nothing) is split off as one token. */
  lemma SplitWord(w: string, rest: string)
    requires |w| > 0 && NoSpace(w) && (rest == [] || IsSpace(rest[0]))
    ensures Split(w + rest) == [w] + Split(rest)
  {
    var whole := w + rest;
    assert whole[0] == w[0];
    WordLengthOfWord(w, rest);
    assert whole[..|w|] == w;
    assert whole[|w|..] == rest;
  }

  /** `" ".join(ws)`. */
  function JoinSpaced(ws: seq<string>): string
  {
    if |ws| == 0 then "" else if |ws| == 1 then ws[0] else ws[0] + (" " + JoinSpaced(ws[1..]))
  }

  lemma SplitSingle(w: string)
    requires |w| > 0 && NoSpace(w)
    ensures Split(w) == [w]
  {
    SplitWord(w, "");
    assert w + "" == w;
  }

  lemma JoinSpacedCons(w: string, tail: seq<string>)
    requires |tail| >= 1
    ensures JoinSpaced([w] + tail) == w + (" " + JoinSpaced(tail))
  {
    var ws := [w] + tail;
    assert ws[0] == w && ws[1..] == tail && |ws| > 1;
  }

  lemma SplitJoinStep(w: string, rest: string)
    requires |w| > 0 && NoSpace(w)
    ensures Split(w + (" " + rest)) == [w] + Split(rest)
  {
    SplitWord(w, " " + rest);
    SplitSkipsSpace(" ", rest);
  }

  /** `str.split()` undoes `" ".join(...)` on non-empty whitespace-free words. */
  lemma {:induction false} SplitJoinSpaced(ws: seq<string>)
    requires forall w :: w in ws ==> |w| > 0 && NoSpace(w)
    ensures Split(JoinSpaced(ws)) == ws
    decreases |ws|
  {
    if |ws| == 1 {
      SplitSingle(ws[0]);
    } else if |ws| > 1 {
      var tail := ws[1..];
      assert forall w :: w in tail ==> w in ws;
      SplitJoinSpaced(tail);
      assert ws[0] in ws;
      assert [ws[0]] + tail == ws;
      JoinSpacedCons(ws[0], tail);
      SplitJoinStep(ws[0], JoinSpaced(tail));
    }
  }

  /**
   * The coordinate tokenizer shared by `parse_xy`, `parse_rc` and `parse_point`:
   * strip, turn commas into spaces, split on whitespace, and accept exactly two
   * integer tokens. Any failure is Python's ValueError.
   */
  function ParsePair(token: string): Option<(int, int)>
  {
    var parts := Split(ReplaceCommas(Strip(token)));
    if |parts| != 2 then None
    else
      match (ParseInt(parts[0]), ParseInt(parts[1]))
      case (Some(a), Some(b)) => Some((a, b))
      case _ => None
  }

  lemma StripUnpadded(s: string)
    requires s == [] || (!IsSpace(s[0]) && !IsSpace(s[|s| - 1]))
    ensures Strip(s) == s
  {
    assert LStrip(s) == s;
  }

  lemma ReplaceCommasConcat(a: string, b: string)
    ensures ReplaceCommas(a + b) == ReplaceCommas(a) + ReplaceCommas(b)
  {
  }

  lemma ReplaceCommasNone(s: string)
    requires ',' !in s
    ensures ReplaceCommas(s) == s
  {
  }

  lemma SeparatedWords(a: string, b: string, sep: string)
    requires |a| > 0 && NoSpace(a) && ',' !in a
    requires |b| > 0 && NoSpace(b) && ',' !in b
    requires |sep| >= 1 && forall i :: 0 <= i < |sep| ==> sep[i] == ',' || IsSpace(sep[i])
    ensures ReplaceCommas(a + sep + b) == a + ReplaceCommas(sep) + b
    ensures AllSpace(ReplaceCommas(sep))
  {
    ReplaceCommasConcat(a + sep, b);
    ReplaceCommasConcat(a, sep);
    ReplaceCommasNone(a);
    ReplaceCommasNone(b);
  }

  lemma SplitTwoWords(a: string, gap: string, b: string)
    requires |a| > 0 && NoSpace(a) && |b| > 0 && NoSpace(b)
    requires |gap| >= 1 && AllSpace(gap)
    ensures Split(a + gap + b) == [a, b]
  {
    assert a + gap + b == a + (gap + b);
    SplitWord(a, gap + b);
    SplitSkipsSpace(gap, b);
    SplitSingle(b);
  }

  /** A point written as "x,y", "x y", "x, y", ... is read back as (x, y). */
  lemma ParsePairRoundTrip(x: int, y: int, sep: string)
    requires |sep| >= 1 && forall i :: 0 <= i < |sep| ==> sep[i] == ',' || IsSpace(sep[i])
    ensures ParsePair(IntToString(x) + sep + IntToString(y)) == Some((x, y))
  {
    var a, b := IntToString(x), IntToString(y);
    var token := a + sep + b;
    assert Split(ReplaceCommas(Strip(token))) == [a, b] by {
      IntToStringShape(x);
      IntToStringShape(y);
      assert token[0] == a[0] && token[|token| - 1] == b[|b| - 1];
      StripUnpadded(token);
      SeparatedWords(a, b, sep);
      SplitTwoWords(a, ReplaceCommas(sep), b);
    }
    ParseIntRoundTrip(x);
    ParseIntRoundTrip(y);
    ParsePairOfWords(token, a, b);
  }

  lemma ParsePairOfWords(token: string, a: string, b: string)
    requires Split(ReplaceCommas(Strip(token))) == [a, b]
    requires ParseInt(a).Some? && ParseInt(b).Some?
    ensures ParsePair(token) == Some((ParseInt(a).value, ParseInt(b).value))
  {
  }

  lemma {:induction false} JoinSpacedShape(ws: seq<string>)
    requires |ws| >= 1 && forall w :: w in ws ==> |w| > 0 && NoSpace(w) && ',' !in w
    ensures var s := JoinSpaced(ws);
      && |s| >= 1 && s[0] == ws[0][0] && s[|s| - 1] == ws[|ws| - 1][|ws[|ws| - 1]| - 1]
      && ',' !in s
    decreases |ws|
  {
    if |ws| > 1 {
      var tail := ws[1..];
      assert forall w :: w in tail ==> w in ws;
      JoinSpacedShape(tail);
      var j := JoinSpaced(tail);
      assert JoinSpaced(ws) == ws[0] + (" " + j);
      assert ws[0] in ws && tail[|tail| - 1] == ws[|ws| - 1];
      assert ',' !in " " + j;
    }
  }

  /** A token holding any number of integers other than two is rejected. */
  lemma ParsePairRejectsOtherCounts(ws: seq<string>)
    requires |ws| != 2
    requires forall w :: w in ws ==> |w| > 0 && NoSpace(w) && ',' !in w
    ensures ParsePair(JoinSpaced(ws)) == None
  {
    var s := JoinSpaced(ws);
    if |ws| >= 1 {
      JoinSpacedShape(ws);
      StripUnpadded(s);
      ReplaceCommasNone(s);
      SplitJoinSpaced(ws);
    } else {
      assert Strip(s) == [];
      assert Split(ReplaceCommas([])) == [];
    }
  }
}
