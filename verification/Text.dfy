/** The ASCII fragment of Go's `strings` package that the service relies on. */
module Text {

  predicate IsSpace(c: char) {
    c == ' ' || c == '\t' || c == '\n' || c == '\r' || c as int == 11 || c as int == 12
  }

  function UpperChar(c: char): char {
    if 'a' <= c <= 'z' then (c as int - 32) as char else c
  }

  function LowerChar(c: char): char {
    if 'A' <= c <= 'Z' then (c as int + 32) as char else c
  }

  function ToUpper(s: string): (r: string)
    ensures |r| == |s|
    ensures forall i :: 0 <= i < |s| ==> r[i] == UpperChar(s[i])
  {
    seq(|s|, i requires 0 <= i < |s| => UpperChar(s[i]))
  }

  function ToLower(s: string): (r: string)
    ensures |r| == |s|
    ensures forall i :: 0 <= i < |s| ==> r[i] == LowerChar(s[i])
  {
    seq(|s|, i requires 0 <= i < |s| => LowerChar(s[i]))
  }

  function TrimLeft(s: string): string {
    if s != "" && IsSpace(s[0]) then TrimLeft(s[1..]) else s
  }

  function TrimRight(s: string): string {
    if s != "" && IsSpace(s[|s| - 1]) then TrimRight(s[..|s| - 1]) else s
  }

  function TrimSpace(s: string): string {
    TrimRight(TrimLeft(s))
  }

  /** `strings.Contains(s, part)`. */
  predicate Contains(s: string, part: string) {
    part <= s || (s != "" && Contains(s[1..], part))
  }

  /** Neither end of `s` is white space, so trimming leaves it alone. */
  predicate Trimmed(s: string) {
    s == "" || (!IsSpace(s[0]) && !IsSpace(s[|s| - 1]))
  }

  lemma ToUpperIdempotent(s: string)
    ensures ToUpper(ToUpper(s)) == ToUpper(s)
  {
  }

  lemma TrimmedIsFixed(s: string)
    requires Trimmed(s)
    ensures TrimSpace(s) == s
  {
  }

  lemma {:induction false} TrimLeftStart(s: string)
    ensures TrimLeft(s) == "" || !IsSpace(TrimLeft(s)[0])
    ensures |TrimLeft(s)| <= |s|
  {
    if s != "" && IsSpace(s[0]) {
      TrimLeftStart(s[1..]);
    }
  }

  lemma {:induction false} TrimRightEnds(s: string)
    ensures TrimRight(s) == "" || !IsSpace(TrimRight(s)[|TrimRight(s)| - 1])
    ensures TrimRight(s) <= s
  {
    if s != "" && IsSpace(s[|s| - 1]) {
      TrimRightEnds(s[..|s| - 1]);
    }
  }

  /** Trimming yields a trimmed string, whatever it is given. */
  lemma TrimSpaceTrims(s: string)
    ensures Trimmed(TrimSpace(s))
  {
    TrimLeftStart(s);
    TrimRightEnds(TrimLeft(s));
  }

  /** Go's `<` on strings: byte-wise lexicographic. */
  predicate Before(a: string, b: string) {
    if b == "" then false
    else if a == "" then true
    else a[0] < b[0] || (a[0] == b[0] && Before(a[1..], b[1..]))
  }

  lemma {:induction false} BeforeTransitive(a: string, b: string, c: string)
    requires Before(a, b) && Before(b, c)
    ensures Before(a, c)
  {
    if a != "" && a[0] == b[0] && b[0] == c[0] {
      BeforeTransitive(a[1..], b[1..], c[1..]);
    }
  }

  lemma {:induction false} BeforeTotal(a: string, b: string)
    ensures a == b || Before(a, b) || Before(b, a)
    ensures !(Before(a, b) && Before(b, a))
    ensures !Before(a, a)
  {
    if a != "" && b != "" {
      assert a == [a[0]] + a[1..] && b == [b[0]] + b[1..];
      BeforeTotal(a[1..], b[1..]);
    }
    BeforeIrreflexive(a);
  }

  lemma {:induction false} BeforeIrreflexive(a: string)
    ensures !Before(a, a)
  {
    if a != "" {
      BeforeIrreflexive(a[1..]);
    }
  }

  /** `a` comes first exactly when it is a proper prefix of `b`, or smaller at their first difference. */
  lemma {:induction false} BeforeExact(a: string, b: string)
    ensures Before(a, b) <==>
            (|a| < |b| && a <= b)
            || exists i :: 0 <= i < |a| && i < |b| && a[..i] == b[..i] && a[i] < b[i]
  {
    if a != "" && b != "" {
      var a', b' := a[1..], b[1..];
      BeforeExact(a', b');
      assert a == [a[0]] + a' && b == [b[0]] + b';
      if a[0] == b[0] {
        assert a <= b <==> a' <= b';
        ShiftExists(a, b);
      } else {
        assert a[..0] == b[..0];
        assert forall i :: 0 < i < |a| && i < |b| ==> a[..i][0] != b[..i][0];
      }
    }
  }

  /** The first difference of two words with the same first letter is that of their tails, one later. */
  lemma ShiftExists(a: string, b: string)
    requires a != "" && b != "" && a[0] == b[0]
    ensures (exists i :: 0 <= i < |a| && i < |b| && a[..i] == b[..i] && a[i] < b[i]) <==>
            (exists i :: 0 <= i < |a| - 1 && i < |b| - 1 && a[1..][..i] == b[1..][..i] && a[1..][i] < b[1..][i])
  {
    if i :| 0 <= i < |a| && i < |b| && a[..i] == b[..i] && a[i] < b[i] {
      assert i > 0;
      assert a[1..][..i - 1] == a[..i][1..] && b[1..][..i - 1] == b[..i][1..];
      assert a[1..][i - 1] < b[1..][i - 1];
    }
    if i :| 0 <= i < |a| - 1 && i < |b| - 1 && a[1..][..i] == b[1..][..i] && a[1..][i] < b[1..][i] {
      assert a[..i + 1] == [a[0]] + a[1..][..i] && b[..i + 1] == [b[0]] + b[1..][..i];
      assert a[i + 1] < b[i + 1];
    }
  }

  /** `part` occurs in `s` at some position. */
  lemma {:induction false} ContainsExact(s: string, part: string)
    ensures Contains(s, part) <==> exists i :: 0 <= i <= |s| && part <= s[i..]
  {
    assert s[0..] == s;
    if s != "" {
      var rest := s[1..];
      ContainsExact(rest, part);
      assert forall i :: 0 <= i <= |rest| ==> rest[i..] == s[i + 1..];
      if i :| 0 < i <= |s| && part <= s[i..] {
        assert rest[i - 1..] == s[i..];
      }
    }
  }

  // ---- case and padding ----

  /** The same letter up to case, in ASCII. */
  predicate SameLetter(c: char, d: char) {
    c == d || ('a' <= c <= 'z' && c as int == d as int + 32) || ('a' <= d <= 'z' && d as int == c as int + 32)
  }

  predicate SameText(a: string, b: string) {
    |a| == |b| && forall i :: 0 <= i < |a| ==> SameLetter(a[i], b[i])
  }

  /** Upper-casing forgets case and nothing else, and leaves no lower-case letter. */
  lemma ToUpperForgetsCase(a: string, b: string)
    ensures ToUpper(a) == ToUpper(b) <==> SameText(a, b)
    ensures forall i :: 0 <= i < |a| ==> !('a' <= ToUpper(a)[i] <= 'z')
  {
    if ToUpper(a) == ToUpper(b) {
      forall i | 0 <= i < |a|
        ensures SameLetter(a[i], b[i])
      {
        assert ToUpper(a)[i] == ToUpper(b)[i];
      }
    }
  }

  lemma ToLowerForgetsCase(a: string, b: string)
    ensures ToLower(a) == ToLower(b) <==> SameText(a, b)
    ensures forall i :: 0 <= i < |a| ==> !('A' <= ToLower(a)[i] <= 'Z')
  {
    if ToLower(a) == ToLower(b) {
      forall i | 0 <= i < |a|
        ensures SameLetter(a[i], b[i])
      {
        assert ToLower(a)[i] == ToLower(b)[i];
      }
    }
  }

  /** Only blanks, tabs and line ends: ASCII 32 and 9 to 13. */
  predicate BlankChar(c: char) {
    c as int == 32 || 9 <= c as int <= 13
  }

  predicate Blank(s: string) {
    forall i :: 0 <= i < |s| ==> BlankChar(s[i])
  }

  lemma {:induction false} TrimLeftSplits(s: string) returns (lead: string)
    ensures Blank(lead) && s == lead + TrimLeft(s)
  {
    lead := "";
    if s != "" && IsSpace(s[0]) {
      var rest := TrimLeftSplits(s[1..]);
      lead := [s[0]] + rest;
    }
  }

  lemma {:induction false} TrimRightSplits(s: string) returns (tail: string)
    ensures Blank(tail) && s == TrimRight(s) + tail
  {
    tail := "";
    if s != "" && IsSpace(s[|s| - 1]) {
      var rest := TrimRightSplits(s[..|s| - 1]);
      tail := rest + [s[|s| - 1]];
    }
  }

  /** Trimming takes blanks off both ends, all of them, and nothing else. */
  lemma TrimSpaceExact(s: string) returns (lead: string, tail: string)
    ensures Blank(lead) && Blank(tail) && s == lead + TrimSpace(s) + tail
    ensures var t := TrimSpace(s); t == "" || (!BlankChar(t[0]) && !BlankChar(t[|t| - 1]))
  {
    lead := TrimLeftSplits(s);
    tail := TrimRightSplits(TrimLeft(s));
    TrimSpaceTrims(s);
    hide TrimLeft, TrimRight, Blank;
  }

  lemma {:induction false} TrimLeftUpper(s: string)
    ensures TrimLeft(ToUpper(s)) == ToUpper(TrimLeft(s))
  {
    if s != "" && IsSpace(s[0]) {
      TrimLeftUpper(s[1..]);
      assert ToUpper(s)[1..] == ToUpper(s[1..]);
    }
  }

  lemma {:induction false} TrimRightUpper(s: string)
    ensures TrimRight(ToUpper(s)) == ToUpper(TrimRight(s))
  {
    if s != "" && IsSpace(s[|s| - 1]) {
      TrimRightUpper(s[..|s| - 1]);
      assert ToUpper(s)[..|s| - 1] == ToUpper(s[..|s| - 1]);
    }
  }

  /** Upper-casing and trimming may be done in either order. */
  lemma TrimUpperCommute(s: string)
    ensures TrimSpace(ToUpper(s)) == ToUpper(TrimSpace(s))
  {
    TrimLeftUpper(s);
    TrimRightUpper(TrimLeft(s));
  }

  /** What trims to nothing is blank. */
  lemma TrimsToNothing(s: string)
    ensures TrimSpace(s) == "" <==> Blank(s)
  {
    var lead, tail := TrimSpaceExact(s);
    var t := TrimSpace(s);
    hide TrimSpace, BlankChar;
    if t != "" {
      assert s[|lead|] == t[0];
    }
  }

  // ---- decimal integers, as `%d` prints them ----

  function Digit(d: nat): char
    requires d < 10
  {
    ('0' as int + d) as char
  }

  function Digits(n: nat): (r: string)
    ensures r != ""
  {
    if n < 10 then [Digit(n)] else Digits(n / 10) + [Digit(n % 10)]
  }

  function Decimal(n: int): (r: string)
    ensures r != ""
  {
    if n < 0 then "-" + Digits(-n) else Digits(n)
  }

  /** Reading the digits back. */
  function Value(s: string): int {
    if s == "" then 0 else Value(s[..|s| - 1]) * 10 + (s[|s| - 1] as int - '0' as int)
  }

  lemma {:induction false} DigitsRoundTrip(n: nat)
    ensures Value(Digits(n)) == n
    ensures '0' <= Digits(n)[0] <= '9'
    ensures '0' <= Digits(n)[|Digits(n)| - 1] <= '9'
  {
    if n >= 10 {
      DigitsRoundTrip(n / 10);
      var tail := [Digit(n % 10)];
      assert (Digits(n / 10) + tail)[..|Digits(n / 10)|] == Digits(n / 10);
    } else {
      assert Digits(n)[..0] == "";
    }
  }

  /** Different integers print differently, and nothing printed is blank at either end. */
  lemma DecimalInjective(a: int, b: int)
    ensures Decimal(a) == Decimal(b) ==> a == b
    ensures Trimmed(Decimal(a))
  {
    DigitsRoundTrip(if a < 0 then -a else a);
    DigitsRoundTrip(if b < 0 then -b else b);
    if Decimal(a) == Decimal(b) && a < 0 && b < 0 {
      assert Decimal(a)[1..] == Digits(-a) && Decimal(b)[1..] == Digits(-b);
    }
  }
}
