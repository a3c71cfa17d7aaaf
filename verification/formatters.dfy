/**
 * The client's input formatters: the CPF mask applied while a Brazilian
 * taxpayer number is typed, and the loose e-mail shape check.
 *
 * `formatCPF` is a chain of `String.prototype.replace` calls with regular
 * expressions followed by `slice(0, 14)`. Each replace is modelled by the
 * match the JavaScript engine finds: without the `g` flag only the leftmost
 * match is rewritten.
 */
module Formatters {
  import opened Wrappers

  // ---------------------------------------------------------------------
  // Characters

  /** `\d` in a JavaScript regular expression: the ASCII digits only. */
  predicate IsDigit(c: char) {
    '0' <= c <= '9'
  }

  predicate AllDigits(s: string) {
    forall i :: 0 <= i < |s| ==> IsDigit(s[i])
  }

  /** The characters a CPF mask may contain. */
  predicate MaskChars(s: string) {
    forall i :: 0 <= i < |s| ==> IsDigit(s[i]) || s[i] == '.' || s[i] == '-'
  }

  /** `\s` in a JavaScript regular expression (WhiteSpace and LineTerminator). */
  predicate IsSpace(c: char) {
    c == '\t' || c == '\n' || c == '\U{000B}' || c == '\U{000C}' || c == '\r' || c == ' '
    || c == '\U{00A0}' || c == '\U{1680}' || ('\U{2000}' <= c <= '\U{200A}')
    || c == '\U{2028}' || c == '\U{2029}' || c == '\U{202F}' || c == '\U{205F}'
    || c == '\U{3000}' || c == '\U{FEFF}'
  }

  // ---------------------------------------------------------------------
  // formatCPF

  /** `replace(/\D/g, "")`: the digits of `s`, in order. */
  function Digits(s: string): (d: string)
    ensures AllDigits(d)
    ensures |d| <= |s|
  {
    if s == [] then []
    else if IsDigit(s[0]) then [s[0]] + Digits(s[1..])
    else Digits(s[1..])
  }

  /** Positions `j .. j+k-1` of `s` exist and are all digits. */
  predicate IsRun(s: string, k: nat, j: nat) {
    j + k <= |s| && forall t :: j <= t < j + k ==> IsDigit(s[t])
  }

  /**
   * The leftmost position at or after `from` where `k` digits start: where a
   * pattern made of `k` digit atoms first matches when scanned from `from`.
   */
  function FindRun(s: string, k: nat, from: nat): (r: Option<nat>)
    ensures r.Some? ==> from <= r.value && IsRun(s, k, r.value)
    ensures r.Some? ==> forall j :: from <= j < r.value ==> !IsRun(s, k, j)
    ensures r.None? ==> forall j :: from <= j ==> !IsRun(s, k, j)
    decreases |s| - from
  {
    if from + k > |s| then None
    else if IsRun(s, k, from) then Some(from)
    else FindRun(s, k, from + 1)
  }

  function InsertAt(s: string, p: nat, c: char): string
    requires p <= |s|
  {
    s[..p] + [c] + s[p..]
  }

  /**
   * `replace(/(\d{3})(\d)/, "$1.$2")`: the leftmost four consecutive digits
   * get a '.' after their third digit; without a match `s` is unchanged.
   */
  function DotStep(s: string): (r: string)
    ensures FindRun(s, 4, 0).None? ==> r == s
    ensures FindRun(s, 4, 0).Some? ==> |r| == |s| + 1 && r[FindRun(s, 4, 0).value + 3] == '.'
  {
    match FindRun(s, 4, 0)
    case None => s
    case Some(i) => InsertAt(s, i + 3, '.')
  }

  /**
   * `replace(/(\d{3})(\d{1,2})$/, "$1-$2")`: a match must end at the end of
   * `s` and spans 4 or 5 digits, so it can only start 5 or 4 characters before
   * the end; the leftmost of the two that works is taken, and a '-' goes
   * before the last 2 (resp. 1) of its digits.
   */
  function DashStep(s: string): (r: string)
    ensures r == s || (|r| == |s| + 1 && |s| >= 4 && IsDigit(r[|r| - 1]) && (r[|r| - 2] == '-' || r[|r| - 3] == '-'))
    ensures AllDigits(s) && |s| >= 4 ==> r != s
  {
    if |s| >= 5 && IsRun(s, 5, |s| - 5) then InsertAt(s, |s| - 2, '-')
    else if |s| >= 4 && IsRun(s, 4, |s| - 4) then InsertAt(s, |s| - 1, '-')
    else s
  }

  /** `slice(0, n)`. */
  function Take(s: string, n: nat): (r: string)
    ensures |r| <= n
    ensures |r| == if |s| <= n then |s| else n
    ensures r <= s
  {
    if |s| <= n then s else s[..n]
  }

  /** `formatCPF(value)`; the empty string is the only falsy string. */
  function FormatCPF(value: string): (r: string)
    ensures value == "" ==> r == ""
    ensures |r| <= 14
  {
    if value == "" then ""
    else Take(DashStep(DotStep(DotStep(Digits(value)))), 14)
  }

  /**
   * The mask `ddd.ddd.ddd-dd` laid over a string of digits, written out case
   * by case on the number of digits, beyond eleven included.
   */
  function Mask(d: string): string {
    var n := |d|;
    if n <= 3 then d
    else if n <= 6 then d[..3] + "." + d[3..]
    else if n <= 9 then d[..3] + "." + d[3..6] + "." + d[6..]
    else if n == 10 then d[..3] + "." + d[3..6] + "." + d[6..9] + "-" + d[9..]
    else d[..3] + "." + d[3..6] + "." + d[6..n - 2] + "-" + d[n - 2..]
  }

  lemma {:induction false} DigitsOfDigits(s: string)
    requires AllDigits(s)
    ensures Digits(s) == s
  {
    if s != [] {
      DigitsOfDigits(s[1..]);
    }
  }

  lemma {:induction false} DigitsConcat(a: string, b: string)
    ensures Digits(a + b) == Digits(a) + Digits(b)
  {
    if a == [] {
      assert a + b == b;
    } else {
      assert (a + b)[1..] == a[1..] + b;
      DigitsConcat(a[1..], b);
    }
  }

  /** The second dot step finds nothing before position 4 of `d[..3] + "." + d[3..]`. */
  lemma SecondDot(d: string)
    requires AllDigits(d) && |d| >= 4
    ensures DotStep(d[..3] + "." + d[3..])
         == if |d| <= 6 then d[..3] + "." + d[3..] else d[..3] + "." + d[3..6] + "." + d[6..]
  {
    var s := d[..3] + "." + d[3..];
    assert s[3] == '.';
    assert forall j :: 0 <= j <= 3 ==> !IsRun(s, 4, j) by {
      forall j | 0 <= j <= 3 ensures !IsRun(s, 4, j) {
        assert j <= 3 < j + 4;
      }
    }
    if |d| >= 7 {
      assert forall t :: 4 <= t < 8 ==> s[t] == d[t - 1];
      assert IsRun(s, 4, 4);
      var r := FindRun(s, 4, 0);
      assert r == Some(4);
      assert InsertAt(s, 7, '.') == d[..3] + "." + d[3..6] + "." + d[6..];
    } else {
      forall j | 4 <= j ensures !IsRun(s, 4, j) {}
      assert FindRun(s, 4, 0) == None;
    }
  }

  /** The dash step over one dot: with at most six digits there is nothing to do. */
  lemma DashAfterOneDot(d: string)
    requires AllDigits(d) && 4 <= |d| <= 6
    ensures DashStep(d[..3] + "." + d[3..]) == Mask(d)
  {
    var s2 := d[..3] + "." + d[3..];
    assert s2[3] == '.';
    assert !IsRun(s2, 5, |s2| - 5) by { assert |s2| - 5 <= 3 < |s2|; }
    assert !IsRun(s2, 4, |s2| - 4) by { assert |s2| - 4 <= 3 < |s2|; }
  }

  /** The dash step over two dots puts the '-' where the mask has it. */
  lemma DashAfterTwoDots(d: string)
    requires AllDigits(d) && |d| >= 7
    ensures DashStep(d[..3] + "." + d[3..6] + "." + d[6..]) == Mask(d)
  {
    var n := |d|;
    var s2 := d[..3] + "." + d[3..6] + "." + d[6..];
    assert |s2| == n + 2;
    assert s2[7] == '.';
    assert forall t :: 8 <= t < n + 2 ==> s2[t] == d[t - 2];
    if n <= 9 {
      assert !IsRun(s2, 5, |s2| - 5) by { assert |s2| - 5 <= 7 < |s2|; }
      assert !IsRun(s2, 4, |s2| - 4) by { assert |s2| - 4 <= 7 < |s2|; }
    } else if n == 10 {
      assert !IsRun(s2, 5, |s2| - 5) by { assert |s2| - 5 == 7; }
      assert IsRun(s2, 4, |s2| - 4);
      assert InsertAt(s2, 11, '-') == d[..3] + "." + d[3..6] + "." + d[6..9] + "-" + d[9..];
    } else {
      assert IsRun(s2, 5, |s2| - 5);
      assert InsertAt(s2, n, '-') == d[..3] + "." + d[3..6] + "." + d[6..n - 2] + "-" + d[n - 2..];
    }
  }

  /** The three replace calls compute the mask. */
  lemma PipelineIsMask(d: string)
    requires AllDigits(d)
    ensures DashStep(DotStep(DotStep(d))) == Mask(d)
  {
    var n := |d|;
    if n < 4 {
      assert FindRun(d, 4, 0) == None;
    } else {
      assert IsRun(d, 4, 0);
      assert FindRun(d, 4, 0) == Some(0);
      assert DotStep(d) == d[..3] + "." + d[3..];
      SecondDot(d);
      if n <= 6 {
        DashAfterOneDot(d);
      } else {
        DashAfterTwoDots(d);
      }
    }
  }

  /** Removing one separator between two strings of digits joins their digits. */
  lemma DigitsAround(x: string, c: char, y: string)
    requires !IsDigit(c)
    ensures Digits(x + [c] + y) == Digits(x) + Digits(y)
  {
    DigitsConcat(x + [c], y);
    DigitsConcat(x, [c]);
  }

  /** Every digit of the mask is a digit of the input, in order, and no digit is lost. */
  lemma MaskKeepsDigits(d: string)
    requires AllDigits(d)
    ensures Digits(Mask(d)) == d
    ensures MaskChars(Mask(d))
  {
    var n := |d|;
    DigitsOfDigits(d);
    if n <= 3 {
    } else if n <= 6 {
      MaskKeepsDigitsShort(d);
    } else {
      MaskKeepsDigitsLong(d);
    }
    MaskOnlyMaskChars(d);
  }

  lemma MaskOnlyMaskChars(d: string)
    requires AllDigits(d)
    ensures MaskChars(Mask(d))
  {
    var m := Mask(d);
    forall i | 0 <= i < |m| ensures IsDigit(m[i]) || m[i] == '.' || m[i] == '-' {
      if !IsDigit(m[i]) {
        MaskSeparators(d, i);
      }
    }
  }

  /** The positions of the mask that do not hold digits. */
  lemma MaskSeparators(d: string, i: nat)
    requires AllDigits(d) && i < |Mask(d)| && !IsDigit(Mask(d)[i])
    ensures Mask(d)[i] == '.' || Mask(d)[i] == '-'
  {
    var n := |d|;
    if n <= 3 {
    } else if n <= 6 {
      assert i == 3;
    } else if n <= 9 {
      assert i == 3 || i == 7;
    } else if n == 10 {
      assert i == 3 || i == 7 || i == 11;
    } else {
      assert i == 3 || i == 7 || i == n;
    }
  }

  lemma MaskKeepsDigitsShort(d: string)
    requires AllDigits(d) && 4 <= |d| <= 6
    ensures Digits(Mask(d)) == d
  {
    assert Mask(d) == d[..3] + ['.'] + d[3..];
    DigitsAround(d[..3], '.', d[3..]);
    DigitsOfDigits(d[..3]);
    DigitsOfDigits(d[3..]);
    assert d[..3] + d[3..] == d;
  }

  /** The first seven or more digits of the mask, up to `d[k-1]`, keep their digits. */
  lemma MaskHeadDigits(d: string, k: nat)
    requires AllDigits(d) && 6 <= k <= |d|
    ensures Digits(d[..3] + ['.'] + d[3..6] + ['.'] + d[6..k]) == d[..k]
  {
    var a, b, c := d[..3], d[3..6], d[6..k];
    assert AllDigits(a) && AllDigits(b) && AllDigits(c);
    DigitsOfDigits(a);
    DigitsOfDigits(b);
    DigitsOfDigits(c);
    DigitsAround(a, '.', b);
    DigitsAround(a + ['.'] + b, '.', c);
    assert a + b + c == d[..k];
  }

  lemma MaskKeepsDigitsLong(d: string)
    requires AllDigits(d) && 7 <= |d|
    ensures Digits(Mask(d)) == d
  {
    var n := |d|;
    var k := if n <= 9 then n else if n == 10 then 9 else n - 2;
    var y := d[..3] + ['.'] + d[3..6] + ['.'] + d[6..k];
    MaskHeadDigits(d, k);
    if n <= 9 {
      assert d[6..k] == d[6..];
      assert Mask(d) == y;
      assert d[..k] == d;
    } else {
      assert Mask(d) == y + ['-'] + d[k..];
      DigitsAround(y, '-', d[k..]);
      DigitsOfDigits(d[k..]);
      assert d[..k] + d[k..] == d;
    }
  }

  /** Outside the empty string, `formatCPF` is the mask over the input's digits, cut to 14 characters. */
  lemma FormatCPFIsMask(value: string)
    ensures FormatCPF(value) == if value == "" then "" else Take(Mask(Digits(value)), 14)
  {
    if value != "" {
      PipelineIsMask(Digits(value));
    }
  }

  /** `formatCPF` yields "" for the empty string and for any input without a digit. */
  lemma FormatCPFNoDigits(value: string)
    ensures Digits(value) == "" ==> FormatCPF(value) == ""
    ensures FormatCPF("") == ""
  {
    FormatCPFIsMask(value);
  }

  /** The output holds only digits, '.' and '-', and at most 14 characters. */
  lemma FormatCPFShape(value: string)
    ensures MaskChars(FormatCPF(value))
    ensures |FormatCPF(value)| <= 14
  {
    FormatCPFIsMask(value);
    if value != "" {
      MaskKeepsDigits(Digits(value));
    }
  }

  /** Eleven digits, whatever lies between them, give `ddd.ddd.ddd-dd`. */
  lemma FormatCPFEleven(value: string)
    requires |Digits(value)| == 11
    ensures var d := Digits(value);
      FormatCPF(value) == d[..3] + "." + d[3..6] + "." + d[6..9] + "-" + d[9..]
  {
    FormatCPFIsMask(value);
  }

  /** Where the separators of a mask over at most eleven digits stand. */
  lemma MaskSeparatorsAt(d: string)
    requires |d| <= 11
    ensures var m, n := Mask(d), |d|;
      && |m| <= 14
      && (|m| > 3 && m[3] == '.' <==> n >= 4)
      && (|m| > 7 && m[7] == '.' <==> n >= 7)
      && (|m| > 11 && m[11] == '-' <==> n >= 10)
  {
    var n := |d|;
    if n <= 3 {
    } else if n <= 6 {
      assert |Mask(d)| == n + 1;
    } else if n <= 9 {
      assert |Mask(d)| == n + 2;
    } else {
      assert |Mask(d)| == n + 3;
    }
  }

  /**
   * With at most eleven digits, the mask puts a '.' after the third digit iff
   * there are four or more, a '.' after the sixth iff there are seven or more,
   * and a '-' after the ninth iff there are ten or more.
   */
  lemma FormatCPFSeparators(value: string)
    requires |Digits(value)| <= 11
    ensures var r, n := FormatCPF(value), |Digits(value)|;
      && (|r| > 3 && r[3] == '.' <==> n >= 4)
      && (|r| > 7 && r[7] == '.' <==> n >= 7)
      && (|r| > 11 && r[11] == '-' <==> n >= 10)
  {
    FormatCPFIsMask(value);
    var d := Digits(value);
    MaskSeparatorsAt(d);
    if value != "" {
      assert FormatCPF(value) == Mask(d);
    }
  }

  /** With at most eleven digits, removing the separators gives back exactly the input's digits. */
  lemma FormatCPFKeepsDigits(value: string)
    requires |Digits(value)| <= 11
    ensures Digits(FormatCPF(value)) == Digits(value)
  {
    FormatCPFIsMask(value);
    if value != "" {
      var d := Digits(value);
      MaskKeepsDigits(d);
      MaskLength(d);
      assert Take(Mask(d), 14) == Mask(d);
    }
  }

  /** The mask adds one separator per group begun after the first three digits, at most three. */
  lemma MaskLength(d: string)
    ensures |Mask(d)| == |d| + (if |d| <= 3 then 0 else if |d| <= 6 then 1 else if |d| <= 9 then 2 else 3)
  {
  }

  /** The first 14 characters of the mask over twelve or more digits. */
  lemma MaskCut(d: string)
    requires AllDigits(d) && |d| >= 12
    ensures var n, head := |d|, d[..3] + "." + d[3..6] + ".";
      Take(Mask(d), 14) ==
        if n >= 14 then head + d[6..12]
        else if n == 13 then head + d[6..11] + "-"
        else head + d[6..10] + "-" + d[10..11]
  {
  }

  /** With more than eleven digits, the 14-character cut keeps a proper prefix of them. */
  lemma FormatCPFDropsDigits(value: string)
    requires |Digits(value)| > 11
    ensures Digits(FormatCPF(value)) < Digits(value)
  {
    FormatCPFIsMask(value);
    CutDropsDigits(Digits(value));
  }

  /** The 14-character cut of the mask over more than eleven digits keeps a proper prefix of them. */
  lemma CutDropsDigits(d: string)
    requires AllDigits(d) && |d| > 11
    ensures Digits(Take(Mask(d), 14)) < d
  {
    var n := |d|;
    MaskCut(d);
    if n >= 14 {
      MaskHeadDigits(d, 12);
    } else if n == 13 {
      CutThirteen(d);
    } else {
      CutTwelve(d);
    }
  }

  lemma CutThirteen(d: string)
    requires AllDigits(d) && |d| == 13
    ensures Digits(d[..3] + "." + d[3..6] + "." + d[6..11] + "-") == d[..11]
  {
    var y := d[..3] + ['.'] + d[3..6] + ['.'] + d[6..11];
    MaskHeadDigits(d, 11);
    assert d[..3] + "." + d[3..6] + "." + d[6..11] + "-" == y + ['-'] + [];
    DigitsAround(y, '-', []);
  }

  lemma CutTwelve(d: string)
    requires AllDigits(d) && |d| == 12
    ensures Digits(d[..3] + "." + d[3..6] + "." + d[6..10] + "-" + d[10..11]) == d[..11]
  {
    var y := d[..3] + ['.'] + d[3..6] + ['.'] + d[6..10];
    MaskHeadDigits(d, 10);
    assert d[..3] + "." + d[3..6] + "." + d[6..10] + "-" + d[10..11] == y + ['-'] + d[10..11];
    DigitsAround(y, '-', d[10..11]);
    DigitsOfDigits(d[10..11]);
    assert d[..10] + d[10..11] == d[..11];
  }

  /** Re-formatting a mask of at most eleven digits changes nothing. */
  lemma FormatCPFIdempotent(value: string)
    requires |Digits(value)| <= 11
    ensures FormatCPF(FormatCPF(value)) == FormatCPF(value)
  {
    var r := FormatCPF(value);
    FormatCPFIsMask(value);
    FormatCPFKeepsDigits(value);
    FormatCPFIsMask(r);
    if value != "" && Digits(value) != "" {
      assert r != "" by { assert Digits(r) != ""; }
    }
  }

  // ---------------------------------------------------------------------
  // validateEmail

  /** `[^\s@]`: a character the pattern's three runs accept. */
  predicate Plain(c: char) {
    c != '@' && !IsSpace(c)
  }

  /**
   * `/^[^\s@]+@[^\s@]+\.[^\s@]+$/` matches `email` with its '@' at `a` and
   * its literal '.' at `d`: the three runs around them are non-empty and
   * every other character is plain.
   */
  predicate EmailMatchAt(email: string, a: nat, d: nat) {
    && 0 < a && a + 1 < d && d + 1 < |email|
    && email[a] == '@' && email[d] == '.'
    && forall i :: 0 <= i < |email| && i != a && i != d ==> Plain(email[i])
  }

  /** `validateEmail(email)`: the pattern matches somewhere. */
  function ValidateEmail(email: string): (ok: bool)
    ensures ok ==> |email| >= 5 && '@' in email && '.' in email
  {
    exists a: nat, d: nat | a < d < |email| :: EmailMatchAt(email, a, d)
  }

  /** `email` has exactly one '@', and it is at position `a`. */
  predicate OnlyAtSignAt(email: string, a: nat) {
    a < |email| && email[a] == '@' && forall i :: 0 <= i < |email| && i != a ==> email[i] != '@'
  }

  /**
   * `validateEmail` accepts exactly the strings with no whitespace and exactly
   * one '@', whose part before the '@' is non-empty and whose part after it
   * has a '.' with at least one character on each side.
   */
  lemma {:induction false} ValidateEmailShape(email: string)
    ensures ValidateEmail(email) <==>
      && (forall i :: 0 <= i < |email| ==> !IsSpace(email[i]))
      && exists a: nat :: OnlyAtSignAt(email, a) && 0 < a
           && exists d: nat :: a + 1 < d < |email| - 1 && email[d] == '.'
  {
    if ValidateEmail(email) {
      var a: nat, d: nat :| a < d < |email| && EmailMatchAt(email, a, d);
      assert OnlyAtSignAt(email, a);
      forall i | 0 <= i < |email| ensures !IsSpace(email[i]) {
        if i != a && i != d {
          assert Plain(email[i]);
        }
      }
    }
    if && (forall i :: 0 <= i < |email| ==> !IsSpace(email[i]))
       && exists a: nat :: OnlyAtSignAt(email, a) && 0 < a
            && exists d: nat :: a + 1 < d < |email| - 1 && email[d] == '.'
    {
      var a: nat :| OnlyAtSignAt(email, a) && 0 < a
        && exists d: nat :: a + 1 < d < |email| - 1 && email[d] == '.';
      var d: nat :| a + 1 < d < |email| - 1 && email[d] == '.';
      assert EmailMatchAt(email, a, d);
    }
  }

  /** The three examples: "a@b.com" passes, "" and "not-an-email" do not. */
  lemma ValidateEmailExamples()
    ensures ValidateEmail("a@b.com")
    ensures !ValidateEmail("")
    ensures !ValidateEmail("not-an-email")
  {
    assert EmailMatchAt("a@b.com", 1, 3);
    var s := "not-an-email";
    assert forall i :: 0 <= i < |s| ==> s[i] != '@';
  }
}
