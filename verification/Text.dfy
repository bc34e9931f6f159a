/** Python string operations that the scripts rely on: `strip` and friends, substring
    search, and decimal rendering of numbers. */
module Text {

  datatype Option<+T> = None | Some(value: T)

  /** `str.isspace`, which is also the class behind `\s` in a `str` pattern. */
  predicate IsSpace(c: char) {
    || '\t' <= c <= '\r'
    || '\U{1C}' <= c <= ' '
    || c in {'\U{85}', '\U{A0}', '\U{1680}', '\U{2028}', '\U{2029}', '\U{202F}', '\U{205F}', '\U{3000}'}
    || '\U{2000}' <= c <= '\U{200A}'
  }

  predicate IsDigit(c: char) {
    '0' <= c <= '9'
  }

  /** `\w` on ASCII text. */
  predicate IsWord(c: char) {
    'a' <= c <= 'z' || 'A' <= c <= 'Z' || IsDigit(c) || c == '_'
  }

  predicate AllSpace(s: string) {
    forall i | 0 <= i < |s| :: IsSpace(s[i])
  }

  function LStrip(s: string): (r: string)
    ensures |r| <= |s|
  {
    if s != "" && IsSpace(s[0]) then LStrip(s[1..]) else s
  }

  function RStrip(s: string): (r: string)
    ensures |r| <= |s|
  {
    if s != "" && IsSpace(s[|s| - 1]) then RStrip(s[..|s| - 1]) else s
  }

  function Strip(s: string): string {
    RStrip(LStrip(s))
  }

  predicate LTrimmed(s: string) {
    s == "" || !IsSpace(s[0])
  }

  predicate RTrimmed(s: string) {
    s == "" || !IsSpace(s[|s| - 1])
  }

  predicate Trimmed(s: string) {
    LTrimmed(s) && RTrimmed(s)
  }

  lemma {:induction false} LStripPad(pad: string, s: string)
    requires AllSpace(pad)
    ensures LStrip(pad + s) == LStrip(s)
  {
    if pad == "" {
      assert pad + s == s;
    } else {
      assert (pad + s)[1..] == pad[1..] + s;
      LStripPad(pad[1..], s);
    }
  }

  lemma {:induction false} RStripPad(s: string, pad: string)
    requires AllSpace(pad)
    ensures RStrip(s + pad) == RStrip(s)
  {
    if pad == "" {
      assert s + pad == s;
    } else {
      assert (s + pad)[..|s + pad| - 1] == s + pad[..|pad| - 1];
      RStripPad(s, pad[..|pad| - 1]);
    }
  }

  lemma {:induction false} LStripParts(s: string) returns (pad: string)
    ensures s == pad + LStrip(s) && AllSpace(pad) && LTrimmed(LStrip(s))
  {
    if s != "" && IsSpace(s[0]) {
      var rest := LStripParts(s[1..]);
      pad := [s[0]] + rest;
    } else {
      pad := "";
    }
  }

  lemma {:induction false} RStripParts(s: string) returns (pad: string)
    ensures s == RStrip(s) + pad && AllSpace(pad) && RTrimmed(RStrip(s))
  {
    if s != "" && IsSpace(s[|s| - 1]) {
      var rest := RStripParts(s[..|s| - 1]);
      pad := rest + [s[|s| - 1]];
    } else {
      pad := "";
    }
  }

  /** Stripping is characterised by its outcome: padding on both sides of a trimmed core. */
  lemma StripUnique(left: string, core: string, right: string)
    requires AllSpace(left) && AllSpace(right) && Trimmed(core)
    ensures Strip(left + core + right) == core
  {
    assert left + core + right == left + (core + right);
    LStripPad(left, core + right);
    if core == "" {
      assert core + right == right + "";
      LStripPad(right, "");
    } else {
      assert LStrip(core + right) == core + right;
      RStripPad(core, right);
    }
  }

  lemma StripParts(s: string) returns (left: string, right: string)
    ensures s == left + Strip(s) + right
    ensures AllSpace(left) && AllSpace(right) && Trimmed(Strip(s))
  {
    left := LStripParts(s);
    right := RStripParts(LStrip(s));
    assert s == left + (Strip(s) + right);
  }

  lemma StripTrimmed(s: string)
    ensures Trimmed(Strip(s))
    ensures Trimmed(s) ==> Strip(s) == s
  {
    var _, _ := StripParts(s);
  }

  lemma StripIndented(pad: string, core: string)
    requires AllSpace(pad) && Trimmed(core)
    ensures Strip(pad + core) == core
  {
    assert pad + core + "" == pad + core;
    StripUnique(pad, core, "");
  }

  lemma StripAfterRStrip(s: string)
    ensures Strip(RStrip(s)) == Strip(s)
    ensures RStrip(RStrip(s)) == RStrip(s)
  {
    var pad := RStripParts(s);
    var left, right := StripParts(RStrip(s));
    var core := Strip(RStrip(s));
    assert s == left + core + (right + pad);
    StripUnique(left, core, right + pad);
  }

  lemma AllSpaceStrips(s: string)
    requires AllSpace(s)
    ensures Strip(s) == "" && RStrip(s) == ""
  {
    RStripPad("", s);
    assert "" + s == s;
    LStripPad(s, "");
    assert s + "" == s;
  }

  lemma EmptyStrips(s: string)
    requires Strip(s) == "" || RStrip(s) == ""
    ensures AllSpace(s)
  {
    if RStrip(s) == "" {
      var pad := RStripParts(s);
      assert s == pad;
    } else {
      var left, right := StripParts(s);
      assert s == left + right;
    }
  }

  // ------------------------------------------------------------------ substrings

  predicate OccursAt(needle: string, s: string, i: nat) {
    i + |needle| <= |s| && s[i..i + |needle|] == needle
  }

  predicate Contains(s: string, needle: string) {
    exists i: nat | i <= |s| :: OccursAt(needle, s, i)
  }

  predicate EndsWith(s: string, suffix: string) {
    |suffix| <= |s| && s[|s| - |suffix|..] == suffix
  }

  /** `replace(text, from, to)`: every occurrence, from the left, in SQL as in Python. */
  function Replace(text: string, from: string, to: string): string
    requires from != ""
  {
    if |text| < |from| then text
    else if from <= text then to + Replace(text[|from|..], from, to)
    else [text[0]] + Replace(text[1..], from, to)
  }

  // ------------------------------------------------------------------ letter case

  function LowerChar(c: char): char {
    if 'A' <= c <= 'Z' then 'a' + (c - 'A') else c
  }

  function Lower(s: string): (r: string)
    ensures |r| == |s|
    ensures forall i | 0 <= i < |s| :: r[i] == LowerChar(s[i])
  {
    if s == "" then "" else [LowerChar(s[0])] + Lower(s[1..])
  }

  // ------------------------------------------------------------------ decimal numbers

  function DigitChar(d: nat): (c: char)
    requires d < 10
    ensures IsDigit(c)
  {
    '0' + (d as char)
  }

  function Decimal(n: nat): (s: string)
    ensures s != "" && forall i | 0 <= i < |s| :: IsDigit(s[i])
  {
    if n < 10 then [DigitChar(n)] else Decimal(n / 10) + [DigitChar(n % 10)]
  }

  lemma {:induction false} DecimalInjective(m: nat, n: nat)
    requires Decimal(m) == Decimal(n)
    ensures m == n
  {
    var s, t := Decimal(m), Decimal(n);
    assert s[|s| - 1] == DigitChar(m % 10) && t[|t| - 1] == DigitChar(n % 10);
    if m >= 10 && n >= 10 {
      assert s[..|s| - 1] == Decimal(m / 10) && t[..|t| - 1] == Decimal(n / 10);
      DecimalInjective(m / 10, n / 10);
    }
  }
}
