/**
  The pieces of Python 2 string behaviour the bot relies on: the character classes of `re`
  patterns compiled without the UNICODE flag, `unicode.strip()`, `str.strip().lower()`,
  the `in` substring test, `unicode.encode('ascii', 'ignore')` and decimal formatting of
  integers.
*/
module PyText {

  /** `\w` in a pattern compiled without the UNICODE flag. */
  predicate IsWordChar(c: char) {
    ('a' <= c <= 'z') || ('A' <= c <= 'Z') || ('0' <= c <= '9') || c == '_'
  }

  /** `\s` in a pattern compiled without the UNICODE flag; also what `str.strip()` removes. */
  predicate IsAsciiSpace(c: char) {
    c == ' ' || c == '\t' || c == '\n' || c == '\r' || c == '\U{000B}' || c == '\U{000C}'
  }

  /** What `unicode.strip()` removes in Python 2 (its `isspace` table). */
  predicate IsUnicodeSpace(c: char) {
    || IsAsciiSpace(c)
    || ('\U{001C}' <= c <= '\U{001F}')
    || c == '\U{0085}' || c == '\U{00A0}' || c == '\U{1680}' || c == '\U{180E}'
    || ('\U{2000}' <= c <= '\U{200A}')
    || c == '\U{2028}' || c == '\U{2029}' || c == '\U{202F}' || c == '\U{205F}' || c == '\U{3000}'
  }

  predicate IsAscii(c: char) {
    c < '\U{0080}'
  }

  predicate All(p: char -> bool, s: string) {
    forall i :: 0 <= i < |s| ==> p(s[i])
  }

  /** The longest prefix of `s` whose characters satisfy `p`, and the rest. */
  function TakeWhile(p: char -> bool, s: string): (r: (string, string))
    ensures r.0 + r.1 == s
    ensures All(p, r.0)
    ensures r.1 == [] || !p(r.1[0])
  {
    if s == [] || !p(s[0]) then ([], s)
    else
      var (w, rest) := TakeWhile(p, s[1..]);
      assert [s[0]] + (w + rest) == s;
      ([s[0]] + w, rest)
  }

  /** The split TakeWhile makes is the only one with its two properties. */
  lemma {:induction false} TakeWhileSplits(p: char -> bool, w: string, rest: string)
    requires All(p, w)
    requires rest == [] || !p(rest[0])
    ensures TakeWhile(p, w + rest) == (w, rest)
  {
    if w != [] {
      assert (w + rest)[0] == w[0] && p(w[0]);
      assert (w + rest)[1..] == w[1..] + rest;
      TakeWhileSplits(p, w[1..], rest);
      assert [w[0]] + w[1..] == w;
    } else {
      assert w + rest == rest;
    }
  }

  /** Removes trailing characters satisfying `p`. */
  function RStrip(p: char -> bool, s: string): (r: string)
    ensures |r| <= |s| && r == s[..|r|]
    ensures All(p, s[|r|..])
    ensures r == [] || !p(r[|r| - 1])
  {
    if s == [] || !p(s[|s| - 1]) then s
    else
      var r := RStrip(p, s[..|s| - 1]);
      assert s[|r|..] == s[..|s| - 1][|r|..] + [s[|s| - 1]];
      r
  }

  /** `strip()`: removes leading and trailing characters satisfying `p`. */
  function Strip(p: char -> bool, s: string): string {
    RStrip(p, TakeWhile(p, s).1)
  }

  lemma AllConcat(p: char -> bool, a: string, b: string)
    requires All(p, a) && All(p, b)
    ensures All(p, a + b)
  {
  }

  lemma {:induction false} RStripSplits(p: char -> bool, core: string, tail: string)
    requires All(p, tail)
    requires core == [] || !p(core[|core| - 1])
    ensures RStrip(p, core + tail) == core
  {
    if tail != [] {
      var shorter := core + tail[..|tail| - 1];
      assert (core + tail)[..|core + tail| - 1] == shorter;
      RStripSplits(p, core, tail[..|tail| - 1]);
    } else {
      assert core + tail == core;
    }
  }

  /** Stripping splits `s` into space, the stripped text, and space. */
  lemma StripParts(p: char -> bool, s: string) returns (pre: string, post: string)
    ensures s == pre + Strip(p, s) + post
    ensures All(p, pre) && All(p, post)
    ensures Strip(p, s) == [] || (!p(Strip(p, s)[0]) && !p(Strip(p, s)[|Strip(p, s)| - 1]))
  {
    var split := TakeWhile(p, s);
    var r := RStrip(p, split.1);
    assert r == Strip(p, s);
    pre, post := split.0, split.1[|r|..];
    assert split.1 == r + post;
    assert s == pre + (r + post);
  }

  /** Conversely, any such split of `s` is the one `strip()` finds. */
  lemma StripUnique(p: char -> bool, pre: string, core: string, post: string)
    requires All(p, pre) && All(p, post)
    requires core == [] || (!p(core[0]) && !p(core[|core| - 1]))
    ensures Strip(p, pre + core + post) == core
  {
    if core == [] {
      AllConcat(p, pre, post);
      assert pre + core + post == (pre + post) + [];
      TakeWhileSplits(p, pre + post, []);
      RStripSplits(p, [], []);
    } else {
      assert pre + core + post == pre + (core + post);
      TakeWhileSplits(p, pre, core + post);
      RStripSplits(p, core, post);
    }
  }

  /** ASCII lower-casing, as `str.lower()` does on byte strings. */
  function LowerChar(c: char): char {
    if 'A' <= c <= 'Z' then (c as int + 32) as char else c
  }

  function Lower(s: string): (r: string)
    ensures |r| == |s|
    ensures forall i :: 0 <= i < |s| ==> r[i] == LowerChar(s[i])
  {
    seq(|s|, i requires 0 <= i < |s| => LowerChar(s[i]))
  }

  /** `pat` occurs in `text` starting at index `i`. */
  predicate OccursAt(text: string, pat: string, i: int) {
    0 <= i && i + |pat| <= |text| && text[i..i + |pat|] == pat
  }

  /** Python's `pat in text`. */
  function Contains(text: string, pat: string): (b: bool)
    ensures b <==> exists i :: OccursAt(text, pat, i)
    decreases |text|
  {
    if |pat| > |text| then
      assert forall i :: !OccursAt(text, pat, i);
      false
    else if text[..|pat|] == pat then
      assert OccursAt(text, pat, 0);
      true
    else
      var b := Contains(text[1..], pat);
      forall i ensures OccursAt(text[1..], pat, i) <==> OccursAt(text, pat, i + 1) {
        if 0 <= i && i + |pat| <= |text| - 1 {
          assert text[1..][i..i + |pat|] == text[i + 1..i + 1 + |pat|];
        }
      }
      assert !OccursAt(text, pat, 0);
      assert b ==> exists i :: OccursAt(text, pat, i) by {
        if b {
          var i :| OccursAt(text[1..], pat, i);
          assert OccursAt(text, pat, i + 1);
        }
      }
      assert (exists i :: OccursAt(text, pat, i)) ==> b by {
        if exists i :: OccursAt(text, pat, i) {
          var i :| OccursAt(text, pat, i);
          assert i != 0;
          assert OccursAt(text[1..], pat, i - 1);
        }
      }
      b
  }

  /** `unicode.encode('ascii', 'ignore')`: drops every character outside ASCII. */
  function AsciiOnly(s: string): (r: string)
    ensures All(IsAscii, r)
    ensures |r| <= |s|
  {
    if s == [] then []
    else (if IsAscii(s[0]) then [s[0]] else []) + AsciiOnly(s[1..])
  }

  /** A character is kept when it is ASCII and dropped otherwise; with AsciiOnlyConcat this
      determines the encoding of every text. */
  lemma AsciiOnlyChar(c: char)
    ensures AsciiOnly([c]) == if IsAscii(c) then [c] else []
  {
    assert [c][1..] == [];
  }

  /** Filtering works piece by piece, so the kept characters stay in their order. */
  lemma {:induction false} AsciiOnlyConcat(a: string, b: string)
    ensures AsciiOnly(a + b) == AsciiOnly(a) + AsciiOnly(b)
  {
    if a != [] {
      assert (a + b)[1..] == a[1..] + b;
      AsciiOnlyConcat(a[1..], b);
    } else {
      assert a + b == b;
    }
  }

  /** Text that is already ASCII passes unchanged, and only such text does. */
  lemma {:induction false} AsciiOnlyIdentity(s: string)
    ensures AsciiOnly(s) == s <==> All(IsAscii, s)
  {
    if s != [] {
      AsciiOnlyIdentity(s[1..]);
      if !IsAscii(s[0]) {
        assert |AsciiOnly(s)| < |s| by {
          assert |AsciiOnly(s[1..])| <= |s[1..]|;
        }
      } else {
        assert All(IsAscii, s) <==> All(IsAscii, s[1..]) by {
          if All(IsAscii, s[1..]) {
            forall i | 0 <= i < |s| ensures IsAscii(s[i]) {
              if i > 0 { assert s[i] == s[1..][i - 1]; }
            }
          }
        }
      }
    }
  }

  lemma AsciiOnlyIdempotent(s: string)
    ensures AsciiOnly(AsciiOnly(s)) == AsciiOnly(s)
  {
    AsciiOnlyIdentity(AsciiOnly(s));
  }

  predicate IsDigit(c: char) {
    '0' <= c <= '9'
  }

  function DigitChar(d: nat): char
    requires d < 10
  {
    ('0' as int + d) as char
  }

  /** `'{}'.format(n)` for a non-negative integer. */
  function Decimal(n: nat): (r: string)
    ensures |r| > 0 && All(IsDigit, r)
    ensures r[0] == '0' ==> n == 0 && r == "0"
  {
    if n < 10 then [DigitChar(n)]
    else Decimal(n / 10) + [DigitChar(n % 10)]
  }

  /** The value a string of decimal digits denotes. */
  function DecimalValue(s: string): nat
    requires All(IsDigit, s)
  {
    if s == [] then 0
    else DecimalValue(s[..|s| - 1]) * 10 + (s[|s| - 1] as int - '0' as int)
  }

  /** Reading back a formatted number gives the number. */
  lemma {:induction false} DecimalRoundTrip(n: nat)
    ensures DecimalValue(Decimal(n)) == n
  {
    if n >= 10 {
      DecimalRoundTrip(n / 10);
      var s := Decimal(n);
      assert s[..|s| - 1] == Decimal(n / 10);
    }
  }
}
