/** The parts of Python's `str` that the request handlers use: `strip()`,
    `lower()`, `startswith`, `endswith` and the `in` operator on strings. */
module PyStrings {

  /** Python's `str.isspace()` for one character: the characters that
      `str.strip()` with no argument removes. */
  predicate IsSpace(c: char) {
    || ('\t' <= c <= '\r')
    || ('\U{1C}' <= c <= ' ')
    || c == '\U{85}' || c == '\U{A0}' || c == '\U{1680}'
    || ('\U{2000}' <= c <= '\U{200A}')
    || c == '\U{2028}' || c == '\U{2029}' || c == '\U{202F}'
    || c == '\U{205F}' || c == '\U{3000}'
  }

  predicate AllSpace(s: string) {
    forall k :: 0 <= k < |s| ==> IsSpace(s[k])
  }

  predicate HasPrefix(s: string, p: string) {
    |p| <= |s| && s[..|p|] == p
  }

  predicate HasSuffix(s: string, p: string) {
    |p| <= |s| && s[|s| - |p|..] == p
  }

  /** Python's `t in s` for two strings: `t` occurs somewhere in `s`. */
  predicate Contains(s: string, t: string) {
    exists k :: 0 <= k <= |s| && HasPrefix(s[k..], t)
  }

  /** Number of whitespace characters at the start of `s`. */
  function LeadingSpace(s: string): (n: nat)
    ensures n <= |s| && AllSpace(s[..n])
    ensures n < |s| ==> !IsSpace(s[n])
  {
    if s == [] || !IsSpace(s[0]) then 0
    else
      var n := 1 + LeadingSpace(s[1..]);
      assert s[..n] == [s[0]] + s[1..][..n - 1];
      n
  }

  /** Number of whitespace characters at the end of `s`. */
  function TrailingSpace(s: string): (n: nat)
    ensures n <= |s| && AllSpace(s[|s| - n..])
    ensures n < |s| ==> !IsSpace(s[|s| - n - 1])
  {
    if s == [] || !IsSpace(s[|s| - 1]) then 0
    else
      var init := s[..|s| - 1];
      var n := 1 + TrailingSpace(init);
      assert s[|s| - n..] == init[|init| - (n - 1)..] + [s[|s| - 1]];
      n
  }

  /** Python's `s.strip()`: `s` without its leading and trailing whitespace.
      The result is the unique slice of `s` that is cut out by whitespace
      only and neither begins nor ends with whitespace. */
  function Strip(s: string): (r: string)
    ensures exists i, j :: 0 <= i <= j <= |s| && r == s[i..j] && AllSpace(s[..i]) && AllSpace(s[j..])
    ensures r == [] || (!IsSpace(r[0]) && !IsSpace(r[|r| - 1]))
    ensures r == [] <==> AllSpace(s)
  {
    var i := LeadingSpace(s);
    var rest := s[i..];
    var j := |rest| - TrailingSpace(rest);
    StripSlice(s, i, j);
    rest[..j]
  }

  lemma StripSlice(s: string, i: nat, j: nat)
    requires i == LeadingSpace(s) && j == |s[i..]| - TrailingSpace(s[i..])
    ensures i + j <= |s| && s[i..][..j] == s[i..i + j]
    ensures AllSpace(s[..i]) && AllSpace(s[i + j..])
    ensures j == 0 || (!IsSpace(s[i]) && !IsSpace(s[i + j - 1]))
    ensures j == 0 <==> AllSpace(s)
  {
    var rest := s[i..];
    var t := TrailingSpace(rest);
    assert s[i + j..] == rest[|rest| - t..];
    if j == 0 {
      assert rest[|rest| - t..] == rest;
      assert i == |s|;
      assert s[..i] == s;
    } else {
      assert s[i] == rest[0];
      assert s[i + j - 1] == rest[|rest| - t - 1];
      assert !AllSpace(s) by { assert !IsSpace(s[i]); }
    }
  }

  /** Stripping twice removes nothing more. */
  lemma StripIdempotent(s: string)
    ensures Strip(Strip(s)) == Strip(s)
  {
    var r := Strip(s);
    if r != [] {
      assert LeadingSpace(r) == 0;
      assert TrailingSpace(r[0..]) == 0 by { assert r[0..] == r; }
      assert r[0..][..|r|] == r;
    }
  }

  /** Whitespace around a text that neither begins nor ends with whitespace
      is exactly what `strip()` removes. */
  lemma StripPadded(before: string, text: string, after: string)
    requires AllSpace(before) && AllSpace(after)
    requires text != [] && !IsSpace(text[0]) && !IsSpace(text[|text| - 1])
    ensures Strip(before + text + after) == text
  {
    var s := before + text + after;
    var i := LeadingSpace(s);
    assert s[|before|] == text[0];
    assert i == |before|;
    var rest := s[i..];
    assert rest == text + after;
    var t := TrailingSpace(rest);
    assert rest[|text| - 1] == text[|text| - 1];
    assert t == |after|;
    assert rest[..|rest| - t] == text;
  }

  /** Python's `str.lower()` for one character. ASCII capitals become small
      letters; KELVIN SIGN becomes `k` and LATIN CAPITAL LETTER I WITH DOT
      ABOVE becomes `i` followed by COMBINING DOT ABOVE. These are the only
      lower-case mappings whose result holds an ASCII letter; every other
      character is kept as it is. */
  function LowerChar(c: char): (r: string)
    ensures |r| >= 1
    ensures forall k :: 0 <= k < |r| ==> !('A' <= r[k] <= 'Z')
  {
    if 'A' <= c <= 'Z' then [(c as int + 32) as char]
    else if c == '\U{212A}' then "k"
    else if c == '\U{0130}' then "i\U{0307}"
    else [c]
  }

  /** Python's `s.lower()`, character by character. */
  function Lower(s: string): (r: string)
    ensures |r| >= |s|
    ensures forall k :: 0 <= k < |r| ==> !('A' <= r[k] <= 'Z')
  {
    if s == [] then [] else LowerChar(s[0]) + Lower(s[1..])
  }

  /** What `lower()` does to one character other than U+0130: an ASCII
      capital becomes its small letter, KELVIN SIGN becomes `k`, and every
      other character is kept. */
  function LowerOne(c: char): char {
    if 'A' <= c <= 'Z' then (c as int + 32) as char
    else if c == '\U{212A}' then 'k'
    else c
  }

  /** Outside U+0130, the only character whose lower case is two
      characters long, lower-casing works place by place: the result is as
      long as the text, and each character is the lower case of the one at
      the same place. */
  lemma {:induction false} LowerByChar(s: string)
    requires forall k :: 0 <= k < |s| ==> s[k] != '\U{0130}'
    ensures |Lower(s)| == |s|
    ensures forall k :: 0 <= k < |s| ==> Lower(s)[k] == LowerOne(s[k])
  {
    if s != [] {
      var tail := s[1..];
      assert forall k :: 0 <= k < |tail| ==> tail[k] == s[k + 1];
      LowerByChar(tail);
      assert LowerChar(s[0]) == [LowerOne(s[0])];
      var r := Lower(s);
      assert r == [LowerOne(s[0])] + Lower(tail);
      forall k | 0 <= k < |s| ensures r[k] == LowerOne(s[k]) {
        if k > 0 {
          assert r[k] == Lower(tail)[k - 1];
        }
      }
    }
  }

  /** A text without ASCII capitals, KELVIN SIGN or U+0130 is already in
      lower case. */
  lemma LowerOfLowerCase(s: string)
    requires forall k :: 0 <= k < |s| ==> !('A' <= s[k] <= 'Z') && s[k] != '\U{212A}' && s[k] != '\U{0130}'
    ensures Lower(s) == s
  {
    LowerByChar(s);
  }

  lemma {:induction false} LowerAppend(a: string, b: string)
    ensures Lower(a + b) == Lower(a) + Lower(b)
  {
    if a == [] {
      assert a + b == b;
    } else {
      assert (a + b)[1..] == a[1..] + b;
      LowerAppend(a[1..], b);
    }
  }

  lemma LowerCharFixed(c: char)
    ensures Lower(LowerChar(c)) == LowerChar(c)
  {
    var r := LowerChar(c);
    if |r| == 1 {
      assert Lower(r) == LowerChar(r[0]) + Lower(r[1..]);
    } else {
      assert r == "i\U{0307}";
      assert Lower(r) == LowerChar('i') + Lower(r[1..]);
      assert Lower(r[1..]) == LowerChar('\U{0307}') + Lower(r[2..]);
    }
  }

  /** Lower-casing is idempotent: a lower-cased string is left unchanged by
      a second `lower()`. */
  lemma {:induction false} LowerIdempotent(s: string)
    ensures Lower(Lower(s)) == Lower(s)
  {
    if s != [] {
      LowerAppend(LowerChar(s[0]), Lower(s[1..]));
      LowerCharFixed(s[0]);
      LowerIdempotent(s[1..]);
    }
  }

  /** Two strings that differ at most in the case of their letters. */
  predicate SameIgnoringCase(a: string, b: string) {
    |a| == |b| && forall k :: 0 <= k < |a| ==> LowerChar(a[k]) == LowerChar(b[k])
  }

  lemma {:induction false} LowerIgnoresCase(a: string, b: string)
    requires SameIgnoringCase(a, b)
    ensures Lower(a) == Lower(b)
  {
    if a != [] {
      assert LowerChar(a[0]) == LowerChar(b[0]);
      assert SameIgnoringCase(a[1..], b[1..]) by {
        forall k | 0 <= k < |a| - 1 ensures LowerChar(a[1..][k]) == LowerChar(b[1..][k]) {
          assert LowerChar(a[k + 1]) == LowerChar(b[k + 1]);
        }
      }
      LowerIgnoresCase(a[1..], b[1..]);
    }
  }
}
