/** The string operations the dashboard performs: ASCII case mapping,
    `String.prototype.includes`, `split`, decimal printing and `parseInt`,
    `padStart` and the `/\s+/g` replacement. Strings are sequences of
    characters; case mapping covers the ASCII letters only. */
module Text {
  import Seqs
  import Wrappers

  predicate IsAsciiUpper(c: char) { 'A' <= c <= 'Z' }
  predicate IsAsciiLower(c: char) { 'a' <= c <= 'z' }

  function LowerChar(c: char): (d: char)
    ensures !IsAsciiUpper(d)
    ensures IsAsciiUpper(c) ==> d as int == c as int + 32
    ensures !IsAsciiUpper(c) ==> d == c
  {
    if IsAsciiUpper(c) then (c as int + 32) as char else c
  }

  function UpperChar(c: char): (d: char)
    ensures !IsAsciiLower(d)
    ensures IsAsciiLower(c) ==> d as int == c as int - 32
    ensures !IsAsciiLower(c) ==> d == c
  {
    if IsAsciiLower(c) then (c as int - 32) as char else c
  }

  /** `s.toLowerCase()` on ASCII letters. */
  function Lower(s: string): (r: string)
    ensures |r| == |s|
    ensures forall i :: 0 <= i < |s| ==> r[i] == LowerChar(s[i])
  {
    seq(|s|, i requires 0 <= i < |s| => LowerChar(s[i]))
  }

  /** `s.toUpperCase()` on ASCII letters. */
  function Upper(s: string): (r: string)
    ensures |r| == |s|
    ensures forall i :: 0 <= i < |s| ==> r[i] == UpperChar(s[i])
  {
    seq(|s|, i requires 0 <= i < |s| => UpperChar(s[i]))
  }

  lemma LowerSlice(s: string, i: nat, j: nat)
    requires i <= j <= |s|
    ensures Lower(s)[i..j] == Lower(s[i..j])
  {
  }

  predicate IsPrefix(p: string, s: string) {
    |p| <= |s| && s[..|p|] == p
  }

  /** `s.includes(sub)`: some suffix of `s` starts with `sub`. */
  predicate Contains(s: string, sub: string)
    decreases |s|
  {
    IsPrefix(sub, s) || (s != [] && Contains(s[1..], sub))
  }

  /** `sub` occurs in `s` starting at position `i`. */
  predicate OccursAt(s: string, sub: string, i: int) {
    0 <= i <= |s| - |sub| && s[i..i + |sub|] == sub
  }

  /** `Contains` agrees with the positional definition of an occurrence. */
  lemma {:induction false} ContainsAt(s: string, sub: string)
    ensures Contains(s, sub) <==> exists i :: OccursAt(s, sub, i)
    decreases |s|
  {
    if Contains(s, sub) {
      if IsPrefix(sub, s) {
        assert OccursAt(s, sub, 0);
      } else {
        ContainsAt(s[1..], sub);
        var i :| OccursAt(s[1..], sub, i);
        assert s[1..][i..i + |sub|] == s[i + 1..i + 1 + |sub|];
        assert OccursAt(s, sub, i + 1);
      }
    }
    if exists i :: OccursAt(s, sub, i) {
      var i :| OccursAt(s, sub, i);
      if i == 0 {
        assert IsPrefix(sub, s);
      } else {
        assert s[1..][i - 1..i - 1 + |sub|] == s[i..i + |sub|];
        assert OccursAt(s[1..], sub, i - 1);
        ContainsAt(s[1..], sub);
      }
    }
  }

  /** `hay.toLowerCase().includes(needle.toLowerCase())`. */
  predicate IncludesIgnoreCase(hay: string, needle: string) {
    Contains(Lower(hay), Lower(needle))
  }

  /** The empty search box matches every string. */
  lemma EmptyNeedleMatches(hay: string)
    ensures IncludesIgnoreCase(hay, "")
  {
    assert IsPrefix(Lower(""), Lower(hay));
  }

  /** A needle that literally occurs in the haystack is found whatever its case. */
  lemma {:induction false} LiteralOccurrenceMatches(hay: string, needle: string)
    requires Contains(hay, needle)
    ensures IncludesIgnoreCase(hay, needle)
  {
    ContainsAt(hay, needle);
    var i :| OccursAt(hay, needle, i);
    LowerSlice(hay, i, i + |needle|);
    assert OccursAt(Lower(hay), Lower(needle), i);
    ContainsAt(Lower(hay), Lower(needle));
  }

  /** `s.split(sep)`: the pieces between separators, always at least one. */
  function Split(s: string, sep: char): (parts: seq<string>)
    ensures |parts| >= 1
    decreases |s|
  {
    if s == [] then [""]
    else if s[0] == sep then [""] + Split(s[1..], sep)
    else
      var rest := Split(s[1..], sep);
      [[s[0]] + rest[0]] + rest[1..]
  }

  /** `s.split(sep)[0]` is the longest prefix of `s` without `sep`. */
  lemma {:induction false} SplitHead(s: string, sep: char)
    ensures IsPrefix(Split(s, sep)[0], s)
    ensures sep !in Split(s, sep)[0]
    ensures |Split(s, sep)[0]| == |s| || s[|Split(s, sep)[0]|] == sep
  {
    if s != [] && s[0] != sep {
      SplitHead(s[1..], sep);
    }
  }

  /** The first piece of a split ends at the first separator. */
  lemma {:induction false} SplitHeadAt(s: string, sep: char, k: nat)
    requires k < |s| && s[k] == sep
    requires forall i :: 0 <= i < k ==> s[i] != sep
    ensures Split(s, sep)[0] == s[..k]
  {
    if k > 0 {
      SplitHeadAt(s[1..], sep, k - 1);
      assert s[1..][..k - 1] == s[1..k];
      assert [s[0]] + s[1..k] == s[..k];
    }
  }

  /** `parts.map(n => n[0]).join('')`: the first character of every part; an
      empty part gives `undefined`, which `join` prints as nothing. */
  function FirstChars(parts: seq<string>): (r: string)
    ensures |r| <= |parts|
  {
    if parts == [] then ""
    else (if parts[0] == "" then "" else [parts[0][0]]) + FirstChars(parts[1..])
  }

  /** The characters of `s` that start a word, a word being a maximal run
      without `sep`; `atStart` says whether position 0 may start one. */
  function WordStarts(s: string, sep: char, atStart: bool): (r: string)
    ensures sep !in r
    ensures |r| <= |s|
  {
    if s == [] then ""
    else (if s[0] != sep && atStart then [s[0]] else "") + WordStarts(s[1..], sep, s[0] == sep)
  }

  /** Taking the first character of every piece of a split gives the word starts. */
  lemma {:induction false} FirstCharsOfSplit(s: string, sep: char)
    ensures FirstChars(Split(s, sep)) == WordStarts(s, sep, true)
    ensures FirstChars(Split(s, sep)[1..]) == WordStarts(s, sep, false)
    decreases |s|
  {
    if s != [] {
      FirstCharsOfSplit(s[1..], sep);
      var rest := Split(s[1..], sep);
      if s[0] == sep {
        assert Split(s, sep) == [""] + rest;
        assert Split(s, sep)[1..] == rest;
      } else {
        var parts := Split(s, sep);
        assert parts == [[s[0]] + rest[0]] + rest[1..];
        assert parts[1..] == rest[1..];
        assert parts[0][0] == s[0];
      }
    }
  }

  predicate IsDigit(c: char) { '0' <= c <= '9' }

  function DigitChar(d: nat): (c: char)
    requires d < 10
    ensures IsDigit(c)
  {
    ('0' as int + d) as char
  }

  function DigitValue(c: char): (d: nat)
    requires IsDigit(c)
    ensures d < 10
  {
    c as int - '0' as int
  }

  /** `String(n)` for a non-negative integer. */
  function NatToString(n: nat): (s: string)
    ensures |s| >= 1
    ensures forall i :: 0 <= i < |s| ==> IsDigit(s[i])
  {
    if n < 10 then [DigitChar(n)] else NatToString(n / 10) + [DigitChar(n % 10)]
  }

  /** The value of a string of decimal digits. */
  function DigitsValue(s: string): nat
    requires forall i :: 0 <= i < |s| ==> IsDigit(s[i])
  {
    if s == [] then 0 else 10 * DigitsValue(s[..|s| - 1]) + DigitValue(s[|s| - 1])
  }

  /** The number of decimal digits `s` starts with. */
  function LeadingDigits(s: string): (k: nat)
    ensures k <= |s|
    ensures forall i :: 0 <= i < k ==> IsDigit(s[i])
    ensures k < |s| ==> !IsDigit(s[k])
  {
    if s == [] || !IsDigit(s[0]) then 0 else 1 + LeadingDigits(s[1..])
  }

  /** `parseInt(s, 10)` for strings without leading blanks or sign: the value
      of the leading digits, `None` (NaN) when there are none. */
  function ParseInt(s: string): (r: Wrappers.Option<nat>)
    ensures r.None? <==> (s == [] || !IsDigit(s[0]))
  {
    var k := LeadingDigits(s);
    if k == 0 then Wrappers.None else Wrappers.Some(DigitsValue(s[..k]))
  }

  /** Decimal printing and reading are inverse. */
  lemma {:induction false} DigitsValueOfNatToString(n: nat)
    ensures DigitsValue(NatToString(n)) == n
  {
    if n >= 10 {
      DigitsValueOfNatToString(n / 10);
      var s := NatToString(n);
      assert s[..|s| - 1] == NatToString(n / 10);
    }
  }

  /** Two numbers with the same decimal text are equal (`n.toString() === m.toString()`). */
  lemma NatToStringInjective(n: nat, m: nat)
    requires NatToString(n) == NatToString(m)
    ensures n == m
  {
    DigitsValueOfNatToString(n);
    DigitsValueOfNatToString(m);
  }

  /** Leading zeros do not change a decimal value. */
  lemma {:induction false} LeadingZeroValue(s: string)
    requires forall i :: 0 <= i < |s| ==> IsDigit(s[i])
    ensures DigitsValue("0" + s) == DigitsValue(s)
    decreases |s|
  {
    if s != [] {
      var t := "0" + s;
      assert t[..|t| - 1] == "0" + s[..|s| - 1];
      LeadingZeroValue(s[..|s| - 1]);
    }
  }

  /** A run of digits followed by a non-digit (or nothing) is read up to its end. */
  lemma {:induction false} LeadingDigitsOfRun(digits: string, rest: string)
    requires forall i :: 0 <= i < |digits| ==> IsDigit(digits[i])
    requires rest == [] || !IsDigit(rest[0])
    ensures LeadingDigits(digits + rest) == |digits|
  {
    if digits != [] {
      assert (digits + rest)[1..] == digits[1..] + rest;
      LeadingDigitsOfRun(digits[1..], rest);
    } else {
      assert digits + rest == rest;
    }
  }

  /** `parseInt(String(n) + rest)` is `n` when `rest` does not continue the number. */
  lemma ParseIntOfNatToString(n: nat, rest: string)
    requires rest == [] || !IsDigit(rest[0])
    ensures ParseInt(NatToString(n) + rest) == Wrappers.Some(n)
  {
    var digits := NatToString(n);
    LeadingDigitsOfRun(digits, rest);
    assert (digits + rest)[..|digits|] == digits;
    DigitsValueOfNatToString(n);
  }

  /** `s.padStart(width, fill)`. */
  function PadStart(s: string, width: nat, fill: char): (r: string)
    ensures |s| < width ==> |r| == width && r[width - |s|..] == s
    ensures |s| < width ==> forall i :: 0 <= i < width - |s| ==> r[i] == fill
    ensures |s| >= width ==> r == s
  {
    if |s| < width then seq(width - |s|, _ => fill) + s else s
  }

  /** Reading back a number printed with `padStart(2, '0')` and followed by
      a non-digit yields the number. */
  lemma TwoDigitRoundTrip(n: nat, rest: string)
    requires n < 100
    requires rest == [] || !IsDigit(rest[0])
    ensures ParseInt(PadStart(NatToString(n), 2, '0') + rest) == Wrappers.Some(n)
  {
    var digits := PadStart(NatToString(n), 2, '0');
    DigitsValueOfNatToString(n);
    if n < 10 {
      assert digits == "0" + NatToString(n);
      LeadingZeroValue(NatToString(n));
    } else {
      assert NatToString(n) == NatToString(n / 10) + [DigitChar(n % 10)];
      assert digits == NatToString(n);
    }
    var s := digits + rest;
    assert |digits| == 2;
    assert IsDigit(s[0]) && IsDigit(s[1]);
    assert s[1..] == [s[1]] + rest;
    assert s[2..] == rest;
    assert LeadingDigits(s[2..]) == 0;
    assert LeadingDigits(s[1..]) == 1;
    assert LeadingDigits(s) == 2;
    assert s[..2] == digits;
  }

  /** The characters matched by JavaScript's `\s`. */
  predicate IsSpace(c: char) {
    c == ' ' || c == '\t' || c == '\n' || c == '\r' || c as int == 0x0B || c as int == 0x0C
    || c as int == 0xA0 || c as int == 0x1680 || 0x2000 <= c as int <= 0x200A
    || c as int == 0x2028 || c as int == 0x2029 || c as int == 0x202F || c as int == 0x205F
    || c as int == 0x3000 || c as int == 0xFEFF
  }

  /** `s.replace(/\s+/g, fill)` where `inRun` says the character before `s`
      was already part of a replaced run. */
  function ReplaceSpaceRunsFrom(s: string, fill: char, inRun: bool): (r: string)
    ensures |r| <= |s|
  {
    if s == [] then ""
    else if IsSpace(s[0]) then (if inRun then "" else [fill]) + ReplaceSpaceRunsFrom(s[1..], fill, true)
    else [s[0]] + ReplaceSpaceRunsFrom(s[1..], fill, false)
  }

  /** `s.replace(/\s+/g, fill)`: every maximal run of whitespace becomes one `fill`. */
  function ReplaceSpaceRuns(s: string, fill: char): (r: string)
    ensures |r| <= |s|
  {
    ReplaceSpaceRunsFrom(s, fill, false)
  }

  /** The replacement leaves no whitespace when the fill is not whitespace. */
  lemma {:induction false} ReplaceSpaceRunsNoSpace(s: string, fill: char, inRun: bool)
    requires !IsSpace(fill)
    ensures forall i :: 0 <= i < |ReplaceSpaceRunsFrom(s, fill, inRun)| ==> !IsSpace(ReplaceSpaceRunsFrom(s, fill, inRun)[i])
  {
    if s != [] { ReplaceSpaceRunsNoSpace(s[1..], fill, IsSpace(s[0])); }
  }

  /** Apart from the fill characters it inserts, the replacement keeps
      exactly the non-whitespace characters, in order. */
  lemma {:induction false} ReplaceSpaceRunsKeepsText(s: string, fill: char, inRun: bool)
    requires !IsSpace(fill)
    ensures Seqs.Filter(ReplaceSpaceRunsFrom(s, fill, inRun), c => c != fill)
         == Seqs.Filter(s, c => !IsSpace(c) && c != fill)
  {
    if s != [] {
      ReplaceSpaceRunsKeepsText(s[1..], fill, IsSpace(s[0]));
      var r := ReplaceSpaceRunsFrom(s, fill, inRun);
      var tail := ReplaceSpaceRunsFrom(s[1..], fill, IsSpace(s[0]));
      ghost var keep := (c: char) => c != fill;
      if IsSpace(s[0]) {
        if !inRun {
          assert r == [fill] + tail;
          assert r[0] == fill && r[1..] == tail;
          assert Seqs.Filter(r, keep) == Seqs.Filter(tail, keep);
        } else {
          assert r == tail;
        }
      } else {
        assert r == [s[0]] + tail;
        assert r[1..] == tail;
      }
    }
  }

  /** A string without whitespace is left as it is. */
  lemma {:induction false} ReplaceSpaceRunsNoOp(s: string, fill: char, inRun: bool)
    requires forall i :: 0 <= i < |s| ==> !IsSpace(s[i])
    ensures ReplaceSpaceRunsFrom(s, fill, inRun) == s
  {
    if s != [] {
      ReplaceSpaceRunsNoOp(s[1..], fill, false);
    }
  }

  /** A leading stretch without whitespace is copied, and the replacement
      continues after it outside any run. */
  lemma {:induction false} ReplaceSpaceRunsWordFirst(word: string, rest: string, fill: char, inRun: bool)
    requires word != []
    requires forall i :: 0 <= i < |word| ==> !IsSpace(word[i])
    ensures ReplaceSpaceRunsFrom(word + rest, fill, inRun) == word + ReplaceSpaceRunsFrom(rest, fill, false)
  {
    assert (word + rest)[0] == word[0];
    assert (word + rest)[1..] == word[1..] + rest;
    if |word| > 1 {
      ReplaceSpaceRunsWordFirst(word[1..], rest, fill, false);
    } else {
      assert word[1..] + rest == rest;
    }
  }

  /** Two words separated by one space become the words joined by the fill. */
  lemma TwoWordsJoined(a: string, b: string, fill: char)
    requires a != [] && b != []
    requires forall i :: 0 <= i < |a| ==> !IsSpace(a[i])
    requires forall i :: 0 <= i < |b| ==> !IsSpace(b[i])
    ensures ReplaceSpaceRuns(a + [' '] + b, fill) == a + [fill] + b
  {
    assert a + [' '] + b == a + ([' '] + b);
    ReplaceSpaceRunsWordFirst(a, [' '] + b, fill, false);
    assert ([' '] + b)[1..] == b;
    ReplaceSpaceRunsNoOp(b, fill, true);
  }
}
