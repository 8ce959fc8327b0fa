/** The JavaScript string operations the pages rely on, over `seq<char>`:
    digit tests, `replace(/\D/g, "")`, `toString()` of a non-negative integer,
    `padStart`, ASCII `toLowerCase`, `includes`, `trim`, `split(" ")` and `join(" ")`. */
module Strings {
  import Seqs

  predicate IsDigit(c: char) { '0' <= c <= '9' }

  predicate AllDigits(s: string) { forall i :: 0 <= i < |s| ==> IsDigit(s[i]) }

  /** `s.replace(/\D/g, "")`: the decimal digits of `s`, in order. */
  function DigitsOnly(s: string): (r: string)
    ensures AllDigits(r)
    ensures Seqs.IsSubsequence(r, s)
    ensures |r| <= |s|
    decreases |s|
  {
    if s == [] then ""
    else if IsDigit(s[0]) then
      var rest := DigitsOnly(s[1..]);
      assert ([s[0]] + rest)[1..] == rest;
      [s[0]] + rest
    else
      var rest := DigitsOnly(s[1..]);
      assert rest != [] ==> IsDigit(rest[0]) && rest[0] != s[0];
      rest
  }

  /** Every digit of `s` survives the filter and nothing else does. */
  lemma {:induction false} DigitsOnlyCounts(s: string)
    ensures forall c :: multiset(DigitsOnly(s))[c] == if IsDigit(c) then multiset(s)[c] else 0
    decreases |s|
  {
    if s != [] {
      DigitsOnlyCounts(s[1..]);
      assert s == [s[0]] + s[1..];
      assert multiset(s) == multiset([s[0]]) + multiset(s[1..]);
    }
  }

  /** The filter leaves an all-digit string as it is, so applying it twice changes nothing. */
  lemma {:induction false} DigitsOnlyKeepsDigits(s: string)
    requires AllDigits(s)
    ensures DigitsOnly(s) == s
    decreases |s|
  {
    if s != [] {
      DigitsOnlyKeepsDigits(s[1..]);
    }
  }

  function DigitChar(d: nat): (c: char)
    requires d < 10
    ensures IsDigit(c)
  {
    ('0' as int + d) as char
  }

  function DigitValue(c: char): (d: nat)
    requires IsDigit(c)
    ensures d < 10 && DigitChar(d) == c
  {
    (c as int) - ('0' as int)
  }

  /** Reads a string of decimal digits as the number it denotes, most significant digit first. */
  function DecimalValue(s: string): nat
    requires AllDigits(s)
    decreases |s|
  {
    if s == [] then 0 else DecimalValue(s[..|s| - 1]) * 10 + DigitValue(s[|s| - 1])
  }

  /** `n.toString()` for a non-negative integer: decimal digits without leading zeros that
      read back as `n`. */
  function NatToDecimal(n: nat): (r: string)
    ensures 1 <= |r| && AllDigits(r)
    ensures DecimalValue(r) == n
    ensures |r| > 1 ==> r[0] != '0'
    ensures n < 10 <==> |r| == 1
  {
    if n < 10 then
      [DigitChar(n)]
    else
      var high := NatToDecimal(n / 10);
      var r := high + [DigitChar(n % 10)];
      assert r[..|r| - 1] == high;
      r
  }

  /** `s.padStart(2, "0")`: zeros on the left up to length 2; a longer string is kept whole. */
  function PadStart2(s: string): (r: string)
    ensures |r| == if |s| >= 2 then |s| else 2
  {
    if |s| >= 2 then s else seq(2 - |s|, _ => '0') + s
  }

  /** A number below 100, as `n.toString().padStart(2, "0")` writes it: exactly its two digits. */
  lemma TwoDigits(n: nat)
    ensures n < 100 ==> PadStart2(NatToDecimal(n)) == [DigitChar(n / 10), DigitChar(n % 10)]
  {
    if 10 <= n < 100 {
      assert NatToDecimal(n / 10) == [DigitChar(n / 10)];
    }
  }

  /** `toLowerCase` on ASCII letters; every other character is left as it is. */
  function LowerChar(c: char): char
  {
    if 'A' <= c <= 'Z' then (c as int + 32) as char else c
  }

  predicate IsUpper(c: char) { 'A' <= c <= 'Z' }

  /** `s.toLowerCase()` on ASCII: no upper-case letter is left, each upper-case letter
      becomes the same letter of the alphabet in lower case, and every other character
      stays where it was. */
  function ToLower(s: string): (r: string)
    ensures |r| == |s|
    ensures forall i :: 0 <= i < |r| ==> !IsUpper(r[i])
    ensures forall i :: 0 <= i < |s| && IsUpper(s[i]) ==>
              'a' <= r[i] <= 'z' && r[i] as int - 'a' as int == s[i] as int - 'A' as int
    ensures forall i :: 0 <= i < |s| && !IsUpper(s[i]) ==> r[i] == s[i]
  {
    seq(|s|, i requires 0 <= i < |s| => LowerChar(s[i]))
  }

  /** Lower-casing twice is lower-casing once; so are two strings that differ only in
      the case of their letters. */
  lemma ToLowerIdempotent(s: string)
    ensures ToLower(ToLower(s)) == ToLower(s)
  {
    var once := ToLower(s);
    forall i | 0 <= i < |once| ensures ToLower(once)[i] == once[i] {
      assert !IsUpper(once[i]);
    }
  }

  predicate IsPrefix(p: string, s: string)
  {
    |p| <= |s| && s[..|p|] == p
  }

  /** `s.includes(sub)`, scanning for the first position where `sub` starts. */
  function Contains(s: string, sub: string): bool
    decreases |s|
  {
    IsPrefix(sub, s) || (s != [] && Contains(s[1..], sub))
  }

  /** `sub` occurs in `s` starting at position `k`. */
  predicate OccursAt(s: string, sub: string, k: int)
  {
    0 <= k && k + |sub| <= |s| && s[k..k + |sub|] == sub
  }

  /** `includes` holds exactly when `sub` occurs at some position of `s`. */
  lemma {:induction false} ContainsIffOccurs(s: string, sub: string)
    ensures Contains(s, sub) <==> exists k :: OccursAt(s, sub, k)
    decreases |s|
  {
    if IsPrefix(sub, s) {
      assert OccursAt(s, sub, 0);
    } else if s != [] {
      ContainsIffOccurs(s[1..], sub);
      if Contains(s[1..], sub) {
        var k :| OccursAt(s[1..], sub, k);
        assert s[k + 1..k + 1 + |sub|] == s[1..][k..k + |sub|];
        assert OccursAt(s, sub, k + 1);
      }
      if k :| OccursAt(s, sub, k) {
        assert k != 0;
        assert s[1..][k - 1..k - 1 + |sub|] == s[k..k + |sub|];
        assert OccursAt(s[1..], sub, k - 1);
      }
    } else {
      assert forall k :: !OccursAt(s, sub, k);
    }
  }

  /** The empty search string occurs in every string. */
  lemma ContainsEmpty(s: string)
    ensures Contains(s, "")
  {
    assert IsPrefix("", s);
  }

  /** Characters that `String.prototype.trim` removes: white space and line terminators. */
  predicate IsWhitespace(c: char)
  {
    c == ' ' || c == '\t' || c == '\n' || c == '\r' || c == '\U{000B}' || c == '\U{000C}'
    || c == '\U{00A0}' || c == '\U{FEFF}' || c == '\U{1680}' || ('\U{2000}' <= c <= '\U{200A}')
    || c == '\U{2028}' || c == '\U{2029}' || c == '\U{202F}' || c == '\U{205F}' || c == '\U{3000}'
  }

  function TrimStart(s: string): string
    decreases |s|
  {
    if s != [] && IsWhitespace(s[0]) then TrimStart(s[1..]) else s
  }

  function TrimEnd(s: string): string
    decreases |s|
  {
    if s != [] && IsWhitespace(s[|s| - 1]) then TrimEnd(s[..|s| - 1]) else s
  }

  /** `s.trim()`. */
  function Trim(s: string): string
  {
    TrimEnd(TrimStart(s))
  }

  predicate IsBlank(s: string)
  {
    forall i :: 0 <= i < |s| ==> IsWhitespace(s[i])
  }

  /** `!s.trim()` holds exactly for strings made only of white space (including ""). */
  lemma {:induction false} TrimEmptyIffBlank(s: string)
    ensures Trim(s) == "" <==> IsBlank(s)
    decreases |s|
  {
    if s != [] && IsWhitespace(s[0]) {
      TrimEmptyIffBlank(s[1..]);
      assert IsBlank(s) <==> IsBlank(s[1..]) by {
        if IsBlank(s[1..]) {
          forall i | 0 <= i < |s| ensures IsWhitespace(s[i]) {
            if i > 0 { assert s[i] == s[1..][i - 1]; }
          }
        }
      }
    } else if s != [] {
      assert !IsBlank(s);
      TrimEndKeepsNonBlank(s);
    }
  }

  lemma {:induction false} TrimEndKeepsNonBlank(s: string)
    requires s != [] && !IsWhitespace(s[0])
    ensures TrimEnd(s) != ""
    decreases |s|
  {
    if IsWhitespace(s[|s| - 1]) {
      TrimEndKeepsNonBlank(s[..|s| - 1]);
    }
  }

  /** `parts.join(" ")`. */
  function JoinOnSpace(parts: seq<string>): string
    requires |parts| >= 1
    decreases |parts|
  {
    if |parts| == 1 then parts[0] else parts[0] + " " + JoinOnSpace(parts[1..])
  }

  /** `s.split(" ")`: the pieces between single spaces; always at least one piece,
      and consecutive, leading or trailing spaces give empty pieces. No piece holds a
      space, and joining the pieces with single spaces gives `s` back. */
  function SplitOnSpace(s: string): (parts: seq<string>)
    ensures |parts| >= 1
    ensures forall i :: 0 <= i < |parts| ==> ' ' !in parts[i]
    ensures JoinOnSpace(parts) == s
    decreases |s|
  {
    if s == [] then [""]
    else if s[0] == ' ' then
      var rest := SplitOnSpace(s[1..]);
      var parts := [""] + rest;
      assert parts[1..] == rest;
      assert s == " " + s[1..];
      parts
    else
      var rest := SplitOnSpace(s[1..]);
      var parts := [[s[0]] + rest[0]] + rest[1..];
      assert forall c :: c in [s[0]] + rest[0] ==> c == s[0] || c in rest[0];
      if |rest| == 1 then
        assert s == [s[0]] + s[1..];
        parts
      else
        assert parts[1..] == rest[1..];
        assert s == [s[0]] + (rest[0] + " " + JoinOnSpace(rest[1..]));
        parts
  }

  /** `parts.map(n => n[0]).join("")`: `n[0]` of an empty piece is undefined,
      which `join` writes as the empty string. */
  function FirstLetters(parts: seq<string>): string
    decreases |parts|
  {
    if parts == [] then ""
    else (if parts[0] == "" then "" else [parts[0][0]]) + FirstLetters(parts[1..])
  }

  /** Reference definition, by a single left-to-right scan: the characters that
      are not a space and follow a space or the start of the string. */
  function WordStarts(s: string, afterSpace: bool): string
    decreases |s|
  {
    if s == [] then ""
    else (if s[0] != ' ' && afterSpace then [s[0]] else "") + WordStarts(s[1..], s[0] == ' ')
  }

  lemma {:induction false} FirstLettersAreWordStarts(s: string)
    ensures FirstLetters(SplitOnSpace(s)) == WordStarts(s, true)
    ensures FirstLetters(SplitOnSpace(s)[1..]) == WordStarts(s, false)
    decreases |s|
  {
    if s != [] {
      FirstLettersAreWordStarts(s[1..]);
      var rest := SplitOnSpace(s[1..]);
      if s[0] == ' ' {
        assert SplitOnSpace(s)[1..] == rest;
      } else {
        assert SplitOnSpace(s)[1..] == rest[1..];
      }
    }
  }

  lemma {:induction false} WordStartsAreLetters(s: string, afterSpace: bool)
    ensures forall i :: 0 <= i < |WordStarts(s, afterSpace)| ==>
              WordStarts(s, afterSpace)[i] != ' ' && WordStarts(s, afterSpace)[i] in s
    decreases |s|
  {
    if s != [] {
      WordStartsAreLetters(s[1..], s[0] == ' ');
      assert forall c :: c in s[1..] ==> c in s;
    }
  }

  /** `name.split(" ").map(n => n[0]).join("").slice(0, 2)`: the avatar initials. */
  function Initials(name: string): (r: string)
    ensures |r| <= 2
    ensures r == (var w := WordStarts(name, true); if |w| <= 2 then w else w[..2])
    ensures forall i :: 0 <= i < |r| ==> r[i] != ' ' && r[i] in name
    ensures name != "" && name[0] != ' ' ==> |r| >= 1 && r[0] == name[0]
  {
    var letters := FirstLetters(SplitOnSpace(name));
    FirstLettersAreWordStarts(name);
    WordStartsAreLetters(name, true);
    if |letters| <= 2 then letters else letters[..2]
  }
}
