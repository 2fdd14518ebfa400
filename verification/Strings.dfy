/** The string helpers of providers/network.go. */
module Strings {
  /** `unicode.ToLower` for the letters whose lower case is an ASCII letter (besides A to Z these are
      U+0130 and U+212A).  Other letters are left alone: no comparison with a keyword can tell. */
  function LowerChar(c: char): char {
    if 'A' <= c <= 'Z' then c - 'A' + 'a'
    else if c == '\U{0130}' then 'i'
    else if c == '\U{212A}' then 'k'
    else c
  }

  /** `strings.ToLower`. */
  function ToLower(s: string): (r: string)
    ensures |r| == |s|
  {
    if s == [] then [] else [LowerChar(s[0])] + ToLower(s[1..])
  }

  /** The text before the first colon; all of it without one. */
  function BeforeColon(s: string): string {
    if s == [] || s[0] == ':' then [] else [s[0]] + BeforeColon(s[1..])
  }

  /** The text after the last colon; nothing without one. */
  function AfterColon(s: string): string {
    if ':' !in s then []
    else if s[|s| - 1] == ':' then []
    else AfterColon(s[..|s| - 1]) + [s[|s| - 1]]
  }

  /** `c` is the lower-case letter `x`, in either case, or one of the two letters with an ASCII lower case. */
  predicate SameLetter(c: char, x: char) {
    || c == x || c as int == x as int - 32
    || (x == 'i' && c == '\U{0130}') || (x == 'k' && c == '\U{212A}')
  }

  /** The text is the lower-case word, in whatever case. */
  predicate Says(s: string, word: string) {
    |s| == |word| && forall i :: 0 <= i < |s| ==> SameLetter(s[i], word[i])
  }

  lemma {:induction false} ToLowerIff(s: string, word: string)
    requires forall i :: 0 <= i < |word| ==> 'a' <= word[i] <= 'z'
    ensures ToLower(s) == word <==> Says(s, word)
  {
    if s != [] && word != [] {
      ToLowerIff(s[1..], word[1..]);
      assert s == [s[0]] + s[1..] && word == [word[0]] + word[1..];
      assert LowerChar(s[0]) == word[0] <==> SameLetter(s[0], word[0]);
    }
  }

  /** What stands before the first colon. */
  lemma {:induction false} BeforeColonIs(s: string, i: nat)
    requires i <= |s| && ':' !in s[..i] && (i < |s| ==> s[i] == ':')
    ensures BeforeColon(s) == s[..i]
  {
    if i > 0 {
      assert s[0] == s[..i][0] && s[1..][..i - 1] == s[..i][1..];
      BeforeColonIs(s[1..], i - 1);
    }
  }

  lemma {:induction false} FirstColon(s: string) returns (i: nat)
    ensures i <= |s| && ':' !in s[..i] && (i < |s| ==> s[i] == ':')
  {
    i := 0;
    if s != [] && s[0] != ':' {
      i := FirstColon(s[1..]);
      i := i + 1;
      assert s[..i] == [s[0]] + s[1..][..i - 1];
    }
  }

  /** What stands after the last colon. */
  lemma {:induction false} AfterColonIs(s: string, i: nat)
    requires i < |s| && s[i] == ':' && ':' !in s[i + 1..]
    ensures AfterColon(s) == s[i + 1..]
  {
    var front := s[..|s| - 1];
    if i < |s| - 1 {
      assert s[|s| - 1] == s[i + 1..][|s| - i - 2] && front[i + 1..] + [s[|s| - 1]] == s[i + 1..];
      assert front[i + 1..] == s[i + 1..][..|s| - i - 2];
      AfterColonIs(front, i);
    }
  }

  /** Something stands after the last colon iff there is a colon and it is not the last character. */
  lemma {:induction false} HasSuffixIff(s: string)
    ensures AfterColon(s) != "" <==> ':' in s && s[|s| - 1] != ':'
  {
  }
}
