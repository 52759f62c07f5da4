/**
 * Character and string helpers that the paradigm builder and the sentence
 * assembler rely on: a small upper/lower-case table for Latin and Cyrillic
 * letters (standing in for Java's Character.isUpperCase, toUpperCase and
 * String.toLowerCase), suffix and prefix tests, the substring operations the
 * rule tables use, and String.replace with a one-character target.
 */
module Text {

  /** An upper-case letter of the table: Latin A-Z, Cyrillic А-Я and Ѐ-Џ (which holds Ё). */
  predicate IsUpper(c: char) {
    ('A' <= c <= 'Z') || ('А' <= c <= 'Я') || ('\U{0400}' <= c <= '\U{040F}')
  }

  /** A lower-case letter of the table: Latin a-z, Cyrillic а-я and ѐ-џ (which holds ё). */
  predicate IsLower(c: char) {
    ('a' <= c <= 'z') || ('а' <= c <= 'я') || ('\U{0450}' <= c <= '\U{045F}')
  }

  /** Lower-cases a letter of the table; every other character is left as it is. */
  function ToLower(c: char): (r: char)
    ensures IsUpper(c) ==> IsLower(r)
    ensures !IsUpper(c) ==> r == c
  {
    if 'A' <= c <= 'Z' then (c as int + 32) as char
    else if 'А' <= c <= 'Я' then (c as int + 32) as char
    else if '\U{0400}' <= c <= '\U{040F}' then (c as int + 80) as char
    else c
  }

  /** Upper-cases a letter of the table; every other character is left as it is. */
  function ToUpper(c: char): (r: char)
    ensures IsLower(c) ==> IsUpper(r)
    ensures !IsLower(c) ==> r == c
  {
    if 'a' <= c <= 'z' then (c as int - 32) as char
    else if 'а' <= c <= 'я' then (c as int - 32) as char
    else if '\U{0450}' <= c <= '\U{045F}' then (c as int - 80) as char
    else c
  }

  /** Lower-casing and then upper-casing gives an upper-case letter back. */
  lemma UpperRoundTrip(c: char)
    requires IsUpper(c)
    ensures ToUpper(ToLower(c)) == c
  {
  }

  /** String.toLowerCase, character by character. */
  function Lower(s: string): (r: string)
    ensures |r| == |s|
    ensures forall i :: 0 <= i < |s| ==> r[i] == ToLower(s[i])
  {
    seq(|s|, i requires 0 <= i < |s| => ToLower(s[i]))
  }

  /** A string with no upper-case letter is its own lower-case form. */
  lemma LowerKeepsLowerCase(s: string)
    requires forall i :: 0 <= i < |s| ==> !IsUpper(s[i])
    ensures Lower(s) == s
  {
  }

  /** The first character upper-cased, the rest unchanged; the empty string stays empty. */
  function CapitaliseFirst(s: string): (r: string)
    ensures |r| == |s|
    ensures s != [] ==> r[0] == ToUpper(s[0]) && r[1..] == s[1..]
  {
    if s == [] then s else [ToUpper(s[0])] + s[1..]
  }

  predicate EndsWith(s: string, suffix: string) {
    |suffix| <= |s| && s[|s| - |suffix|..] == suffix
  }

  predicate StartsWith(s: string, prefix: string) {
    |prefix| <= |s| && s[..|prefix|] == prefix
  }

  /** A word that ends with `front + back` ends with `back`. */
  lemma {:induction false} EndsWithTail(s: string, front: string, back: string)
    requires EndsWith(s, front + back)
    ensures EndsWith(s, back)
  {
    var n := |s| - |front + back|;
    assert s[n..] == front + back;
    assert s[|s| - |back|..] == (front + back)[|front|..];
  }

  /** substring(0, length - n), made total: a string shorter than n gives "". */
  function DropLast(s: string, n: nat): (r: string)
    ensures n <= |s| ==> |r| == |s| - n && s == r + s[|s| - n..]
  {
    if n <= |s| then s[..|s| - n] else []
  }

  /** substring(length - n), made total: a string shorter than n is kept whole. */
  function TakeLast(s: string, n: nat): (r: string)
    ensures EndsWith(s, r)
    ensures n <= |s| ==> |r| == n
  {
    if n <= |s| then s[|s| - n..] else s
  }

  /** Java's s.replace(target, replacement) for a one-character target: every occurrence is replaced. */
  function ReplaceEvery(s: string, target: char, replacement: string): (r: string)
  {
    if s == [] then []
    else (if s[0] == target then replacement else [s[0]]) + ReplaceEvery(s[1..], target, replacement)
  }

  /** On one character: the replacement when it is the target, the character itself otherwise. */
  lemma ReplaceEverySingle(c: char, target: char, replacement: string)
    ensures ReplaceEvery([c], target, replacement) == if c == target then replacement else [c]
  {
    assert [c][1..] == [];
  }

  /** Replacement works on each part of a concatenation separately. */
  lemma {:induction false} ReplaceEveryConcat(a: string, b: string, target: char, replacement: string)
    ensures ReplaceEvery(a + b, target, replacement)
         == ReplaceEvery(a, target, replacement) + ReplaceEvery(b, target, replacement)
  {
    if a != [] {
      assert (a + b)[1..] == a[1..] + b;
      ReplaceEveryConcat(a[1..], b, target, replacement);
    } else {
      assert a + b == b;
    }
  }

  /** A string without the target character is returned unchanged. */
  lemma {:induction false} ReplaceEveryAbsent(s: string, target: char, replacement: string)
    requires target !in s
    ensures ReplaceEvery(s, target, replacement) == s
  {
    if s != [] {
      ReplaceEveryAbsent(s[1..], target, replacement);
    }
  }
}
