/** ASCII character classes and the case mappings that Python's str.title
    applies to them. Only ASCII is modelled: every other character is uncased. */
module Ascii {

  predicate IsUpper(c: char) { 'A' <= c <= 'Z' }

  predicate IsLower(c: char) { 'a' <= c <= 'z' }

  /** The cased characters: a letter is exactly what str.title may change. */
  predicate IsLetter(c: char) { IsUpper(c) || IsLower(c) }

  predicate IsDigit(c: char) { '0' <= c <= '9' }

  /** str.upper on one ASCII character. */
  function ToUpper(c: char): (u: char)
    ensures IsLetter(u) == IsLetter(c)
    ensures IsLetter(c) ==> IsUpper(u)
    ensures !IsLower(c) ==> u == c
  {
    if IsLower(c) then (c as int - 32) as char else c
  }

  /** str.lower on one ASCII character. */
  function ToLower(c: char): (l: char)
    ensures IsLetter(l) == IsLetter(c)
    ensures IsLetter(c) ==> IsLower(l)
    ensures !IsUpper(c) ==> l == c
  {
    if IsUpper(c) then (c as int + 32) as char else c
  }

  /** Upper- and lower-casing only change the case of a letter: each undoes
      the other, both are idempotent, and either one determines the other. */
  lemma CaseMapsAgree(c: char)
    ensures ToLower(ToUpper(c)) == ToLower(c)
    ensures ToUpper(ToLower(c)) == ToUpper(c)
    ensures ToUpper(ToUpper(c)) == ToUpper(c)
    ensures ToLower(ToLower(c)) == ToLower(c)
  {
  }

  /** Two characters that lower-case alike also upper-case alike. */
  lemma SameLowerSameUpper(a: char, b: char)
    requires ToLower(a) == ToLower(b)
    ensures ToUpper(a) == ToUpper(b)
  {
    CaseMapsAgree(a);
    CaseMapsAgree(b);
  }
}
