/** Python's str.title restricted to ASCII, the normalisation applied to the
    website name before it is stored (main.py:92) and before it is looked up
    (main.py:130). CPython walks the string once, remembering whether the
    previous character was cased; a cased character is upper-cased when the
    previous one was not, and lower-cased otherwise. On ASCII the cased
    characters are the letters, so digits and punctuation start a new word:
    "3com" becomes "3Com" and "o'neil" becomes "O'Neil". */
module TitleCase {
  import opened Ascii

  /** One step of the walk: the new form of `c` given whether the character
      before it was cased. */
  function TitleChar(c: char, previousIsCased: bool): (t: char)
    ensures IsLetter(t) == IsLetter(c)
    ensures ToLower(t) == ToLower(c)
    ensures IsLetter(c) ==> (IsUpper(t) <==> !previousIsCased)
    ensures !IsLetter(c) ==> t == c
  {
    if IsLetter(c) then
      if previousIsCased then ToLower(c) else ToUpper(c)
    else
      c
  }

  /** The rest of the walk over `s`, entered with the given flag. */
  function TitleFrom(s: string, previousIsCased: bool): (r: string)
    ensures |r| == |s|
  {
    if s == [] then []
    else [TitleChar(s[0], previousIsCased)] + TitleFrom(s[1..], IsLetter(s[0]))
  }

  /** `s.title()` for an ASCII string. */
  function Title(s: string): (r: string)
    ensures |r| == |s|
  {
    TitleFrom(s, false)
  }

  /** Position `i` of `s` starts a word: it holds a letter and is either the
      first character or follows a non-letter. */
  predicate StartsWord(s: string, i: nat)
    requires i < |s|
  {
    IsLetter(s[i]) && (i == 0 || !IsLetter(s[i - 1]))
  }

  lemma {:induction false} TitleFromAt(s: string, previousIsCased: bool, i: nat)
    requires i < |s|
    ensures TitleFrom(s, previousIsCased)[i]
         == TitleChar(s[i], if i == 0 then previousIsCased else IsLetter(s[i - 1]))
  {
    if i > 0 {
      TitleFromAt(s[1..], IsLetter(s[0]), i - 1);
    }
  }

  /** Position by position, independently of the walk: a letter that starts
      a word is upper-cased, any other letter is lower-cased, and every
      non-letter is left as it is. */
  lemma TitleAt(s: string, i: nat)
    requires i < |s|
    ensures StartsWord(s, i) ==> Title(s)[i] == ToUpper(s[i])
    ensures IsLetter(s[i]) && !StartsWord(s, i) ==> Title(s)[i] == ToLower(s[i])
    ensures !IsLetter(s[i]) ==> Title(s)[i] == s[i]
  {
    TitleFromAt(s, false, i);
  }

  lemma {:induction false} TitleFromIdempotent(s: string, previousIsCased: bool)
    ensures TitleFrom(TitleFrom(s, previousIsCased), previousIsCased) == TitleFrom(s, previousIsCased)
  {
    if s != [] {
      var t := TitleFrom(s, previousIsCased);
      CaseMapsAgree(s[0]);
      assert t[1..] == TitleFrom(s[1..], IsLetter(s[0]));
      TitleFromIdempotent(s[1..], IsLetter(s[0]));
    }
  }

  /** Title-casing a key that is already title-cased changes nothing, so a
      stored key typed back in verbatim finds its own record. */
  lemma TitleIdempotent(s: string)
    ensures Title(Title(s)) == Title(s)
  {
    TitleFromIdempotent(s, false);
  }

  /** The two strings differ at most in the case of their letters. */
  predicate SameIgnoringCase(a: string, b: string) {
    |a| == |b| && forall i :: 0 <= i < |a| ==> ToLower(a[i]) == ToLower(b[i])
  }

  lemma {:induction false} TitleFromIgnoresCase(a: string, b: string, previousIsCased: bool)
    requires SameIgnoringCase(a, b)
    ensures TitleFrom(a, previousIsCased) == TitleFrom(b, previousIsCased)
  {
    if a != [] {
      assert ToLower(a[0]) == ToLower(b[0]);
      SameLowerSameUpper(a[0], b[0]);
      assert SameIgnoringCase(a[1..], b[1..]) by {
        forall i | 0 <= i < |a[1..]| ensures ToLower(a[1..][i]) == ToLower(b[1..][i]) {
          assert a[1..][i] == a[i + 1] && b[1..][i] == b[i + 1];
        }
      }
      TitleFromIgnoresCase(a[1..], b[1..], IsLetter(a[0]));
    }
  }

  /** Two website names title-case to the same key exactly when they differ
      only in the case of their letters. */
  lemma TitleIgnoresCase(a: string, b: string)
    ensures Title(a) == Title(b) <==> SameIgnoringCase(a, b)
  {
    if SameIgnoringCase(a, b) {
      TitleFromIgnoresCase(a, b, false);
    }
    if Title(a) == Title(b) {
      forall i | 0 <= i < |a| ensures ToLower(a[i]) == ToLower(b[i]) {
        TitleFromAt(a, false, i);
        TitleFromAt(b, false, i);
      }
    }
  }

  /** Digits are uncased: "3com" becomes "3Com". */
  lemma TitleAfterDigit()
    ensures Title("3com") == "3Com"
  {
    assert "3com"[1..] == "com";
    assert TitleFrom("com", false) == ['C'] + TitleFrom("om", true);
    assert TitleFrom("om", true) == "om";
  }

  /** So is an apostrophe: "o'neil" becomes "O'Neil". */
  lemma TitleAfterApostrophe()
    ensures Title("o'neil") == "O'Neil"
  {
    assert Title("o'neil") == ['O'] + TitleFrom("'neil", true);
    assert TitleFrom("'neil", true) == ['\''] + TitleFrom("neil", false);
  }
}
