/** The pooled password generator of main.py:15-85. It draws 8 to 10
    letters, 2 to 4 digits and 2 to 4 symbols from three fixed pools,
    concatenates the three draws and shuffles the result in place. Every
    random choice (`randint`, `choice` and the index picked by `shuffle`) is
    a nondeterministic choice: the contracts hold whatever is chosen. */
module PasswordGenerator {
  import opened Ascii

  /** The letter pool lists the lower-case letters, then the upper-case ones. */
  const LowerLetters: string := "abcdefghijklmnopqrstuvwxyz"
  const UpperLetters: string := "ABCDEFGHIJKLMNOPQRSTUVWXYZ"
  const Letters: string := LowerLetters + UpperLetters
  const Numbers: string := "0123456789"
  const Symbols: string := "!#$%&()*+{}"

  /** The three pools a password character is drawn from. */
  datatype CharClass = Letter | Digit | Symbol

  function Pool(k: CharClass): string {
    match k
    case Letter => Letters
    case Digit => Numbers
    case Symbol => Symbols
  }

  predicate InPool(c: char, k: CharClass) { c in Pool(k) }

  predicate InAnyPool(c: char) { InPool(c, Letter) || InPool(c, Digit) || InPool(c, Symbol) }

  /** The letter pool is exactly the 52 ASCII letters. */
  lemma LettersAreAsciiLetters(c: char)
    ensures c in Letters <==> IsLetter(c)
  {
    assert c in Letters <==> c in LowerLetters || c in UpperLetters;
    if IsLower(c) {
      assert LowerLetters[c as int - 'a' as int] == c;
    } else if IsUpper(c) {
      assert UpperLetters[c as int - 'A' as int] == c;
    }
  }

  /** The number pool is exactly the 10 ASCII digits. */
  lemma NumbersAreAsciiDigits(c: char)
    ensures c in Numbers <==> IsDigit(c)
  {
    if IsDigit(c) {
      assert Numbers[c as int - '0' as int] == c;
    }
  }

  /** The symbol pool holds neither letters nor digits. */
  lemma SymbolsAreNotAlphanumeric(c: char)
    requires c in Symbols
    ensures !IsLetter(c) && !IsDigit(c)
  {
  }

  lemma PoolsAreAsciiClasses(c: char)
    ensures c in Letters <==> IsLetter(c)
    ensures c in Numbers <==> IsDigit(c)
    ensures c in Symbols ==> !IsLetter(c) && !IsDigit(c)
  {
    LettersAreAsciiLetters(c);
    NumbersAreAsciiDigits(c);
    if c in Symbols {
      SymbolsAreNotAlphanumeric(c);
    }
  }

  /** No character belongs to two pools. */
  lemma PoolsAreDisjoint(c: char, k: CharClass, k': CharClass)
    requires InPool(c, k) && InPool(c, k')
    ensures k == k'
  {
    PoolsAreAsciiClasses(c);
  }

  /** How many characters of `s` come from pool `k`. */
  function Count(s: string, k: CharClass): (n: nat)
    ensures n <= |s|
  {
    if s == [] then 0
    else (if InPool(s[0], k) then 1 else 0) + Count(s[1..], k)
  }

  lemma {:induction false} CountConcat(a: string, b: string, k: CharClass)
    ensures Count(a + b, k) == Count(a, k) + Count(b, k)
  {
    if a != [] {
      assert (a + b)[0] == a[0] && (a + b)[1..] == a[1..] + b;
      CountConcat(a[1..], b, k);
      assert Count(a + b, k) == (if InPool(a[0], k) then 1 else 0) + Count(a[1..] + b, k);
    } else {
      assert a + b == b;
    }
  }

  /** A draw from pool `k` counts in full towards `k` and not at all towards
      the other pools. */
  lemma {:induction false} CountOfDraw(s: string, k: CharClass, k': CharClass)
    requires forall i :: 0 <= i < |s| ==> InPool(s[i], k)
    ensures Count(s, k') == if k' == k then |s| else 0
  {
    if s != [] {
      if InPool(s[0], k') {
        PoolsAreDisjoint(s[0], k, k');
      }
      CountOfDraw(s[1..], k, k');
    }
  }

  /** Taking the character at `j` out of `s` takes its contribution out of
      the count and one copy of it out of the multiset. */
  lemma CountRemoveAt(s: string, j: nat, k: CharClass)
    requires j < |s|
    ensures Count(s, k) == (if InPool(s[j], k) then 1 else 0) + Count(s[..j] + s[j + 1..], k)
    ensures multiset(s[..j] + s[j + 1..]) == multiset(s) - multiset{s[j]}
  {
    assert s == s[..j] + [s[j]] + s[j + 1..];
    CountConcat(s[..j] + [s[j]], s[j + 1..], k);
    CountConcat(s[..j], [s[j]], k);
    CountConcat(s[..j], s[j + 1..], k);
  }

  /** Shuffling keeps the per-pool counts: two strings with the same
      characters, in any order, have the same count for every pool. */
  lemma {:induction false} CountPermutation(a: string, b: string, k: CharClass)
    requires multiset(a) == multiset(b)
    ensures Count(a, k) == Count(b, k)
  {
    if a == [] {
      assert |b| == |multiset(b)| == 0;
    } else {
      assert a[0] in multiset(b);
      var j :| 0 <= j < |b| && b[j] == a[0];
      CountRemoveAt(b, j, k);
      assert multiset(a[1..]) == multiset(a) - multiset{a[0]} by {
        assert a == [a[0]] + a[1..];
      }
      CountPermutation(a[1..], b[..j] + b[j + 1..], k);
    }
  }

  /** A password whose characters all come from the pools, with 8 to 10
      letters, 2 to 4 digits and 2 to 4 symbols, in any order. */
  predicate WellComposed(password: string) {
    && (forall i :: 0 <= i < |password| ==> InAnyPool(password[i]))
    && 8 <= Count(password, Letter) <= 10
    && 2 <= Count(password, Digit) <= 4
    && 2 <= Count(password, Symbol) <= 4
  }

  /** Every character counts towards exactly one pool. */
  lemma {:induction false} CountsAddUp(s: string)
    requires forall i :: 0 <= i < |s| ==> InAnyPool(s[i])
    ensures Count(s, Letter) + Count(s, Digit) + Count(s, Symbol) == |s|
  {
    if s != [] {
      PoolsAreAsciiClasses(s[0]);
      CountsAddUp(s[1..]);
    }
  }

  /** A well-composed password is 12 to 18 characters long. */
  lemma WellComposedLength(password: string)
    requires WellComposed(password)
    ensures 12 <= |password| <= 18
  {
    CountsAddUp(password);
  }

  /** `[choice(pool) for _ in range(count)]` (main.py:74-76). */
  method Draw(pool: string, count: nat) returns (drawn: string)
    requires pool != []
    ensures |drawn| == count
    ensures forall i :: 0 <= i < |drawn| ==> drawn[i] in pool
  {
    drawn := [];
    assert pool[0] in pool;
    while |drawn| < count
      invariant |drawn| <= count
      invariant forall i :: 0 <= i < |drawn| ==> drawn[i] in pool
    {
      var c :| c in pool;
      drawn := drawn + [c];
    }
  }

  /** random.shuffle (main.py:79): Fisher-Yates, swapping each position from
      the last down to the second with a position chosen at or below it. */
  method Shuffle(a: array<char>)
    modifies a
    ensures multiset(a[..]) == old(multiset(a[..]))
  {
    var i := a.Length - 1;
    while i > 0
      invariant i < a.Length
      invariant multiset(a[..]) == old(multiset(a[..]))
    {
      var j :| 0 <= j <= i;
      a[i], a[j] := a[j], a[i];
      i := i - 1;
    }
  }

  /** generate_password without its widget and clipboard effects
      (main.py:17-81): the composed, shuffled password. */
  method GeneratePassword() returns (password: string)
    ensures WellComposed(password)
    ensures 12 <= |password| <= 18
  {
    var letterCount :| 8 <= letterCount <= 10;
    var numberCount :| 2 <= numberCount <= 4;
    var symbolCount :| 2 <= symbolCount <= 4;
    var passwordLetters := Draw(Letters, letterCount);
    var passwordNumbers := Draw(Numbers, numberCount);
    var passwordSymbols := Draw(Symbols, symbolCount);

    var passwordList := passwordLetters + passwordNumbers + passwordSymbols;
    var a := new char[|passwordList|](i requires 0 <= i < |passwordList| => passwordList[i]);
    assert a[..] == passwordList;
    Shuffle(a);
    password := a[..];

    forall k: CharClass
      ensures Count(password, k) == Count(passwordLetters, k) + Count(passwordNumbers, k) + Count(passwordSymbols, k)
    {
      CountPermutation(passwordList, password, k);
      CountConcat(passwordLetters + passwordNumbers, passwordSymbols, k);
      CountConcat(passwordLetters, passwordNumbers, k);
    }
    forall k: CharClass
      ensures Count(passwordLetters, k) == if k == Letter then letterCount else 0
      ensures Count(passwordNumbers, k) == if k == Digit then numberCount else 0
      ensures Count(passwordSymbols, k) == if k == Symbol then symbolCount else 0
    {
      CountOfDraw(passwordLetters, Letter, k);
      CountOfDraw(passwordNumbers, Digit, k);
      CountOfDraw(passwordSymbols, Symbol, k);
    }
    forall i | 0 <= i < |password| ensures InAnyPool(password[i]) {
      assert password[i] in multiset(passwordList);
    }
    WellComposedLength(password);
  }
}
