/**
 * `StringCasingExtensions.ToSnakeCase`: a one-pass transducer over the characters of a
 * name whose only state is the category of the previous emitted character.
 * Characters are classified by ASCII: `A`-`Z` upper, `a`-`z` lower, `0`-`9` digit,
 * everything else (space included) "other".
 */
module StringCasing {
  import opened Wrappers

  /**
   * The categories `previousCategory` can hold. `Space` is the source's
   * `SpaceSeparator`, which it stores after a run of "other" characters.
   */
  datatype Category = Upper | Lower | Digit | Space

  predicate IsUpper(c: char) { 'A' <= c <= 'Z' }
  predicate IsLower(c: char) { 'a' <= c <= 'z' }
  predicate IsDigit(c: char) { '0' <= c <= '9' }
  predicate IsLetter(c: char) { IsUpper(c) || IsLower(c) }

  /** Culture-invariant `char.ToLower` on ASCII. */
  function ToLower(c: char): (r: char)
    ensures IsUpper(c) ==> IsLower(r)
    ensures !IsUpper(c) ==> r == c
  {
    if IsUpper(c) then (c as int - 'A' as int + 'a' as int) as char else c
  }

  /** The characters a snake-cased name may contain. */
  predicate IsSnakeChar(c: char) { IsLower(c) || IsDigit(c) || c == '_' || c == '-' }

  /** Whether an upper-case letter at `i` gets a `_` in front of it. */
  predicate BreaksBeforeUpper(text: string, i: nat, prev: Option<Category>)
    requires i < |text|
  {
    || prev == Some(Space)
    || prev == Some(Lower)
    || (prev != Some(Digit) && prev != None && i > 0 && i + 1 < |text| && IsLower(text[i + 1]))
  }

  /** One pass of the loop body at index `i`: the characters appended and the new `previousCategory`. */
  function Step(text: string, i: nat, prev: Option<Category>): (seq<char>, Option<Category>)
    requires i < |text|
  {
    var c := text[i];
    if c == '_' then (['_'], None)
    else if c == '-' then (['-'], None)
    else if IsUpper(c) then
      ((if BreaksBeforeUpper(text, i, prev) then ['_'] else []) + [ToLower(c)], Some(Upper))
    else if IsLower(c) || IsDigit(c) then
      ((if prev == Some(Space) then ['_'] else []) + [c], Some(if IsLower(c) then Lower else Digit))
    else
      ([], if prev != None then Some(Space) else None)
  }

  /** The builder's contents and `previousCategory` after the first `k` characters. */
  function Run(text: string, k: nat): (seq<char>, Option<Category>)
    requires k <= |text|
  {
    if k == 0 then ([], None)
    else
      var before := Run(text, k - 1);
      var step := Step(text, k - 1, before.1);
      (before.0 + step.0, step.1)
  }

  /** The snake-cased form of `text`. */
  function SnakeCase(text: string): string
  {
    Run(text, |text|).0
  }

  /** What the character at `i` contributes to the output. */
  function Emitted(text: string, i: nat): seq<char>
    requires i < |text|
  {
    Step(text, i, Run(text, i).1).0
  }

  /** `text.ToSnakeCase()`: a null text (`None`) comes back as null. */
  method ToSnakeCase(input: Option<string>) returns (r: Option<string>)
    ensures input.None? ==> r.None?
    ensures input == Some([]) ==> r == input
    ensures input.Some? ==> r == Some(SnakeCase(input.value))
  {
    if input.None? || input.value == [] {
      return input;
    }
    var text := input.value;
    var builder: seq<char> := [];
    var previousCategory: Option<Category> := None;
    for currentIndex := 0 to |text|
      invariant builder == Run(text, currentIndex).0
      invariant previousCategory == Run(text, currentIndex).1
    {
      var currentChar := text[currentIndex];
      if currentChar == '_' {
        builder := builder + ['_'];
        previousCategory := None;
        continue;
      }
      if currentChar == '-' {
        builder := builder + ['-'];
        previousCategory := None;
        continue;
      }
      var currentCategory: Category;
      if IsUpper(currentChar) {
        currentCategory := Upper;
        if previousCategory == Some(Space) || previousCategory == Some(Lower)
          || (previousCategory != Some(Digit) && previousCategory != None && currentIndex > 0
              && currentIndex + 1 < |text| && IsLower(text[currentIndex + 1]))
        {
          builder := builder + ['_'];
        }
        currentChar := ToLower(currentChar);
      } else if IsLower(currentChar) || IsDigit(currentChar) {
        currentCategory := if IsLower(currentChar) then Lower else Digit;
        if previousCategory == Some(Space) {
          builder := builder + ['_'];
        }
      } else {
        if previousCategory != None {
          previousCategory := Some(Space);
        }
        continue;
      }
      builder := builder + [currentChar];
      previousCategory := Some(currentCategory);
    }
    return Some(builder);
  }

  // ---------------------------------------------------------------------------
  // What comes out
  // ---------------------------------------------------------------------------

  /** The output contains only lower-case letters, digits, `_` and `-`. */
  lemma {:induction false} OutputAlphabet(text: string, k: nat)
    requires k <= |text|
    ensures forall j :: 0 <= j < |Run(text, k).0| ==> IsSnakeChar(Run(text, k).0[j])
  {
    if k > 0 {
      OutputAlphabet(text, k - 1);
    }
  }

  /** The letters, digits and dashes of a string, in order, lower-cased. */
  function Essence(s: string): string
  {
    if s == [] then []
    else
      var c := s[|s| - 1];
      Essence(s[..|s| - 1]) + (if IsLetter(c) || IsDigit(c) || c == '-' then [ToLower(c)] else [])
  }

  lemma {:induction false} EssenceAppend(a: string, b: string)
    ensures Essence(a + b) == Essence(a) + Essence(b)
  {
    if b == [] {
      assert a + b == a;
    } else {
      var c := b[|b| - 1];
      var extra := if IsLetter(c) || IsDigit(c) || c == '-' then [ToLower(c)] else [];
      assert (a + b)[..|a + b| - 1] == a + b[..|b| - 1];
      assert (a + b)[|a + b| - 1] == c;
      EssenceAppend(a, b[..|b| - 1]);
      calc {
        Essence(a + b);
        Essence(a + b[..|b| - 1]) + extra;
        Essence(a) + Essence(b[..|b| - 1]) + extra;
        Essence(a) + (Essence(b[..|b| - 1]) + extra);
        Essence(a) + Essence(b);
      }
    }
  }

  /**
   * Nothing but underscores is added and nothing but "other" characters is dropped:
   * the letters, digits and dashes of the output are those of the input, in order, lower-cased.
   */
  lemma {:induction false} EssencePreserved(text: string, k: nat)
    requires k <= |text|
    ensures Essence(Run(text, k).0) == Essence(text[..k])
  {
    if k > 0 {
      EssencePreserved(text, k - 1);
      var (out, prev) := Run(text, k - 1);
      EssenceAppend(out, Step(text, k - 1, prev).0);
      assert text[..k][..k - 1] == text[..k - 1];
    }
  }

  /** Every `_` the output has sits between a lower-case letter or digit on each side. */
  predicate WellSeparated(s: string)
  {
    forall j :: 0 <= j < |s| && s[j] == '_' ==>
      0 < j < |s| - 1 && (IsLower(s[j - 1]) || IsDigit(s[j - 1])) && (IsLower(s[j + 1]) || IsDigit(s[j + 1]))
  }

  /**
   * For input without underscores, every underscore of the output is an inserted word break:
   * never first, never last, never doubled, never next to a dash.
   */
  lemma {:induction false} InsertedBreaksAreInterior(text: string, k: nat)
    requires k <= |text|
    requires forall j :: 0 <= j < |text| ==> text[j] != '_'
    ensures WellSeparated(Run(text, k).0)
    ensures Run(text, k).1 != None ==>
      var out := Run(text, k).0; |out| > 0 && (IsLower(out[|out| - 1]) || IsDigit(out[|out| - 1]))
  {
    if k > 0 {
      InsertedBreaksAreInterior(text, k - 1);
      var (out, prev) := Run(text, k - 1);
      var (emitted, next) := Step(text, k - 1, prev);
      var r := out + emitted;
      forall j | 0 <= j < |r| && r[j] == '_'
        ensures 0 < j < |r| - 1 && (IsLower(r[j - 1]) || IsDigit(r[j - 1])) && (IsLower(r[j + 1]) || IsDigit(r[j + 1]))
      {
        if j >= |out| {
          assert emitted[j - |out|] == '_';
        }
      }
    }
  }

  // ---------------------------------------------------------------------------
  // Where underscores go
  // ---------------------------------------------------------------------------

  /** A `_` or `-` of the input is copied and clears the state, so the next character gets no `_` in front. */
  lemma NoBreakAfterSeparator(text: string, i: nat)
    requires i + 1 < |text| && (text[i] == '_' || text[i] == '-')
    ensures Emitted(text, i) == [text[i]]
    ensures |Emitted(text, i + 1)| <= 1
  {
  }

  /** Before the first letter or digit no `_` is inserted, and leading "other" characters vanish. */
  lemma {:induction false} NoLeadingBreak(text: string, i: nat)
    requires i <= |text|
    requires forall j :: 0 <= j < i ==> !IsLetter(text[j]) && !IsDigit(text[j]) && text[j] != '_' && text[j] != '-'
    ensures Run(text, i).0 == [] && Run(text, i).1 == None
    ensures i < |text| && (IsLetter(text[i]) || IsDigit(text[i])) ==> Emitted(text, i) == [ToLower(text[i])]
  {
    if i > 0 {
      NoLeadingBreak(text, i - 1);
    }
  }

  /** A lower-case letter followed by an upper-case one: `_` between them ("someValue" gives "some_value"). */
  lemma LowerThenUpperBreaks(text: string, i: nat)
    requires i + 1 < |text| && IsLower(text[i]) && IsUpper(text[i + 1])
    ensures Emitted(text, i + 1) == ['_', ToLower(text[i + 1])]
  {
  }

  /** A digit next to a letter, on either side, gets no `_` ("Test14Something" gives "test14something"). */
  lemma DigitJoinsLetters(text: string, i: nat)
    requires i + 1 < |text|
    requires (IsDigit(text[i]) && IsLetter(text[i + 1])) || (IsLetter(text[i]) && IsDigit(text[i + 1]))
    ensures Emitted(text, i + 1) == [ToLower(text[i + 1])]
  {
  }

  /** In a run of capitals, `_` goes before the last one only when a lower-case letter follows ("ABCDef" gives "abc_def"). */
  lemma AcronymBreaksBeforeLastCapital(text: string, i: nat)
    requires i + 1 < |text| && IsUpper(text[i]) && IsUpper(text[i + 1])
    ensures i + 2 < |text| && IsLower(text[i + 2]) ==> Emitted(text, i + 1) == ['_', ToLower(text[i + 1])]
    ensures !(i + 2 < |text| && IsLower(text[i + 2])) ==> Emitted(text, i + 1) == [ToLower(text[i + 1])]
  {
  }

  /** The state after a run of "other" characters that follows an emitted letter or digit. */
  lemma {:induction false} OtherRunLeavesSpace(text: string, i: nat, j: nat)
    requires i < j <= |text| && Run(text, i).1 != None
    requires forall m :: i <= m < j ==> !IsLetter(text[m]) && !IsDigit(text[m]) && text[m] != '_' && text[m] != '-'
    ensures Run(text, j).0 == Run(text, i).0 && Run(text, j).1 == Some(Space)
  {
    if j - 1 > i {
      OtherRunLeavesSpace(text, i, j - 1);
    }
  }

  /** A run of "other" characters between two words becomes exactly one `_` ("some value" gives "some_value"). */
  lemma OtherRunBecomesOneBreak(text: string, i: nat, j: nat)
    requires i < j < |text| && Run(text, i).1 != None
    requires forall m :: i <= m < j ==> !IsLetter(text[m]) && !IsDigit(text[m]) && text[m] != '_' && text[m] != '-'
    requires IsLetter(text[j]) || IsDigit(text[j])
    ensures Run(text, j).0 == Run(text, i).0
    ensures Emitted(text, j) == ['_', ToLower(text[j])]
  {
    OtherRunLeavesSpace(text, i, j);
  }

  /** Trailing "other" characters vanish. */
  lemma TrailingOthersVanish(text: string, i: nat)
    requires i < |text|
    requires forall m :: i <= m < |text| ==> !IsLetter(text[m]) && !IsDigit(text[m]) && text[m] != '_' && text[m] != '-'
    ensures SnakeCase(text) == Run(text, i).0
  {
    if Run(text, i).1 == None {
      NoneThroughOthers(text, i, |text|);
    } else {
      OtherRunLeavesSpace(text, i, |text|);
    }
  }

  lemma {:induction false} NoneThroughOthers(text: string, i: nat, j: nat)
    requires i <= j <= |text| && Run(text, i).1 == None
    requires forall m :: i <= m < j ==> !IsLetter(text[m]) && !IsDigit(text[m]) && text[m] != '_' && text[m] != '-'
    ensures Run(text, j).0 == Run(text, i).0 && Run(text, j).1 == None
  {
    if j > i {
      NoneThroughOthers(text, i, j - 1);
    }
  }

  // ---------------------------------------------------------------------------
  // The unit tests' cases
  // ---------------------------------------------------------------------------

  lemma OnePartCase()
    ensures SnakeCase("Test") == "test"
  {
    assert SnakeCase("Test") == Run("Test", 4).0;
  }

  /** The first two words of `MultiPartCase`. */
  lemma MultiPartPrefix()
    ensures Run("TestSomeValue", 8).0 == "test_some" && Run("TestSomeValue", 8).1 == Some(Lower)
  {
    assert Run("TestSomeValue", 4).0 == "test" && Run("TestSomeValue", 4).1 == Some(Lower);
  }

  lemma MultiPartCase()
    ensures SnakeCase("TestSomeValue") == "test_some_value"
  {
    MultiPartPrefix();
    assert Run("TestSomeValue", 11).0 == "test_some_val" && Run("TestSomeValue", 11).1 == Some(Lower);
    assert SnakeCase("TestSomeValue") == Run("TestSomeValue", 13).0;
  }

  lemma NumberAtEndCase()
    ensures SnakeCase("Test14") == "test14"
  {
    assert SnakeCase("Test14") == Run("Test14", 6).0;
  }

  /** The first half of `NumberInMiddleCase`: the digits keep the name in one word. */
  lemma NumberInMiddlePrefix()
    ensures Run("Test14Something", 8).0 == "test14so" && Run("Test14Something", 8).1 == Some(Lower)
  {
    assert Run("Test14Something", 4).0 == "test" && Run("Test14Something", 4).1 == Some(Lower);
  }

  lemma NumberInMiddleCase()
    ensures SnakeCase("Test14Something") == "test14something"
  {
    NumberInMiddlePrefix();
    assert Run("Test14Something", 12).0 == "test14someth" && Run("Test14Something", 12).1 == Some(Lower);
    assert SnakeCase("Test14Something") == Run("Test14Something", 15).0;
  }

  lemma AcronymCase()
    ensures SnakeCase("ABCDef") == "abc_def"
  {
    assert SnakeCase("ABCDef") == Run("ABCDef", 6).0;
  }

}
