/** The syllable estimator `count_syllables`: vowel-cluster onsets with a
    correction for a silent final `e` and for a final `le`. */
module SyllableEstimator {
  import opened Chars

  predicate IsVowel(c: char) { c in "aeiouy" }

  predicate EndsWith(s: string, suffix: string)
  {
    |suffix| <= |s| && s[|s| - |suffix|..] == suffix
  }

  /** Position i of w starts a vowel cluster: a vowel at the start of the
      word or right after a non-vowel. */
  predicate IsOnset(w: string, i: nat)
    requires i < |w|
  {
    IsVowel(w[i]) && (i == 0 || !IsVowel(w[i - 1]))
  }

  /** Number of vowel-cluster onsets in w. A word whose last letter is a
      vowel has at least one. */
  function Onsets(w: string): (n: nat)
    ensures n <= |w|
    ensures |w| > 0 && IsVowel(w[|w| - 1]) ==> n >= 1
  {
    if w == [] then 0
    else Onsets(w[..|w| - 1]) + (if IsOnset(w, |w| - 1) then 1 else 0)
  }

  /** The syllable estimate of a non-empty word: onsets of the lower-cased
      word, one less for a final `e`, one more back for a final `le`, and
      1 when that comes to 0. It never goes below 1 nor above the length
      of the word. */
  function Syllables(word: string): (n: int)
    requires |word| > 0
    ensures 1 <= n <= |word|
  {
    var w := Lower(word);
    var count := Onsets(w) - (if EndsWith(w, "e") then 1 else 0) + (if EndsWith(w, "le") then 1 else 0);
    assert EndsWith(w, "le") ==> IsOnset(w, |w| - 1);
    if count == 0 then 1 else count
  }

  /** `count_syllables`: the loop over the positions of the lower-cased word. */
  method CountSyllables(word: string) returns (count: int)
    requires |word| > 0
    ensures count == Syllables(word)
  {
    var w := Lower(word);
    count := 0;
    if IsVowel(w[0]) {
      count := count + 1;
    }
    assert w[..1] == [w[0]];
    for index := 1 to |w|
      invariant count == Onsets(w[..index])
    {
      assert w[..index + 1][..index] == w[..index];
      if IsVowel(w[index]) && !IsVowel(w[index - 1]) {
        count := count + 1;
      }
    }
    assert w[..|w|] == w;
    if EndsWith(w, "e") {
      count := count - 1;
    }
    if EndsWith(w, "le") {
      count := count + 1;
    }
    if count == 0 {
      count := count + 1;
    }
  }

  /** The estimate depends on the letters only, not on their case. */
  lemma SyllablesIgnoreCase(a: string, b: string)
    requires |a| > 0 && Lower(a) == Lower(b)
    ensures Syllables(a) == Syllables(b)
  {
  }

  /** A single onset: "cat" has one syllable. */
  lemma SyllablesOfCat()
    ensures Syllables("cat") == 1
  {
    LowerIsLowerCase("cat");
    assert "cat"[..2] == "ca" && "ca"[..1] == "c";
    assert Onsets("cat") == 1;
    assert !EndsWith("cat", "e");
  }

  /** A silent final `e` takes the only onset away and the floor puts it back. */
  lemma SyllablesOfThe()
    ensures Syllables("the") == 1
  {
    LowerIsLowerCase("the");
    assert "the"[..2] == "th" && "th"[..1] == "t";
    assert Onsets("the") == 1;
    assert EndsWith("the", "e") && !EndsWith("the", "le");
  }

  /** A final `le` gives back the syllable the final `e` took. */
  lemma SyllablesOfAble()
    ensures Syllables("able") == 2
  {
    LowerIsLowerCase("able");
    assert "able"[..3] == "abl" && "abl"[..2] == "ab" && "ab"[..1] == "a";
    assert Onsets("able") == 2;
    assert EndsWith("able", "e") && EndsWith("able", "le");
  }

  /** Case does not matter: "SYLLABLE" is folded before counting, and has three. */
  lemma SyllablesOfSyllable()
    ensures Syllables("SYLLABLE") == 3
  {
    var w := "syllable";
    assert Lower("SYLLABLE") == w;
    OnsetsOfSyllable();
    assert EndsWith(w, "e") && EndsWith(w, "le");
  }

  lemma OnsetsOfSyllable()
    ensures Onsets("syllable") == 3
  {
    assert "syll"[..3] == "syl" && "syl"[..2] == "sy" && "sy"[..1] == "s";
    assert Onsets("syll") == 1;
    assert "syllable"[..7] == "syllabl" && "syllabl"[..6] == "syllab" && "syllab"[..5] == "sylla" && "sylla"[..4] == "syll";
  }
}
