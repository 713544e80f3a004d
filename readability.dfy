/** `analyze_text`: sentence count, paragraph estimate, average sentence
    length and the Flesch-Kincaid grade. The sentence segmentation and the
    word tokens come from the spaCy model, which is not part of this model:
    they are the inputs `sentenceCount` and `words`. */
module Readability {
  import opened SyllableEstimator

  /** `text.count('\n\n')`: occurrences of two newlines in a row, counted
      from the left without overlap. */
  function DoubleNewlines(text: string): (n: nat)
    ensures 2 * n <= |text|
    decreases |text|
  {
    if |text| < 2 then 0
    else if text[0] == '\n' && text[1] == '\n' then 1 + DoubleNewlines(text[2..])
    else DoubleNewlines(text[1..])
  }

  predicate HasDoubleNewline(text: string)
  {
    exists i :: 0 <= i < |text| - 1 && text[i] == '\n' && text[i + 1] == '\n'
  }

  /** The count is zero exactly when no two newlines are adjacent. */
  lemma {:induction false} DoubleNewlinesZero(text: string)
    ensures DoubleNewlines(text) == 0 <==> !HasDoubleNewline(text)
    decreases |text|
  {
    if |text| >= 2 {
      if text[0] == '\n' && text[1] == '\n' {
      } else {
        DoubleNewlinesZero(text[1..]);
        if HasDoubleNewline(text) {
          var i :| 0 <= i < |text| - 1 && text[i] == '\n' && text[i + 1] == '\n';
          assert text[1..][i - 1] == '\n' && text[1..][i] == '\n';
        }
        if HasDoubleNewline(text[1..]) {
          var i :| 0 <= i < |text[1..]| - 1 && text[1..][i] == '\n' && text[1..][i + 1] == '\n';
          assert text[i + 1] == '\n' && text[i + 2] == '\n';
        }
      }
    }
  }

  /** k newlines in a row.  */
  function Newlines(k: nat): (s: string)
    ensures |s| == k && forall i :: 0 <= i < k ==> s[i] == '\n'
  {
    seq(k, i => '\n')
  }

  /** Occurrences do not overlap: a run of k newlines holds k / 2 of them. */
  lemma {:induction false} DoubleNewlinesOfRun(k: nat)
    ensures DoubleNewlines(Newlines(k)) == k / 2
  {
    if k >= 2 {
      DoubleNewlinesOfRun(k - 2);
      assert Newlines(k)[2..] == Newlines(k - 2);
    }
  }

  /** The paragraph estimate: one more than the number of blank lines. */
  function ParagraphCount(text: string): (n: nat)
    ensures n >= 1
    ensures n == 1 <==> !HasDoubleNewline(text)
  {
    DoubleNewlinesZero(text);
    DoubleNewlines(text) + 1
  }

  /** `sum(count_syllables(word) for word in words)`. Every word holds at
      least one syllable and at most one per character. */
  function TotalSyllables(words: seq<string>): (n: int)
    requires forall i :: 0 <= i < |words| ==> |words[i]| > 0
    ensures |words| <= n <= TotalLength(words)
  {
    if words == [] then 0
    else TotalSyllables(words[..|words| - 1]) + Syllables(words[|words| - 1])
  }

  /** Number of characters of all words together. */
  function TotalLength(words: seq<string>): nat
  {
    if words == [] then 0 else TotalLength(words[..|words| - 1]) + |words[|words| - 1]|
  }

  datatype Analysis = Analysis(sentenceCount: nat, paragraphCount: nat, averageSentenceLength: real, grade: real)

  /** `analyze_text` without `round`: the average sentence length is 0
      without sentences, and the grade is
      0.39 * words/sentences + 11.8 * syllables/words - 15.59
      when there are both words and sentences, and 0 otherwise. */
  function AnalyzeText(text: string, sentenceCount: nat, words: seq<string>): (a: Analysis)
    requires forall i :: 0 <= i < |words| ==> |words[i]| > 0
    ensures a.sentenceCount == sentenceCount
    ensures a.paragraphCount == DoubleNewlines(text) + 1 >= 1
    ensures sentenceCount == 0 ==> a.averageSentenceLength == 0.0
    ensures sentenceCount > 0 ==> a.averageSentenceLength * sentenceCount as real == |words| as real
    ensures |words| == 0 || sentenceCount == 0 ==> a.grade == 0.0
  {
    var average := if sentenceCount > 0 then |words| as real / sentenceCount as real else 0.0;
    var syllables := TotalSyllables(words);
    var grade :=
      if |words| > 0 && sentenceCount > 0 then
        0.39 * (|words| as real / sentenceCount as real) + 11.8 * (syllables as real / |words| as real) - 15.59
      else 0.0;
    Analysis(sentenceCount, ParagraphCount(text), average, grade)
  }

  /** At least one syllable per word puts the grade no lower than
      11.8 - 15.59 above the sentence-length term. */
  lemma GradeLowerBound(text: string, sentenceCount: nat, words: seq<string>)
    requires forall i :: 0 <= i < |words| ==> |words[i]| > 0
    requires |words| > 0 && sentenceCount > 0
    ensures var a := AnalyzeText(text, sentenceCount, words);
      a.grade >= 0.39 * a.averageSentenceLength - 3.79
  {
    var syllables := TotalSyllables(words) as real;
    var n := |words| as real;
    AtLeastOne(syllables, n);
  }

  lemma AtLeastOne(a: real, b: real)
    requires 0.0 < b <= a
    ensures a / b >= 1.0
  {
  }

  /** "the" and "cat" hold one syllable each. */
  lemma TotalSyllablesOfSample()
    ensures TotalSyllables(["the", "cat"]) == 2
  {
    SyllablesOfThe();
    SyllablesOfCat();
    assert ["the", "cat"][..1] == ["the"] && ["the"][..0] == [];
  }

  /** A single short sentence: "the cat" has two one-syllable words, so
      the grade is 0.39 * 2 + 11.8 - 15.59. */
  lemma GradeExample()
    ensures AnalyzeText("the cat", 1, ["the", "cat"]).grade == -3.01
  {
    TotalSyllablesOfSample();
    assert 0.39 * (2.0 / 1.0) + 11.8 * (2.0 / 2.0) - 15.59 == -3.01;
  }
}
