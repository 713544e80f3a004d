/** Keyword density (`get_keyword_density`): the word-character runs of the
    lower-cased text, how often each occurs, and each one's share of all
    runs in percent. Densities are exact rationals; the source's rounding to
    two decimals is not modelled. */
module KeywordDensity {
  import opened Chars
  import opened Seqs

  /** Length of the longest prefix of s made of word characters. */
  function RunLength(s: string): (n: nat)
    ensures n <= |s|
    ensures forall i :: 0 <= i < n ==> IsWordChar(s[i])
    ensures n == |s| || !IsWordChar(s[n])
  {
    if s == [] || !IsWordChar(s[0]) then 0 else 1 + RunLength(s[1..])
  }

  /** `re.findall(r'\w+', s)`: the maximal runs of word characters, left to right. */
  function Tokens(s: string): (ts: seq<string>)
    ensures |ts| <= |s|
    ensures forall i :: 0 <= i < |ts| ==> IsWord(ts[i])
    decreases |s|
  {
    if s == [] then []
    else if !IsWordChar(s[0]) then Tokens(s[1..])
    else
      var n := RunLength(s);
      [s[..n]] + Tokens(s[n..])
  }

  /** A non-empty string of word characters. */
  predicate IsWord(w: string)
  {
    |w| > 0 && forall i :: 0 <= i < |w| ==> IsWordChar(w[i])
  }

  /** w stands in s at position i as a whole run: it cannot be extended by
      a word character on either side. */
  predicate RunAt(s: string, i: int, w: string)
  {
    && 0 <= i && i + |w| <= |s|
    && s[i..i + |w|] == w
    && (i == 0 || !IsWordChar(s[i - 1]))
    && (i + |w| == |s| || !IsWordChar(s[i + |w|]))
  }

  predicate HasWordChar(s: string)
  {
    exists i :: 0 <= i < |s| && IsWordChar(s[i])
  }

  /** Every token is a word that stands in s as a whole run. */
  lemma {:induction false} TokensAreRuns(s: string)
    ensures forall w :: w in Tokens(s) ==> IsWord(w) && exists i :: RunAt(s, i, w)
    decreases |s|
  {
    if s == [] {
    } else if !IsWordChar(s[0]) {
      var t := s[1..];
      TokensAreRuns(t);
      forall w | w in Tokens(t) ensures exists i :: RunAt(s, i, w) {
        var i :| RunAt(t, i, w);
        assert s[i + 1..i + 1 + |w|] == t[i..i + |w|];
        assert RunAt(s, i + 1, w);
      }
    } else {
      var n := RunLength(s);
      var t := s[n..];
      TokensAreRuns(t);
      assert RunAt(s, 0, s[..n]);
      forall w | w in Tokens(t) ensures exists i :: RunAt(s, i, w) {
        var i :| RunAt(t, i, w);
        assert t[i..i + |w|] == w;
        assert w[0] == t[i];
        assert i > 0;
        assert s[n + i..n + i + |w|] == t[i..i + |w|];
        assert RunAt(s, n + i, w);
      }
    }
  }

  /** Every whole run of word characters in s is a token: `findall`
      misses none of them. */
  lemma {:induction false} RunsAreTokens(s: string, i: int, w: string)
    requires IsWord(w) && RunAt(s, i, w)
    ensures w in Tokens(s)
    decreases |s|
  {
    assert s[i] == w[0];
    if !IsWordChar(s[0]) {
      assert i > 0;
      var t := s[1..];
      assert t[i - 1..i - 1 + |w|] == s[i..i + |w|];
      assert RunAt(t, i - 1, w);
      RunsAreTokens(t, i - 1, w);
    } else {
      var n := RunLength(s);
      if i == 0 {
        forall k | 0 <= k < |w| ensures IsWordChar(s[k]) {
          assert s[k] == w[k];
        }
        assert n == |w|;
        assert Tokens(s)[0] == s[..n];
      } else {
        assert i > n;
        var t := s[n..];
        assert t[i - n..i - n + |w|] == s[i..i + |w|];
        assert i - n == 0 || t[i - n - 1] == s[i - 1];
        assert RunAt(t, i - n, w);
        RunsAreTokens(t, i - n, w);
        assert Tokens(s) == [s[..n]] + Tokens(t);
      }
    }
  }

  /** The number of positions of s that start a run: a word character at
      the start of s or after a non-word character. Counted one character
      at a time, independently of how the runs are cut out. */
  function RunStarts(s: string): nat
    decreases |s|
  {
    if s == [] then 0
    else if IsWordChar(s[0]) then 1 + RunStartsAfterWord(s[1..])
    else RunStarts(s[1..])
  }

  /** The same count for text that follows a word character, where a
      leading word character continues a run instead of starting one. */
  function RunStartsAfterWord(s: string): nat
    decreases |s|
  {
    if s == [] then 0
    else if IsWordChar(s[0]) then RunStartsAfterWord(s[1..])
    else RunStarts(s[1..])
  }

  /** After a word character, the rest of the current run starts nothing. */
  lemma {:induction false} SkipRun(s: string)
    ensures RunStartsAfterWord(s) == RunStarts(s[RunLength(s)..])
    decreases |s|
  {
    if s != [] && IsWordChar(s[0]) {
      SkipRun(s[1..]);
      assert s[1..][RunLength(s[1..])..] == s[RunLength(s)..];
    }
  }

  /** `findall` returns one token per run start: the number of tokens, the
      `total_words` of every density, is the number of runs in the text. */
  lemma {:induction false} TokenCount(s: string)
    ensures |Tokens(s)| == RunStarts(s)
    decreases |s|
  {
    if s != [] {
      if !IsWordChar(s[0]) {
        TokenCount(s[1..]);
      } else {
        var n := RunLength(s);
        TokenCount(s[n..]);
        SkipRun(s[1..]);
        assert s[1..][RunLength(s[1..])..] == s[n..];
      }
    }
  }

  /** A text has no tokens exactly when it has no word character. */
  lemma {:induction false} NoTokensIffNoWordChar(s: string)
    ensures Tokens(s) == [] <==> !HasWordChar(s)
    decreases |s|
  {
    if s != [] {
      if !IsWordChar(s[0]) {
        NoTokensIffNoWordChar(s[1..]);
        if HasWordChar(s) {
          var i :| 0 <= i < |s| && IsWordChar(s[i]);
          assert IsWordChar(s[1..][i - 1]);
        }
        if HasWordChar(s[1..]) {
          var i :| 0 <= i < |s| - 1 && IsWordChar(s[1..][i]);
          assert IsWordChar(s[i + 1]);
        }
      }
    }
  }

  /** Occurrence count and density of one distinct word. */
  datatype Entry = Entry(count: nat, density: real)

  /** Share of count in total, in percent. */
  function Density(count: int, total: nat): real
    requires total > 0
  {
    (count as real / total as real) * 100.0
  }

  /** A word occurring at least once takes a positive share of at most
      100 percent. */
  lemma DensityBounds(total: nat)
    ensures forall c :: 1 <= c <= total ==> 0.0 < Density(c, total) <= 100.0
  {
    forall c | 1 <= c <= total ensures 0.0 < Density(c, total) <= 100.0 {
      assert c as real / total as real <= 1.0;
    }
  }

  /** The density table of a token list: every distinct token with its
      number of occurrences and its share of the tokens. */
  function DensityTable(ws: seq<string>): (m: map<string, Entry>)
    ensures forall w :: w in m ==> 1 <= m[w].count <= |ws| && 0.0 < m[w].density <= 100.0
  {
    DensityBounds(|ws|);
    map w | w in ws :: Entry(Occurrences(ws, w), Density(Occurrences(ws, w), |ws|))
  }

  /** What a `collections.Counter` of ws holds: each word with its number
      of occurrences. */
  function Counts(ws: seq<string>): (m: map<string, nat>)
    ensures forall w :: w in m ==> 1 <= m[w] <= |ws|
  {
    map w | w in ws :: Occurrences(ws, w)
  }

  /** `collections.Counter`: the distinct words in first-occurrence order
      and the number of occurrences of each. */
  method CountWords(ws: seq<string>) returns (order: seq<string>, counts: map<string, nat>)
    ensures order == Distinct(ws)
    ensures counts == Counts(ws)
  {
    order, counts := [], map[];
    assert ws[..0] == [];
    for i := 0 to |ws|
      invariant order == Distinct(ws[..i])
      invariant counts == Counts(ws[..i])
    {
      order, counts := Tally(ws, i, order, counts);
    }
    assert ws[..|ws|] == ws;
  }

  /** One step of the counter over the prefix ws[..i]: the word ws[i] is
      counted once more, and appended to the order when it is new. */
  method Tally(ws: seq<string>, i: nat, order: seq<string>, counts: map<string, nat>)
    returns (order': seq<string>, counts': map<string, nat>)
    requires i < |ws|
    requires order == Distinct(ws[..i]) && counts == Counts(ws[..i])
    ensures order' == Distinct(ws[..i + 1]) && counts' == Counts(ws[..i + 1])
  {
    CountStep(ws, i);
    var w := ws[i];
    if w in counts {
      order', counts' := order, counts[w := counts[w] + 1];
    } else {
      order', counts' := order + [w], counts[w := 1];
    }
  }

  /** One more word: it is counted once more, and appended to the order if
      it is new. */
  lemma CountStep(ws: seq<string>, i: nat)
    requires i < |ws|
    ensures var c, w := Counts(ws[..i]), ws[i];
      if w in c then
        Distinct(ws[..i + 1]) == Distinct(ws[..i]) && Counts(ws[..i + 1]) == c[w := c[w] + 1]
      else
        Distinct(ws[..i + 1]) == Distinct(ws[..i]) + [w] && Counts(ws[..i + 1]) == c[w := 1]
  {
    var prefix, w := ws[..i], ws[i];
    assert ws[..i + 1] == prefix + [w];
    DistinctSnoc(prefix, w);
    CountsSnoc(prefix, w);
  }

  lemma DistinctSnoc(prefix: seq<string>, w: string)
    ensures Distinct(prefix + [w]) == (if w in Counts(prefix) then Distinct(prefix) else Distinct(prefix) + [w])
  {
    assert (prefix + [w])[..|prefix|] == prefix;
  }

  lemma CountsSnoc(prefix: seq<string>, w: string)
    ensures var c := Counts(prefix);
      Counts(prefix + [w]) == c[w := (if w in c then c[w] else 0) + 1]
  {
    forall x ensures Occurrences(prefix + [w], x) == Occurrences(prefix, x) + (if w == x then 1 else 0) {
      OccurrencesSnoc(prefix, w, x);
    }
  }

  /** `get_keyword_density`: the tokens of the lower-cased text, counted,
      with their densities, and the total number of tokens. The keys come
      out in the order in which the words first occur. */
  method GetKeywordDensity(text: string) returns (order: seq<string>, density: map<string, Entry>, total: nat)
    ensures total == |Tokens(Lower(text))| == RunStarts(Lower(text))
    ensures order == Distinct(Tokens(Lower(text)))
    ensures density == DensityTable(Tokens(Lower(text)))
  {
    var words := Tokens(Lower(text));
    var counts;
    order, counts := CountWords(words);
    total := |words|;
    density := Tabulate(words, order, counts);
    TokenCount(Lower(text));
  }

  /** The second loop of `get_keyword_density`: one entry per distinct
      word, in the order of the counter. */
  method Tabulate(words: seq<string>, order: seq<string>, counts: map<string, nat>) returns (density: map<string, Entry>)
    requires order == Distinct(words) && counts == Counts(words)
    ensures density == DensityTable(words)
  {
    ghost var table := DensityTable(words);
    density := map[];
    for i := 0 to |order|
      invariant forall j :: 0 <= j < i ==> order[j] in density
      invariant forall w :: w in density ==> w in table && density[w] == table[w]
    {
      density := Record(words, counts, order[i], density);
    }
  }

  /** The loop body of `get_keyword_density`: the entry of w, its count
      and its density, is added to the table. */
  method Record(words: seq<string>, counts: map<string, nat>, w: string, density: map<string, Entry>)
    returns (density': map<string, Entry>)
    requires counts == Counts(words) && w in words
    ensures density' == density[w := DensityTable(words)[w]]
  {
    density' := density[w := Entry(counts[w], Density(counts[w], |words|))];
  }

  /** Sum of f over the entries of the keys ks. */
  function Total(ks: seq<string>, m: map<string, Entry>, f: Entry -> real): real
    requires forall k :: k in ks ==> k in m
  {
    if ks == [] then 0.0 else Total(ks[..|ks| - 1], m, f) + f(m[ks[|ks| - 1]])
  }

  function CountOf(e: Entry): real { e.count as real }

  function DensityOf(e: Entry): real { e.density }

  /** Sum over the distinct words ks of their occurrences in ws. */
  function SumOccurrences(ks: seq<string>, ws: seq<string>): nat
  {
    if ks == [] then 0 else SumOccurrences(ks[..|ks| - 1], ws) + Occurrences(ws, ks[|ks| - 1])
  }

  /** Appending x to ws adds one occurrence to the sum exactly when x is
      among the distinct words ks. */
  lemma {:induction false} SumOccurrencesSnoc(ks: seq<string>, ws: seq<string>, x: string)
    requires NoDuplicates(ks)
    ensures SumOccurrences(ks, ws + [x]) == SumOccurrences(ks, ws) + (if x in ks then 1 else 0)
  {
    assert (ws + [x])[..|ws|] == ws;
    if ks != [] {
      var init := ks[..|ks| - 1];
      assert ks == init + [ks[|ks| - 1]];
      SumOccurrencesSnoc(init, ws, x);
    }
  }

  /** Counting each distinct word's occurrences accounts for every token once. */
  lemma {:induction false} OccurrencesSumToLength(ws: seq<string>)
    ensures SumOccurrences(Distinct(ws), ws) == |ws|
  {
    if ws != [] {
      var init := ws[..|ws| - 1];
      var x := ws[|ws| - 1];
      assert ws == init + [x];
      OccurrencesSumToLength(init);
      var d := Distinct(init);
      SumOccurrencesSnoc(d, init, x);
      if x !in init {
        assert Distinct(ws) == d + [x];
        assert (d + [x])[..|d|] == d;
        assert Occurrences(ws, x) == 1;
      }
    }
  }

  lemma {:induction false} TotalCountsIsSumOccurrences(ks: seq<string>, ws: seq<string>)
    requires forall k :: k in ks ==> k in ws
    ensures Total(ks, DensityTable(ws), CountOf) == SumOccurrences(ks, ws) as real
  {
    if ks != [] {
      TotalCountsIsSumOccurrences(ks[..|ks| - 1], ws);
    }
  }

  /** The counts of the table sum to the total number of tokens. */
  lemma CountsSumToTotal(text: string)
    ensures var ws := Tokens(Lower(text));
      Total(Distinct(ws), DensityTable(ws), CountOf) == |ws| as real
  {
    var ws := Tokens(Lower(text));
    TotalCountsIsSumOccurrences(Distinct(ws), ws);
    OccurrencesSumToLength(ws);
  }

  /** Every density is its count's share of total: the densities of the
      keys ks add up to the share of their summed counts. */
  lemma {:induction false} TotalDensityIsShare(ks: seq<string>, m: map<string, Entry>, total: nat)
    requires total > 0
    requires forall k :: k in ks ==> k in m && m[k].density == Density(m[k].count, total)
    ensures Total(ks, m, DensityOf) == (Total(ks, m, CountOf) / total as real) * 100.0
  {
    if ks != [] {
      var init := ks[..|ks| - 1];
      TotalDensityIsShare(init, m, total);
      SharesAdd(Total(init, m, CountOf), m[ks[|ks| - 1]].count as real, total);
    }
  }

  /** The densities of a non-empty token list add up to exactly 100 percent. */
  lemma SharesSumToHundred(ws: seq<string>)
    requires |ws| > 0
    ensures Total(Distinct(ws), DensityTable(ws), DensityOf) == 100.0
  {
    var ks, m := Distinct(ws), DensityTable(ws);
    TotalCountsIsSumOccurrences(ks, ws);
    OccurrencesSumToLength(ws);
    DensityTableIsShares(ws);
    TotalDensityIsShare(ks, m, |ws|);
    DivideBySelf(|ws| as real);
  }

  /** Shares of one total add up like the counts they are shares of. */
  lemma SharesAdd(a: real, b: real, total: nat)
    requires total > 0
    ensures (a / total as real) * 100.0 + (b / total as real) * 100.0 == ((a + b) / total as real) * 100.0
  {
    assert a / total as real + b / total as real == (a + b) / total as real;
  }

  lemma DivideBySelf(x: real)
    requires x > 0.0
    ensures x / x == 1.0
  {
  }

  /** Over a text with a word character the densities add up to exactly
      100 percent. */
  lemma DensitiesSumToHundred(text: string)
    requires HasWordChar(text)
    ensures var ws := Tokens(Lower(text));
      |ws| > 0 && Total(Distinct(ws), DensityTable(ws), DensityOf) == 100.0
  {
    LowerKeepsWordChars(text);
    NoTokensIffNoWordChar(Lower(text));
    SharesSumToHundred(Tokens(Lower(text)));
  }

  lemma DensityTableIsShares(ws: seq<string>)
    requires |ws| > 0
    ensures forall k :: k in Distinct(ws) ==>
      k in DensityTable(ws) && DensityTable(ws)[k].density == Density(DensityTable(ws)[k].count, |ws|)
  {
  }

  lemma LowerKeepsWordChars(text: string)
    ensures HasWordChar(Lower(text)) <==> HasWordChar(text)
  {
    if HasWordChar(text) {
      var i :| 0 <= i < |text| && IsWordChar(text[i]);
      assert IsWordChar(Lower(text)[i]);
    }
  }

  /** Every key of the table is a non-empty lower-case word that stands in
      the lower-cased text as a whole run of word characters. */
  lemma KeysAreLowerCaseRuns(text: string)
    ensures forall w :: w in DensityTable(Tokens(Lower(text))) ==>
      IsWord(w) && IsLowerCase(w) && exists i :: RunAt(Lower(text), i, w)
  {
    var s := Lower(text);
    TokensAreRuns(s);
    LowerIsLowerCase(text);
    forall w | w in Tokens(s) ensures IsLowerCase(w) {
      var i :| RunAt(s, i, w);
      assert forall j :: 0 <= j < |w| ==> w[j] == s[i + j];
    }
  }

  /** Every whole run of word characters in the lower-cased text is a key
      of the table. */
  lemma RunsAreKeys(text: string, i: int, w: string)
    requires IsWord(w) && RunAt(Lower(text), i, w)
    ensures w in DensityTable(Tokens(Lower(text)))
  {
    RunsAreTokens(Lower(text), i, w);
  }

  /** Text without word characters gives no entries and a total of 0, so
      no density is ever divided by zero. */
  lemma EmptyTextHasNoEntries(text: string)
    requires !HasWordChar(text)
    ensures Tokens(Lower(text)) == [] && DensityTable(Tokens(Lower(text))) == map[]
  {
    LowerKeepsWordChars(text);
    NoTokensIffNoWordChar(Lower(text));
  }

  /** A word followed by a non-word character (or nothing) is one whole run. */
  lemma {:induction false} RunLengthOfWord(w: string, rest: string)
    requires IsWord(w) && (rest == [] || !IsWordChar(rest[0]))
    ensures RunLength(w + rest) == |w|
    decreases |w|
  {
    if |w| > 1 {
      assert (w + rest)[1..] == w[1..] + rest;
      RunLengthOfWord(w[1..], rest);
    }
  }

  /** A word, a space and more text: the word is the first token. */
  lemma TokensOfWordThenSpace(w: string, rest: string)
    requires IsWord(w)
    ensures Tokens(w + " " + rest) == [w] + Tokens(rest)
  {
    var s := w + " " + rest;
    assert s == w + (" " + rest);
    RunLengthOfWord(w, " " + rest);
    assert s[..|w|] == w;
    assert s[|w|..] == " " + rest;
    assert (" " + rest)[1..] == rest;
  }

  /** Words joined by single spaces. */
  function Spaced(ws: seq<string>): string
  {
    if |ws| == 0 then "" else if |ws| == 1 then ws[0] else ws[0] + " " + Spaced(ws[1..])
  }

  /** Tokenizing words joined by single spaces gives the words back. */
  lemma {:induction false} TokensOfSpaced(ws: seq<string>)
    requires forall w :: w in ws ==> IsWord(w)
    ensures Tokens(Spaced(ws)) == ws
  {
    if |ws| == 1 {
      RunLengthOfWord(ws[0], []);
      assert ws[0] + [] == ws[0];
    } else if |ws| > 1 {
      TokensOfSpaced(ws[1..]);
      TokensOfWordThenSpace(ws[0], Spaced(ws[1..]));
    }
  }

  /** Joining two non-empty runs of words joins their spaced texts with a
      space. */
  lemma {:induction false} SpacedAppend(a: seq<string>, b: seq<string>)
    requires |a| > 0 && |b| > 0
    ensures Spaced(a + b) == Spaced(a) + " " + Spaced(b)
  {
    if |a| == 1 {
      assert (a + b)[1..] == b;
    } else {
      assert (a + b)[1..] == a[1..] + b;
      SpacedAppend(a[1..], b);
    }
  }

  /** The sample sentence splits into its six words. */
  lemma SampleSentenceTokens()
    ensures Tokens(Lower("the cat sat on the mat")) == ["the", "cat", "sat", "on", "the", "mat"]
  {
    var ws := ["the", "cat", "sat", "on", "the", "mat"];
    SampleSpaced();
    assert forall w :: w in ws ==> IsWord(w);
    TokensOfSpaced(ws);
    SampleSentenceIsLowerCase();
  }

  lemma SampleSpaced()
    ensures Spaced(["the", "cat", "sat", "on", "the", "mat"]) == "the cat sat on the mat"
  {
    SampleHead();
    SampleTail();
    SpacedAppend(["the", "cat", "sat"], ["on", "the", "mat"]);
    assert ["the", "cat", "sat"] + ["on", "the", "mat"] == ["the", "cat", "sat", "on", "the", "mat"];
    assert "the cat sat" + " " + "on the mat" == "the cat sat on the mat";
  }

  lemma SampleHead()
    ensures Spaced(["the", "cat", "sat"]) == "the cat sat"
  {
    assert Spaced(["cat", "sat"]) == "cat sat";
  }

  lemma SampleTail()
    ensures Spaced(["on", "the", "mat"]) == "on the mat"
  {
    assert Spaced(["the", "mat"]) == "the mat";
  }

  lemma SampleSentenceIsLowerCase()
    ensures Lower("the cat sat on the mat") == "the cat sat on the mat"
  {
    var ws := ["the", "cat", "sat", "on", "the", "mat"];
    SampleSpaced();
    SpacedIsLowerCase(ws);
    LowerIsLowerCase(Spaced(ws));
  }

  /** Words in lower case joined by spaces give lower-case text. */
  lemma {:induction false} SpacedIsLowerCase(ws: seq<string>)
    requires forall w :: w in ws ==> IsLowerCase(w)
    ensures IsLowerCase(Spaced(ws))
  {
    if |ws| > 1 {
      SpacedIsLowerCase(ws[1..]);
      assert ws[0] in ws;
    }
  }

  /** Occurrence counts in the sample sentence's tokens. */
  lemma SampleOccurrences(x: string)
    ensures Occurrences(["the", "cat", "sat", "on", "the", "mat"], x)
      == (if x == "the" then 2 else 0) + (if x == "cat" then 1 else 0) + (if x == "sat" then 1 else 0)
       + (if x == "on" then 1 else 0) + (if x == "mat" then 1 else 0)
  {
    OccurrencesSnoc([], "the", x);
    assert [] + ["the"] == ["the"];
    OccurrencesSnoc(["the"], "cat", x);
    assert ["the"] + ["cat"] == ["the", "cat"];
    OccurrencesSnoc(["the", "cat"], "sat", x);
    assert ["the", "cat"] + ["sat"] == ["the", "cat", "sat"];
    OccurrencesSnoc(["the", "cat", "sat"], "on", x);
    assert ["the", "cat", "sat"] + ["on"] == ["the", "cat", "sat", "on"];
    OccurrencesSnoc(["the", "cat", "sat", "on"], "the", x);
    assert ["the", "cat", "sat", "on"] + ["the"] == ["the", "cat", "sat", "on", "the"];
    OccurrencesSnoc(["the", "cat", "sat", "on", "the"], "mat", x);
    assert ["the", "cat", "sat", "on", "the"] + ["mat"] == ["the", "cat", "sat", "on", "the", "mat"];
  }

  /** The density table of the sample sentence's tokens. */
  lemma SampleTable(ws: seq<string>)
    requires ws == ["the", "cat", "sat", "on", "the", "mat"]
    ensures DensityTable(ws).Keys == {"the", "cat", "sat", "on", "mat"}
    ensures DensityTable(ws)["the"] == Entry(2, 100.0 / 3.0)
    ensures DensityTable(ws)["cat"] == Entry(1, 50.0 / 3.0)
    ensures DensityTable(ws)["sat"] == Entry(1, 50.0 / 3.0)
    ensures DensityTable(ws)["on"] == Entry(1, 50.0 / 3.0)
    ensures DensityTable(ws)["mat"] == Entry(1, 50.0 / 3.0)
  {
    assert "the" != "cat" && "the" != "sat" && "the" != "on" && "the" != "mat";
    assert "cat" != "sat" && "cat" != "on" && "cat" != "mat" && "sat" != "on" && "sat" != "mat" && "on" != "mat";
    SampleOccurrences("the");
    SampleOccurrences("cat");
    SampleOccurrences("sat");
    SampleOccurrences("on");
    SampleOccurrences("mat");
  }

  /** The worked example "the cat sat on the mat": six tokens, "the"
      twice (a third of them), each other word once (a sixth). */
  lemma SampleSentenceDensity()
    ensures var ws := Tokens(Lower("the cat sat on the mat"));
      && |ws| == 6
      && DensityTable(ws).Keys == {"the", "cat", "sat", "on", "mat"}
      && DensityTable(ws)["the"] == Entry(2, 100.0 / 3.0)
      && DensityTable(ws)["cat"] == Entry(1, 50.0 / 3.0)
      && DensityTable(ws)["sat"] == Entry(1, 50.0 / 3.0)
      && DensityTable(ws)["on"] == Entry(1, 50.0 / 3.0)
      && DensityTable(ws)["mat"] == Entry(1, 50.0 / 3.0)
  {
    SampleSentenceTokens();
    SampleTable(Tokens(Lower("the cat sat on the mat")));
  }
}
