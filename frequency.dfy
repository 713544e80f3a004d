/** Frequency grouping (`group_words_by_frequency`): the items of a density
    table bucketed by their raw count, with per bucket the number of words,
    the occurrences they account for and their summed density. */
module FrequencyGroups {
  import opened Chars
  import opened Seqs
  import opened KeywordDensity

  /** One item of the density table, in the table's iteration order. */
  datatype Item = Item(word: string, entry: Entry)

  /** What is reported for one frequency: how many words have it, how many
      tokens they make up together, and their summed density. */
  datatype Summary = Summary(wordCount: nat, totalWords: int, totalPercentage: real)

  /** The items of a table m listed by its keys ks: `dict.items()`. */
  function ItemsOf(ks: seq<string>, m: map<string, Entry>): (items: seq<Item>)
    requires forall k :: k in ks ==> k in m
    ensures |items| == |ks|
    ensures forall i :: 0 <= i < |ks| ==> items[i] == Item(ks[i], m[ks[i]])
  {
    if ks == [] then [] else ItemsOf(ks[..|ks| - 1], m) + [Item(ks[|ks| - 1], m[ks[|ks| - 1]])]
  }

  /** The counts of the items, in the same order. */
  function CountsOf(items: seq<Item>): (cs: seq<nat>)
    ensures |cs| == |items|
    ensures forall i :: 0 <= i < |items| ==> cs[i] == items[i].entry.count
  {
    if items == [] then [] else CountsOf(items[..|items| - 1]) + [items[|items| - 1].entry.count]
  }

  /** A count is among the counts of the items exactly when some item has it. */
  lemma CountAmongCounts(items: seq<Item>, c: nat)
    ensures c in CountsOf(items) <==> exists i :: 0 <= i < |items| && items[i].entry.count == c
  {
    var cs := CountsOf(items);
    if c in cs {
      var i :| 0 <= i < |cs| && cs[i] == c;
      assert items[i].entry.count == c;
    }
  }

  /** The items whose count is c, in order. */
  function Select(items: seq<Item>, c: nat): (s: seq<Item>)
    ensures |s| <= |items|
    ensures forall i :: 0 <= i < |s| ==> s[i].entry.count == c
  {
    if items == [] then []
    else
      var x := items[|items| - 1];
      Select(items[..|items| - 1], c) + (if x.entry.count == c then [x] else [])
  }

  /** The (word, density) pairs that a group holds. */
  function Members(s: seq<Item>): seq<(string, real)>
  {
    seq(|s|, i requires 0 <= i < |s| => (s[i].word, s[i].entry.density))
  }

  /** The group of count c: the (word, density) pairs of its items, in order. */
  function Bucket(items: seq<Item>, c: nat): seq<(string, real)>
  {
    Members(Select(items, c))
  }

  /** The distinct counts in the order in which the items first show them:
      the iteration order of the groups. */
  function GroupOrder(items: seq<Item>): seq<nat>
  {
    Distinct(CountsOf(items))
  }

  /** Sum of the densities held by a group. */
  function SumDensities(b: seq<(string, real)>): real
  {
    if b == [] then 0.0 else SumDensities(b[..|b| - 1]) + b[|b| - 1].1
  }

  /** The summary of the group of count c. */
  function Summarize(items: seq<Item>, c: nat): (r: Summary)
    ensures r.wordCount == |WithCount(items, c)|
    ensures r.totalWords == c * r.wordCount
  {
    SelectSize(items, c);
    var b := Bucket(items, c);
    Summary(|b|, c * |b|, SumDensities(b))
  }

  /** The group summaries of a density table, keyed by count. */
  function Summaries(items: seq<Item>): (r: map<nat, Summary>)
    ensures forall c :: c in r ==> r[c].wordCount >= 1
  {
    CountsHaveItems(items);
    map c | c in CountsOf(items) :: Summarize(items, c)
  }

  /** The groups after the first pass: each count that occurs, with the
      (word, density) pairs of its items. */
  function Groups(items: seq<Item>): map<nat, seq<(string, real)>>
  {
    map c | c in CountsOf(items) :: Bucket(items, c)
  }

  /** `group_words_by_frequency`: a first pass collects the words of each
      count, a second pass summarises each group. The total number of
      tokens is accepted and, as in the source, not used. */
  method GroupWordsByFrequency(items: seq<Item>, totalWords: nat)
      returns (groupOrder: seq<nat>, summaries: map<nat, Summary>)
    ensures groupOrder == GroupOrder(items)
    ensures summaries == Summaries(items)
  {
    var groups;
    groupOrder, groups := CollectGroups(items);
    summaries := SummarizeGroups(items, groupOrder, groups);
  }

  /** The first pass: the (word, density) pairs of each count, keyed in
      first-seen order. */
  method CollectGroups(items: seq<Item>) returns (groupOrder: seq<nat>, groups: map<nat, seq<(string, real)>>)
    ensures groupOrder == GroupOrder(items)
    ensures groups == Groups(items)
  {
    groups := map[];
    groupOrder := [];
    for i := 0 to |items|
      invariant groupOrder == GroupOrder(items[..i])
      invariant groups == Groups(items[..i])
    {
      PrefixStep(items, i);
      groupOrder, groups := AddToGroup(groupOrder, groups, items[i]);
    }
    assert items[..|items|] == items;
  }

  /** The first pass's state after one more item. */
  lemma PrefixStep(items: seq<Item>, i: nat)
    requires i < |items|
    ensures var g, c := Groups(items[..i]), items[i].entry.count;
      && GroupOrder(items[..i + 1]) == (if c in g then GroupOrder(items[..i]) else GroupOrder(items[..i]) + [c])
      && Groups(items[..i + 1]) == g[c := (if c in g then g[c] else []) + [(items[i].word, items[i].entry.density)]]
  {
    assert items[..i + 1] == items[..i] + [items[i]];
    GroupOrderSnoc(items[..i], items[i]);
    GroupsSnoc(items[..i], items[i]);
  }

  /** One step of the first pass: the group of the item's count is opened
      if it is new, and the item's (word, density) pair appended to it. */
  method AddToGroup(groupOrder: seq<nat>, groups: map<nat, seq<(string, real)>>, item: Item)
      returns (groupOrder': seq<nat>, groups': map<nat, seq<(string, real)>>)
    ensures var c := item.entry.count;
      && groupOrder' == (if c in groups then groupOrder else groupOrder + [c])
      && groups' == groups[c := (if c in groups then groups[c] else []) + [(item.word, item.entry.density)]]
  {
    groupOrder', groups' := groupOrder, groups;
    var count := item.entry.count;
    if count !in groups' {
      groups' := groups'[count := []];
      groupOrder' := groupOrder' + [count];
    }
    groups' := groups'[count := groups'[count] + [(item.word, item.entry.density)]];
  }

  /** The summaries of the groups cs. */
  function SummariesOf(items: seq<Item>, cs: seq<nat>): map<nat, Summary>
  {
    map c | c in cs :: Summarize(items, c)
  }

  /** The second pass: each group's word count, token total and summed
      density. */
  method SummarizeGroups(items: seq<Item>, groupOrder: seq<nat>, groups: map<nat, seq<(string, real)>>)
      returns (summaries: map<nat, Summary>)
    requires groupOrder == GroupOrder(items)
    requires groups == Groups(items)
    ensures summaries == Summaries(items)
  {
    summaries := map[];
    for j := 0 to |groupOrder|
      invariant summaries == SummariesOf(items, groupOrder[..j])
    {
      var count: nat := groupOrder[j];
      var words := groups[count];
      SummariesOfSnoc(items, groupOrder, j);
      summaries := summaries[count := Summary(|words|, count * |words|, SumDensities(words))];
    }
    assert groupOrder[..|groupOrder|] == groupOrder;
    SummariesInGroupOrder(items);
  }

  /** Summarising the groups in their order covers every count. */
  lemma SummariesInGroupOrder(items: seq<Item>)
    ensures SummariesOf(items, GroupOrder(items)) == Summaries(items)
  {
    assert forall c :: c in GroupOrder(items) <==> c in CountsOf(items);
  }

  lemma SummariesOfSnoc(items: seq<Item>, cs: seq<nat>, j: nat)
    requires j < |cs|
    ensures SummariesOf(items, cs[..j + 1]) == SummariesOf(items, cs[..j])[cs[j] := Summarize(items, cs[j])]
  {
    assert cs[..j + 1] == cs[..j] + [cs[j]];
  }

  /** A new item either shows a count already seen, or appends its count to
      the group order. */
  lemma GroupOrderSnoc(items: seq<Item>, x: Item)
    ensures GroupOrder(items + [x])
      == if x.entry.count in Groups(items) then GroupOrder(items) else GroupOrder(items) + [x.entry.count]
  {
    ItemCountsSnoc(items, x);
    assert (CountsOf(items) + [x.entry.count])[..|items|] == CountsOf(items);
  }

  /** A new item is appended to the group of its count, which it opens if
      the count is new; the other groups stay as they are. */
  lemma GroupsSnoc(items: seq<Item>, x: Item)
    ensures var g, c := Groups(items), x.entry.count;
      Groups(items + [x]) == g[c := (if c in g then g[c] else []) + [(x.word, x.entry.density)]]
  {
    var g, c := Groups(items), x.entry.count;
    var g' := g[c := (if c in g then g[c] else []) + [(x.word, x.entry.density)]];
    var h := Groups(items + [x]);
    assert h.Keys == g'.Keys by {
      ItemCountsSnoc(items, x);
    }
    forall d | d in g'
      ensures h[d] == g'[d]
    {
      GroupSnoc(items, x, d);
    }
  }

  lemma ItemCountsSnoc(items: seq<Item>, x: Item)
    ensures CountsOf(items + [x]) == CountsOf(items) + [x.entry.count]
  {
    assert (items + [x])[..|items|] == items;
  }

  lemma GroupSnoc(items: seq<Item>, x: Item, d: nat)
    requires d in Groups(items) || d == x.entry.count
    ensures d in Groups(items + [x])
    ensures Groups(items + [x])[d] == if d != x.entry.count then Groups(items)[d]
      else (if d in Groups(items) then Groups(items)[d] else []) + [(x.word, x.entry.density)]
  {
    ItemCountsSnoc(items, x);
    BucketSnoc(items, x, d);
    if d !in Groups(items) {
      BucketWithoutCount(items, d);
    }
  }

  lemma SelectSnoc(items: seq<Item>, x: Item, c: nat)
    ensures Select(items + [x], c) == Select(items, c) + (if x.entry.count == c then [x] else [])
  {
    assert (items + [x])[..|items|] == items;
  }

  lemma MembersSnoc(s: seq<Item>, x: Item)
    ensures Members(s + [x]) == Members(s) + [(x.word, x.entry.density)]
  {
  }

  /** A new item joins the group of its own count at the end, and no other. */
  lemma BucketSnoc(items: seq<Item>, x: Item, c: nat)
    ensures Bucket(items + [x], c)
      == Bucket(items, c) + (if x.entry.count == c then [(x.word, x.entry.density)] else [])
  {
    SelectSnoc(items, x, c);
    if x.entry.count == c {
      MembersSnoc(Select(items, c), x);
    }
  }

  /** A count that no item has has an empty group. */
  lemma {:induction false} BucketWithoutCount(items: seq<Item>, c: nat)
    requires c !in CountsOf(items)
    ensures Select(items, c) == [] && Bucket(items, c) == []
  {
    if items != [] {
      var init := items[..|items| - 1];
      assert CountsOf(items) == CountsOf(init) + [items[|items| - 1].entry.count];
      BucketWithoutCount(init, c);
    }
  }

  /** The groups are keyed by exactly the counts that occur in the table. */
  lemma GroupKeysAreCounts(items: seq<Item>)
    ensures forall c :: c in Summaries(items) <==> exists i :: 0 <= i < |items| && items[i].entry.count == c
  {
    forall c ensures c in Summaries(items) <==> exists i :: 0 <= i < |items| && items[i].entry.count == c {
      CountAmongCounts(items, c);
    }
  }

  /** The positions of the items with count c. */
  function WithCount(items: seq<Item>, c: nat): set<nat>
  {
    set i: nat | i < |items| && items[i].entry.count == c
  }

  /** A group holds one member per item of its count. */
  lemma {:induction false} SelectSize(items: seq<Item>, c: nat)
    ensures |Select(items, c)| == |WithCount(items, c)|
  {
    if items != [] {
      var n := |items| - 1;
      var init := items[..n];
      SelectSize(init, c);
      if items[n].entry.count == c {
        assert WithCount(items, c) == WithCount(init, c) + {n};
      } else {
        assert WithCount(items, c) == WithCount(init, c);
      }
    }
  }

  /** Every count that occurs is held by at least one item. */
  lemma CountsHaveItems(items: seq<Item>)
    ensures forall c :: c in CountsOf(items) ==> |WithCount(items, c)| >= 1
  {
    forall c | c in CountsOf(items) ensures |WithCount(items, c)| >= 1 {
      CountAmongCounts(items, c);
      var i :| 0 <= i < |items| && items[i].entry.count == c;
      assert i in WithCount(items, c);
    }
  }

  /** Sum of f over the entries of the items. */
  function Sum(items: seq<Item>, f: Entry -> real): real
  {
    if items == [] then 0.0 else Sum(items[..|items| - 1], f) + f(items[|items| - 1].entry)
  }

  /** Summing over the items of a table is summing over its keys. */
  lemma {:induction false} SumOfItems(ks: seq<string>, m: map<string, Entry>, f: Entry -> real)
    requires forall k :: k in ks ==> k in m
    ensures Sum(ItemsOf(ks, m), f) == Total(ks, m, f)
  {
    if ks != [] {
      var init := ks[..|ks| - 1];
      SumOfItems(init, m, f);
      assert ItemsOf(ks, m)[..|ks| - 1] == ItemsOf(init, m);
    }
  }

  /** Sum over the groups cs of their word counts. */
  function SumWordCounts(cs: seq<nat>, s: map<nat, Summary>): int
    requires forall c :: c in cs ==> c in s
  {
    if cs == [] then 0 else SumWordCounts(cs[..|cs| - 1], s) + s[cs[|cs| - 1]].wordCount
  }

  /** Sum over the groups cs of their token totals. */
  function SumTotalWords(cs: seq<nat>, s: map<nat, Summary>): int
    requires forall c :: c in cs ==> c in s
  {
    if cs == [] then 0 else SumTotalWords(cs[..|cs| - 1], s) + s[cs[|cs| - 1]].totalWords
  }

  /** Sum over the groups cs of their summed densities. */
  function SumPercentages(cs: seq<nat>, s: map<nat, Summary>): real
    requires forall c :: c in cs ==> c in s
  {
    if cs == [] then 0.0 else SumPercentages(cs[..|cs| - 1], s) + s[cs[|cs| - 1]].totalPercentage
  }

  /** Sum over the groups cs of f over each group's items. */
  function GroupedTotal(cs: seq<nat>, items: seq<Item>, f: Entry -> real): real
  {
    if cs == [] then 0.0 else GroupedTotal(cs[..|cs| - 1], items, f) + Sum(Select(items, cs[|cs| - 1]), f)
  }

  lemma SumSnoc(items: seq<Item>, x: Item, f: Entry -> real)
    ensures Sum(items + [x], f) == Sum(items, f) + f(x.entry)
  {
    assert (items + [x])[..|items|] == items;
  }

  /** A new item adds its value to the group of its count, if that group is
      among cs, and to no other. */
  lemma {:induction false} GroupedTotalSnoc(cs: seq<nat>, items: seq<Item>, x: Item, f: Entry -> real)
    requires NoDuplicates(cs)
    ensures GroupedTotal(cs, items + [x], f)
      == GroupedTotal(cs, items, f) + (if x.entry.count in cs then f(x.entry) else 0.0)
  {
    if cs != [] {
      var init, c := cs[..|cs| - 1], cs[|cs| - 1];
      assert cs == init + [c];
      assert NoDuplicates(init);
      GroupedTotalSnoc(init, items, x, f);
      SelectSnoc(items, x, c);
      if x.entry.count == c {
        SumSnoc(Select(items, c), x, f);
        assert c !in init;
      } else {
        assert Select(items + [x], c) == Select(items, c);
        assert x.entry.count in cs <==> x.entry.count in init;
      }
    }
  }

  /** Summing f group by group over all groups sums it over every item once. */
  lemma {:induction false} GroupedTotalIsTotal(items: seq<Item>, f: Entry -> real)
    ensures GroupedTotal(GroupOrder(items), items, f) == Sum(items, f)
  {
    if items != [] {
      var init, x := items[..|items| - 1], items[|items| - 1];
      assert items == init + [x];
      GroupedTotalIsTotal(init, f);
      var d := GroupOrder(init);
      var c := x.entry.count;
      assert CountsOf(items) == CountsOf(init) + [c];
      GroupedTotalSnoc(d, init, x, f);
      if c in d {
        assert GroupOrder(items) == d;
      } else {
        NewGroup(init, x, f);
      }
    }
  }

  /** An item whose count is new opens a group of its own at the end. */
  lemma NewGroup(init: seq<Item>, x: Item, f: Entry -> real)
    requires x.entry.count !in GroupOrder(init)
    ensures GroupOrder(init + [x]) == GroupOrder(init) + [x.entry.count]
    ensures GroupedTotal(GroupOrder(init + [x]), init + [x], f)
      == GroupedTotal(GroupOrder(init), init + [x], f) + f(x.entry)
  {
    var d, c := GroupOrder(init), x.entry.count;
    assert (init + [x])[..|init|] == init;
    assert CountsOf(init + [x]) == CountsOf(init) + [c];
    assert (d + [c])[..|d|] == d;
    BucketWithoutCount(init, c);
    SelectSnoc(init, x, c);
    assert Select(init + [x], c) == [x];
    SumSnoc([], x, f);
    assert [] + [x] == [x];
  }

  function One(e: Entry): real { 1.0 }

  lemma {:induction false} SumOfOnes(s: seq<Item>)
    ensures Sum(s, One) == |s| as real
  {
    if s != [] {
      SumOfOnes(s[..|s| - 1]);
    }
  }

  lemma {:induction false} SumOfEqualCounts(s: seq<Item>, c: nat)
    requires forall i :: 0 <= i < |s| ==> s[i].entry.count == c
    ensures Sum(s, CountOf) == (c * |s|) as real
  {
    if s != [] {
      SumOfEqualCounts(s[..|s| - 1], c);
    }
  }

  lemma {:induction false} SumDensitiesOfMembers(s: seq<Item>)
    ensures SumDensities(Members(s)) == Sum(s, DensityOf)
  {
    if s != [] {
      var init := s[..|s| - 1];
      SumDensitiesOfMembers(init);
      assert Members(s)[..|s| - 1] == Members(init);
    }
  }

  /** Summary sums along cs, for groups that exist, agree with the grouped
      totals of one per word, of the counts and of the densities. */
  lemma {:induction false} SummarySums(cs: seq<nat>, items: seq<Item>)
    requires forall c :: c in cs ==> c in CountsOf(items)
    ensures SumWordCounts(cs, Summaries(items)) as real == GroupedTotal(cs, items, One)
    ensures SumTotalWords(cs, Summaries(items)) as real == GroupedTotal(cs, items, CountOf)
    ensures SumPercentages(cs, Summaries(items)) == GroupedTotal(cs, items, DensityOf)
  {
    if cs != [] {
      var c := cs[|cs| - 1];
      SummarySums(cs[..|cs| - 1], items);
      SumOfOnes(Select(items, c));
      SumOfEqualCounts(Select(items, c), c);
      SumDensitiesOfMembers(Select(items, c));
    }
  }

  /** Over the groups of a text's density table, the word counts add up to
      the number of distinct words, the token totals to the number of
      tokens and, for a text with tokens, the densities to 100 percent. */
  lemma GroupTotalsOfText(text: string)
    ensures var ws := Tokens(Lower(text));
      var items := ItemsOf(Distinct(ws), DensityTable(ws));
      && SumWordCounts(GroupOrder(items), Summaries(items)) == |Distinct(ws)| == |set w | w in ws|
      && SumTotalWords(GroupOrder(items), Summaries(items)) == |ws|
      && (|ws| > 0 ==> SumPercentages(GroupOrder(items), Summaries(items)) == 100.0)
  {
    var ws := Tokens(Lower(text));
    var ks, m := Distinct(ws), DensityTable(ws);
    var items := ItemsOf(ks, m);
    SummarySums(GroupOrder(items), items);
    GroupedTotalIsTotal(items, One);
    GroupedTotalIsTotal(items, CountOf);
    GroupedTotalIsTotal(items, DensityOf);
    SumOfOnes(items);
    DistinctSize(ws);
    SumOfItems(ks, m, CountOf);
    SumOfItems(ks, m, DensityOf);
    CountsSumToTotal(text);
    if |ws| > 0 {
      SharesSumToHundred(ws);
    }
  }
}
