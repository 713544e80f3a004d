# text-analytics: a verified model of the analysis pipeline

This project models the analysis pipeline of `main.py` in Dafny. The pipeline
turns subtitle text into reading statistics, keyword densities and a list of
words not seen before. The model has six parts, one module each:

- `TextCleaner` (`cleaner.dfy`) models `clean_text`. Each unanchored `re.sub` is
  one left-to-right scanner, `Erase`, over a `Pattern` datatype with the cases
  timestamp, italic tag, any tag and digit run. The two rewrites anchored with
  `^`/`$` under `re.MULTILINE` act on the lines of the text. Then comes
  `str.strip`.
- `SyllableEstimator` (`syllables.dfy`) models `count_syllables` as a loop,
  proved against a function that counts vowel-cluster onsets.
- `KeywordDensity` (`density.dfy`) models `get_keyword_density`:
  - the `\w+` runs of the lower-cased text, counted like `collections.Counter`
    in first-occurrence order;
  - each run's share of all runs in percent.
- `FrequencyGroups` (`frequency.dfy`) models `group_words_by_frequency`: it
  buckets the density table's items by raw count, then summarises each bucket.
- `Vocabulary` (`vocabulary.dfy`) models the `words` table as a `Store` class
  holding the set of stored words. The `UNIQUE COLLATE NOCASE` column is an
  invariant: no two rows differ only by case. It offers the query of
  `check_new_words` and the insert of `add_word_to_db`.
- `Readability` (`readability.dfy`) models the arithmetic of `analyze_text`:
  the paragraph estimate, the zero-sentence guard, the average sentence length
  and the Flesch-Kincaid grade.

Two modules are shared. `Chars` (`chars.dfy`) holds ASCII character classes
and case folding. `Seqs` (`seqs.dfy`) holds occurrence counts and
first-occurrence de-duplication.

Python dicts iterate in insertion order, so a dict is modelled as a key order
(`seq`) together with a `map`. Sums over a dict are then folds along that
order. Densities and the grade are exact rationals (`real`).

Three behaviours of `main.py` are worth stating:

- `clean_text` is not idempotent. `TextCleaner.CleanNotIdempotent` proves this
  on the text `"a\n1 \nb"`: the line `"1 "` survives the blank-line rewrite,
  the later digit rewrite leaves it blank, and a second pass then removes it.
- An empty text gets a paragraph count of 1, not 0, because the code adds 1 to
  the number of `"\n\n"`.
- `count_syllables` reads `word[0]`, so a non-empty word is a precondition of
  `Syllables` and `CountSyllables`.

## Model

| member | source | states |
|---|---|---|
| Chars.ToLower | main.py:43 | the result is never upper case, keeps the word, digit and whitespace classes, and a character that is not upper case is kept |
| Chars.Lower | main.py:43 | lower-casing keeps the length and folds each character on its own |
| Chars.LowerIsLowerCase | main.py:43 | lower-casing gives lower-case text, keeps lower-case text unchanged and is idempotent |
| Seqs.Occurrences | main.py:44 | a word's count is at most the number of tokens, and is 0 exactly when the word is absent |
| Seqs.Distinct | main.py:44 | the keys in first-occurrence order: no duplicates, exactly the elements of the list, and no longer than it |
| Seqs.OccurrencesSnoc | main.py:44 | appending a word adds one occurrence of that word and none of any other |
| Seqs.DistinctCardinality | main.py:44 | a sequence without duplicates has as many elements as its set |
| Seqs.DistinctSize | main.py:44 | the first-occurrence order has one element per distinct value |
| SyllableEstimator.Onsets | main.py:86-92 | the number of vowel-cluster onsets is at most the word's length, and at least 1 when the last letter is a vowel |
| SyllableEstimator.Syllables | main.py:84-99 | the estimate of a non-empty word is at least 1 and at most its length |
| SyllableEstimator.CountSyllables | main.py:84-99 | the loop over the lower-cased word returns exactly the onset count with the final `e`/`le` corrections and the floor at 1 |
| SyllableEstimator.SyllablesIgnoreCase | main.py:85 | two words that agree after lower-casing get the same estimate |
| SyllableEstimator.SyllablesOfCat | main.py:88-98 | "cat" has 1 syllable |
| SyllableEstimator.SyllablesOfThe | main.py:93-98 | "the": the final `e` removes the only onset, and the floor restores 1 |
| SyllableEstimator.SyllablesOfAble | main.py:93-96 | "able" has 2: the final `le` restores what the final `e` took |
| SyllableEstimator.OnsetsOfSyllable | main.py:88-92 | "syllable" has 3 vowel-cluster onsets |
| SyllableEstimator.SyllablesOfSyllable | main.py:84-99 | "SYLLABLE" is folded to lower case first and has 3 syllables |
| KeywordDensity.RunLength | main.py:43 | the run is the longest prefix of word characters: all of it is word characters and the next character is not |
| KeywordDensity.Tokens | main.py:43 | there are at most as many tokens as characters, and every token is a non-empty run of word characters; `TokenCount` fixes how many there are |
| KeywordDensity.TokensAreRuns | main.py:43 | every token is a non-empty word that stands in the text as a whole run, not extendable on either side |
| KeywordDensity.SkipRun | main.py:43 | after a word character, the rest of the current run starts no new run |
| KeywordDensity.TokenCount | main.py:43-45 | the number of tokens, `total_words`, equals the number of run starts counted character by character, so a repeated word counts each time |
| KeywordDensity.RunsAreTokens | main.py:43 | conversely, every non-empty word standing in the text as a whole run is a token |
| KeywordDensity.NoTokensIffNoWordChar | main.py:43 | a text has no tokens exactly when it has no word character |
| KeywordDensity.Counts | main.py:44 | every counted word occurs at least once and at most as often as there are tokens |
| KeywordDensity.CountWords | main.py:44 | the counter loop gives the distinct words in first-occurrence order and each word's number of occurrences |
| KeywordDensity.Tally | main.py:44 | one counter step turns the state for a prefix into the state for the prefix one word longer |
| KeywordDensity.CountStep | main.py:44 | a further word either raises its count by one or is appended to the order with count 1 |
| KeywordDensity.DistinctSnoc | main.py:44 | a further word is appended to the first-occurrence order exactly when it is new |
| KeywordDensity.CountsSnoc | main.py:44 | a further word raises its own count by one and leaves every other count as it was |
| KeywordDensity.GetKeywordDensity | main.py:42-52 | returns the number of tokens of the lower-cased text (its number of run starts), its distinct tokens in first-occurrence order, and each token's count and percentage share |
| KeywordDensity.DensityTable | main.py:47-50 | every entry has a count between 1 and the number of tokens, and a density above 0 and at most 100 |
| KeywordDensity.DensityBounds | main.py:49 | a word that occurs at least once has a share above 0 and at most 100 percent |
| KeywordDensity.Tabulate | main.py:47-50 | the second loop builds exactly one entry per distinct word, holding its count and its share |
| KeywordDensity.Record | main.py:48-50 | one loop step stores the word's count and share and changes no other entry |
| KeywordDensity.SumOccurrencesSnoc | main.py:44-45 | a further token adds one to the summed occurrences exactly when it is among the distinct words summed over |
| KeywordDensity.OccurrencesSumToLength | main.py:44-45 | the occurrences of the distinct words add up to the number of tokens |
| KeywordDensity.TotalCountsIsSumOccurrences | main.py:44-50 | the counts stored in the table equal the summed occurrences |
| KeywordDensity.CountsSumToTotal | main.py:44-45 | the counts over all keys sum to `total_words` |
| KeywordDensity.TotalDensityIsShare | main.py:49 | the densities of any keys sum to the share of their summed counts |
| KeywordDensity.SharesSumToHundred | main.py:49 | for a non-empty token list the densities sum to exactly 100 |
| KeywordDensity.DensitiesSumToHundred | main.py:43-50 | a text with a word character has tokens, and its densities sum to exactly 100 |
| KeywordDensity.DensityTableIsShares | main.py:49 | every entry's density is 100 times its count over the total |
| KeywordDensity.LowerKeepsWordChars | main.py:43 | lower-casing neither creates nor removes word characters |
| KeywordDensity.KeysAreLowerCaseRuns | main.py:43-50 | every key is a non-empty lower-case word standing as a whole run in the lower-cased text |
| KeywordDensity.RunsAreKeys | main.py:43-50 | every non-empty word standing as a whole run in the lower-cased text is a key of the table |
| KeywordDensity.EmptyTextHasNoEntries | main.py:43-52 | text without word characters gives no tokens and an empty table, so no division happens |
| KeywordDensity.RunLengthOfWord | main.py:43 | a word followed by a non-word character or by nothing is one run |
| KeywordDensity.TokensOfWordThenSpace | main.py:43 | a word, a space and more text: the word is the first token |
| KeywordDensity.TokensOfSpaced | main.py:43 | tokenizing words joined by single spaces gives the words back |
| KeywordDensity.SpacedAppend | main.py:43 | joining two word lists joins their spaced texts with one space |
| KeywordDensity.SpacedIsLowerCase | main.py:43 | lower-case words joined by spaces form lower-case text |
| KeywordDensity.SampleSentenceTokens | main.py:43 | "the cat sat on the mat" splits into its six words |
| KeywordDensity.SampleOccurrences | main.py:44 | in that sample "the" occurs twice, the other four words once each, and no other word at all |
| KeywordDensity.SampleTable | main.py:47-50 | the sample table has the five words as keys, with "the" at (2, 100/3) and the others at (1, 50/3) |
| KeywordDensity.SampleSentenceDensity | main.py:42-52 | "the cat sat on the mat" gives 6 tokens: "the" with count 2, every other word with count 1 |
| FrequencyGroups.ItemsOf | main.py:103 | `items()` lists every key with its entry, in key order |
| FrequencyGroups.CountsOf | main.py:103 | the counts of the items, position by position |
| FrequencyGroups.CountAmongCounts | main.py:103-104 | a count is among the items' counts exactly when some item has it |
| FrequencyGroups.Select | main.py:103-106 | a group is no longer than the item list, and all its items have the group's count |
| FrequencyGroups.Summarize | main.py:110-115 | a group's word count is the number of items with its count, and its token total is the count times the word count |
| FrequencyGroups.Summaries | main.py:108-116 | every summarised group has at least one word |
| FrequencyGroups.CountsHaveItems | main.py:103-106 | every count that occurs is held by at least one item |
| FrequencyGroups.SummariesInGroupOrder | main.py:108-116 | summarising the groups in their order covers exactly the counts that occur |
| FrequencyGroups.GroupWordsByFrequency | main.py:101-118 | returns the groups in first-seen count order, each with its summary |
| FrequencyGroups.CollectGroups | main.py:102-106 | the first loop opens one group per count in first-seen order and appends each item's (word, density) to the group of its count |
| FrequencyGroups.PrefixStep | main.py:103-106 | the groups after one more item: that item's count group is extended, or is opened if new |
| FrequencyGroups.AddToGroup | main.py:104-106 | one step opens the group of the item's count if it is missing, then appends the item's pair |
| FrequencyGroups.SummarizeGroups | main.py:108-116 | the second loop gives each group its word count, its token total and its summed density |
| FrequencyGroups.SummariesOfSnoc | main.py:109-116 | one more group adds that group's summary and changes no other |
| FrequencyGroups.GroupOrderSnoc | main.py:103-105 | a further item appends its count to the group order exactly when the count is new |
| FrequencyGroups.GroupsSnoc | main.py:103-106 | a further item is appended to the group of its own count, and the other groups stay |
| FrequencyGroups.ItemCountsSnoc | main.py:103 | a further item appends its count to the counts |
| FrequencyGroups.GroupSnoc | main.py:103-106 | after a further item, each group is as before except the item's own, which gains the item's pair |
| FrequencyGroups.SelectSnoc | main.py:103-106 | a further item joins the selection of its own count only |
| FrequencyGroups.MembersSnoc | main.py:106 | a further item adds its (word, density) pair at the end |
| FrequencyGroups.BucketSnoc | main.py:103-106 | a further item joins the group of its own count at the end, and no other group |
| FrequencyGroups.BucketWithoutCount | main.py:103-106 | a count that no item has has an empty group |
| FrequencyGroups.GroupKeysAreCounts | main.py:103-112 | the group keys are exactly the counts that occur in the table |
| FrequencyGroups.SelectSize | main.py:103-106 | a group holds one member per item with its count |
| FrequencyGroups.SumOfItems | main.py:103 | summing over the items of a table is summing over its keys |
| FrequencyGroups.SumSnoc | main.py:111 | a further item adds its value to the sum |
| FrequencyGroups.GroupedTotalSnoc | main.py:109-111 | a further item adds its value to its own group's total only |
| FrequencyGroups.GroupedTotalIsTotal | main.py:109-111 | summing group by group over all groups counts every item exactly once |
| FrequencyGroups.NewGroup | main.py:104-105 | an item with a new count opens its own group at the end |
| FrequencyGroups.SumOfOnes | main.py:113 | counting one per item gives the number of items |
| FrequencyGroups.SumOfEqualCounts | main.py:110 | items that share a count c sum to c times their number |
| FrequencyGroups.SumDensitiesOfMembers | main.py:111 | a group's summed density is the sum of its items' densities |
| FrequencyGroups.SummarySums | main.py:110-115 | summed over groups, the summary fields equal the grouped totals of ones, counts and densities |
| FrequencyGroups.GroupTotalsOfText | main.py:101-118 | over a text's groups, word counts sum to the number of distinct words (the size of their set), token totals sum to `total_words`, and densities sum to 100 when there are tokens |
| Vocabulary.Known | main.py:28 | a word stored as given or in lower case is found |
| Vocabulary.NewWords | main.py:25-32 | every new word is an input word that is stored neither as given nor in lower case |
| Vocabulary.Insert | main.py:37-40 | the table gains at most the lower-cased word, loses nothing, and afterwards finds the word |
| Vocabulary.Store.constructor | main.py:16-19 | a table that already exists keeps its rows, and the store starts case-unique |
| Vocabulary.Store.CheckNewWords | main.py:25-32 | reports each distinct input word without a stored match ignoring case, exactly once, and changes nothing |
| Vocabulary.Store.AddWord | main.py:35-40 | the store becomes the old rows plus the lower-cased word unless a row equal to it ignoring case exists, and stays case-unique |
| Vocabulary.KnownIgnoresCase | main.py:28 | a word and its lower-cased form find the same rows |
| Vocabulary.InsertKnows | main.py:37-40 | an insert keeps every row, and newly matches exactly the words equal to the inserted one ignoring case |
| Vocabulary.InsertKeepsUnique | main.py:18 | an insert never creates two rows that differ only by case |
| Vocabulary.InsertIdempotent | main.py:35-40 | inserting a case variant of a word just inserted changes nothing |
| Vocabulary.InsertAllClearsNewWords | main.py:25-40 | after every word is inserted, none is new, and known words stay known |
| Vocabulary.NewWordsExample | main.py:25-32 | with "cat" stored, "Cat", "cat" and "dog" leave only "dog" new |
| TextCleaner.DigitRun | main.py:130 | the longest prefix of digits |
| TextCleaner.Before | main.py:126-128 | the position of the first occurrence of the character, or the whole length |
| TextCleaner.DigitRunOf | main.py:122 | a digit run followed by a non-digit or by nothing is matched whole |
| TextCleaner.BeforeOf | main.py:126-128 | the first occurrence of a character not in a prefix is right after that prefix |
| TextCleaner.Match | main.py:122-130 | a match is non-empty and lies inside the text |
| TextCleaner.Erase | main.py:122-130 | a rewrite never lengthens the text |
| TextCleaner.NonDigits | main.py:130 | the result has no digit |
| TextCleaner.EraseDigits | main.py:130 | erasing `\d+` runs removes exactly the digit characters and keeps the rest in order |
| TextCleaner.SkipDigits | main.py:130 | a leading digit run contributes nothing |
| TextCleaner.NoCloseInNonDigits | main.py:130 | removing digits never introduces a `>` |
| TextCleaner.NoTagsCons | main.py:128 | the tag-free condition, characterised one leading character at a time |
| TextCleaner.NoCloseAfterErase | main.py:122-130 | a rewrite of text without `>` produces no `>` |
| TextCleaner.EraseKeepsClose | main.py:122-130 | a text starting with `>` still starts with `>` after a rewrite |
| TextCleaner.EraseTagsLeavesNoTags | main.py:128 | after the `<[^>]+>` rewrite no `<` followed by one or more characters other than `>` and then a `>` remains |
| TextCleaner.NonDigitsKeepNoTags | main.py:128-130 | removing digits keeps the text tag-free |
| TextCleaner.FirstNonDigit | main.py:130 | a leading non-digit survives digit removal |
| TextCleaner.SliceKeeps | main.py:132 | a slice of a tag-free or digit-free text is tag-free or digit-free too |
| TextCleaner.Lines | main.py:123-124 | a text has at least one line, and no line contains a newline |
| TextCleaner.JoinLines | main.py:123-124 | joining the lines with newlines gives the text back |
| TextCleaner.LinesAfterPiece | main.py:123-124 | text without a newline in front of more text extends its first line |
| TextCleaner.LinesOfJoin | main.py:123-124 | splitting lines joined by newlines gives them back |
| TextCleaner.ClearNumbers | main.py:123 | no line of the result is digits only, other lines are kept, and the line count is unchanged |
| TextCleaner.DropBlanks | main.py:124 | the last line stays, no earlier line is blank, every line comes from the input, and every non-blank line is kept |
| TextCleaner.ClearNumberLines | main.py:123 | the lines of the rewritten text are the input lines with the digit-only ones emptied |
| TextCleaner.DropBlankLines | main.py:124 | the lines of the rewritten text are the input lines without the blank ones before the last |
| TextCleaner.DropBlanksHaveNoNewline | main.py:124 | dropping lines never puts a newline inside a line |
| TextCleaner.LeadingSpaces | main.py:132 | the length of the leading whitespace |
| TextCleaner.TrailingSpaces | main.py:132 | the length of the trailing whitespace |
| TextCleaner.Strip | main.py:132 | the result is no longer than the text and neither starts nor ends with whitespace |
| TextCleaner.StripSpec | main.py:132 | the result neither starts nor ends with whitespace, and is the text with only whitespace removed from each end |
| TextCleaner.StripKeeps | main.py:132 | stripping keeps the text tag-free and digit-free |
| TextCleaner.TagsThenDigits | main.py:128-130 | after the tag and digit rewrites the text is tag-free and digit-free |
| TextCleaner.FinalSteps | main.py:128-132 | the last three steps leave a text without tags, digits or surrounding whitespace |
| TextCleaner.Clean | main.py:120-132 | the cleaned text contains no digit, no `<` followed by one or more characters other than `>` and then a `>`, and no leading or trailing whitespace; `CleanKeepsCleanText` states what it keeps |
| TextCleaner.EraseWithoutOpen | main.py:126-128 | the tag rewrites keep text without `<` unchanged |
| TextCleaner.EraseTimestampLine | main.py:122 | a digit run followed by the rest of a timestamp is erased whole |
| TextCleaner.FitsExample | main.py:122 | `":00:01,000 --> 00:00:04,000"` fits the tail of the timestamp pattern |
| TextCleaner.TimestampExample | main.py:122 | the timestamp line `"00:00:01,000 --> 00:00:04,000"` is erased completely |
| TextCleaner.EraseTimestampWithoutDigits | main.py:122 | a text of any length without digits is unchanged by the timestamp rewrite |
| TextCleaner.EraseShortTimestamp | main.py:122 | text shorter than a timestamp is unchanged by the timestamp rewrite |
| TextCleaner.EraseItalicOpen | main.py:126 | an opening tag `<i` followed by characters other than `>` and then `>` is erased whole |
| TextCleaner.EraseItalicClose | main.py:126 | a closing tag `</i` followed by characters other than `>` and then `>` is erased whole |
| TextCleaner.ItalicExample | main.py:126 | `"<i>Hi</i>"` becomes `"Hi"` |
| TextCleaner.ItalicExampleTail | main.py:126 | `"Hi</i>"` becomes `"Hi"` |
| TextCleaner.CleanOfPlain | main.py:120-132 | for text too short to hold a timestamp or without digits, whose line rewrites leave no `<`, cleaning is the line rewrites, then digit removal, then the strip |
| TextCleaner.LinesKeepNoDigits | main.py:123 | the lines of a text without digits have no digits |
| TextCleaner.DropBlanksOfNoBlanks | main.py:124 | lines with no blank line before the last are all kept |
| TextCleaner.ClearNumbersOfNoDigits | main.py:123 | lines without digits are kept by the number-line rewrite |
| TextCleaner.LineStepsKeepPlain | main.py:123-124 | both line rewrites keep a text without digits whose lines before the last are not blank |
| TextCleaner.CleanKeepsCleanText | main.py:120-132 | a text of any length without digits, without `<`, without a blank line before the last and without whitespace at either end is returned unchanged |
| TextCleaner.LineStepsOnThree | main.py:123-124 | on three lines, none digits only and the first not blank, the middle line is removed exactly when it is blank |
| TextCleaner.DropBlanksOfThree | main.py:124 | of three lines with a non-blank first, only a blank middle line is dropped |
| TextCleaner.LineStepsKeepSample | main.py:123-124 | the line rewrites keep `"a\n1 \nb"` unchanged |
| TextCleaner.NonDigitsAppend | main.py:130 | digit removal works piece by piece |
| TextCleaner.NonDigitsOfPlain | main.py:130 | text without digits is unchanged by digit removal |
| TextCleaner.StripOfTrimmed | main.py:132 | text with no whitespace at either end is unchanged by the strip |
| TextCleaner.DropOneDigit | main.py:130 | one digit between digit-free texts is removed |
| TextCleaner.LastStepsOnSample | main.py:130-132 | `"a\n1 \nb"` becomes `"a\n \nb"` after digit removal and strip |
| TextCleaner.CleanLeavesBlankLine | main.py:120-132 | cleaning `"a\n1 \nb"` gives `"a\n \nb"`, which still contains a blank line |
| TextCleaner.LineStepsOnBlank | main.py:123-124 | the line rewrites turn `"a\n \nb"` into `"a\nb"` |
| TextCleaner.LastStepsOnJoined | main.py:130-132 | `"a\nb"` is unchanged by digit removal and strip, and contains no `<` |
| TextCleaner.CleanDropsBlankLine | main.py:120-132 | cleaning `"a\n \nb"` gives `"a\nb"` |
| TextCleaner.CleanNotIdempotent | main.py:120-132 | cleaning twice can differ from cleaning once |
| Readability.DoubleNewlines | main.py:79 | the non-overlapping count of `"\n\n"` is at most half the length |
| Readability.DoubleNewlinesZero | main.py:79 | the count is 0 exactly when no two newlines are adjacent |
| Readability.DoubleNewlinesOfRun | main.py:79 | a run of k newlines holds k/2 occurrences, because they do not overlap |
| Readability.ParagraphCount | main.py:79 | the paragraph estimate is at least 1, and is 1 exactly when there is no `"\n\n"` |
| Readability.TotalSyllables | main.py:69 | the syllable total is at least the number of words and at most their total length |
| Readability.AnalyzeText | main.py:54-82 | passes the sentence count through; the paragraph count is the number of `"\n\n"` plus 1; the average is 0 without sentences and otherwise words per sentence; the grade is 0 unless there are both words and sentences |
| Readability.GradeLowerBound | main.py:72-73 | with words and sentences, the grade is at least 0.39 times the average sentence length minus 3.79 |
| Readability.TotalSyllablesOfSample | main.py:69 | "the" and "cat" together have 2 syllables |
| Readability.GradeExample | main.py:69-73 | one sentence with the words "the" and "cat" has grade -3.01 |

## Left out

- spaCy's sentence segmentation and word tokens (main.py:56-60) are not modelled. `Readability.AnalyzeText` takes the sentence count and the word list as inputs, and requires each word to be non-empty, since `count_syllables` reads `word[0]`.
- Floating point is replaced by exact reals, and every `round(..., 2)` is left out (main.py:50, 80-81, 115). Densities, total percentages, the average sentence length and the grade are exact, so the densities sum to exactly 100.
- The SQLite connection, cursor, `commit`, the database path and the AUTOINCREMENT `id` column are left out (main.py:12-22). The `words` table is the set of its `word` values, and the swallowed `IntegrityError` becomes "the set is unchanged".
- Vocabulary.Store.CheckNewWords: the order of the returned list follows the unspecified iteration order of `set(words)`, so the contract states the list's contents and lack of duplicates, not its order.
- `main()` (main.py:134-214) is left out: file reading and writing, directory creation, timestamped file names, the `input()` prompt, and sorting and formatting the report.
- Character classes are ASCII only. Unicode letters and digits in `\w` and `\d`, Unicode whitespace in `\s` and `str.strip`, and non-ASCII case folding in `str.lower` are not modelled.
- FrequencyGroups.GroupWordsByFrequency accepts `total_words` and ignores it, as the source does.
