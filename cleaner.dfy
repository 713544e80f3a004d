/** `clean_text`: the chain of regular-expression rewrites that strips
    subtitle (SRT) artefacts from a text, then trims it. Each `re.sub`
    with an unanchored pattern is the scanner `Erase`; the two rewrites
    anchored with `^`/`$` under MULTILINE act on whole lines and are
    modelled over the lines of the text. */
module TextCleaner {
  import opened Chars

  datatype Option<T> = None | Some(value: T)

  /** The unanchored patterns of `clean_text`:
      Timestamp  `\d+:\d{2}:\d{2},\d{3} --> \d{2}:\d{2}:\d{2},\d{3}`,
      ItalicTag  `</?i[^>]*>`,
      AnyTag     `<[^>]+>`,
      Digits     `\d+`. */
  datatype Pattern = Timestamp | ItalicTag | AnyTag | Digits

  /** Length of the run of digits that starts s. */
  function DigitRun(s: string): (n: nat)
    ensures n <= |s|
    ensures forall i :: 0 <= i < n ==> IsDigit(s[i])
    ensures n < |s| ==> !IsDigit(s[n])
  {
    if s == [] || !IsDigit(s[0]) then 0 else 1 + DigitRun(s[1..])
  }

  /** Number of characters of s before the first c (all of s when there is none). */
  function Before(s: string, c: char): (n: nat)
    ensures n <= |s|
    ensures forall i :: 0 <= i < n ==> s[i] != c
    ensures n < |s| ==> s[n] == c
  {
    if s == [] || s[0] == c then 0 else 1 + Before(s[1..], c)
  }

  /** What follows the hours of a timestamp line; `#` stands for a digit. */
  const TimestampTail := ":##:##,### --> ##:##:##,###"

  /** s starts with text of the shape t. */
  predicate Fits(s: string, t: string)
  {
    |t| <= |s| && forall i :: 0 <= i < |t| ==> if t[i] == '#' then IsDigit(s[i]) else s[i] == t[i]
  }

  /** The length of the match of p at the start of s, if p matches there.
      A digit run is always taken whole: in the timestamp the run is
      followed by `:`, so giving digits back never helps; `[^>]*` and
      `[^>]+` stop at the first `>`. */
  function Match(p: Pattern, s: string): (m: Option<nat>)
    ensures m.Some? ==> 1 <= m.value <= |s|
  {
    match p
    case Digits =>
      var n := DigitRun(s);
      if n > 0 then Some(n) else None
    case Timestamp =>
      var n := DigitRun(s);
      if n > 0 && Fits(s[n..], TimestampTail) then Some(n + |TimestampTail|) else None
    case AnyTag =>
      if 2 <= |s| && s[0] == '<' then
        var k := Before(s[1..], '>');
        if 1 <= k < |s| - 1 then Some(k + 2) else None
      else None
    case ItalicTag =>
      if 1 <= |s| && s[0] == '<' then
        var start := if 2 <= |s| && s[1] == '/' then 2 else 1;
        if start < |s| && s[start] == 'i' then
          var k := Before(s[start + 1..], '>');
          if k < |s| - start - 1 then Some(start + k + 2) else None
        else None
      else None
  }

  /** `re.sub(p, '', s)`: scanning from the left, every match is dropped
      and every other character kept. */
  function Erase(p: Pattern, s: string): (r: string)
    ensures |r| <= |s|
    decreases |s|
  {
    if s == [] then []
    else
      match Match(p, s)
      case Some(n) => Erase(p, s[n..])
      case None => [s[0]] + Erase(p, s[1..])
  }

  predicate NoDigits(s: string)
  {
    forall i :: 0 <= i < |s| ==> !IsDigit(s[i])
  }

  /** No match of `<[^>]+>` anywhere: every `<` that has a `>` somewhere
      after it is immediately followed by `>`. */
  predicate NoTags(s: string)
  {
    forall i, j :: 0 <= i < j < |s| && s[i] == '<' && s[j] == '>' ==> s[i + 1] == '>'
  }

  /** The characters of s that are not digits, in order. */
  function NonDigits(s: string): (r: string)
    ensures NoDigits(r)
  {
    if s == [] then []
    else (if IsDigit(s[0]) then [] else [s[0]]) + NonDigits(s[1..])
  }

  /** Removing digits never brings a `>` in. */
  lemma {:induction false} NoCloseInNonDigits(s: string)
    requires '>' !in s
    ensures '>' !in NonDigits(s)
  {
    if s != [] {
      assert forall i :: 0 <= i < |s[1..]| ==> s[1..][i] == s[1 + i];
      NoCloseInNonDigits(s[1..]);
    }
  }

  /** `re.sub(r'\d+', '', s)` removes exactly the digits. */
  lemma {:induction false} EraseDigits(s: string)
    ensures Erase(Digits, s) == NonDigits(s)
    decreases |s|
  {
    if s != [] {
      match Match(Digits, s)
      case Some(n) =>
        EraseDigits(s[n..]);
        SkipDigits(s, n);
      case None =>
        EraseDigits(s[1..]);
    }
  }

  /** Dropping a prefix of digits does not change the non-digits. */
  lemma {:induction false} SkipDigits(s: string, n: nat)
    requires n <= |s|
    requires forall i :: 0 <= i < n ==> IsDigit(s[i])
    ensures NonDigits(s) == NonDigits(s[n..])
  {
    if n > 0 {
      SkipDigits(s[1..], n - 1);
      assert s[1..][n - 1..] == s[n..];
    }
  }

  /** Tag-freedom of a text that starts with c. */
  lemma NoTagsCons(c: char, r: string)
    ensures NoTags([c] + r) <==> NoTags(r) && (c == '<' && '>' in r ==> r[0] == '>')
  {
    var s := [c] + r;
    if NoTags(s) {
      forall i, j | 0 <= i < j < |r| && r[i] == '<' && r[j] == '>' ensures r[i + 1] == '>' {
        assert s[i + 1] == '<' && s[j + 1] == '>' && s[i + 2] == r[i + 1];
      }
      if c == '<' && '>' in r {
        var j :| 0 <= j < |r| && r[j] == '>';
        assert s[0] == '<' && s[j + 1] == '>' && s[1] == r[0];
      }
    }
    if NoTags(r) && (c == '<' && '>' in r ==> r[0] == '>') {
      forall i, j | 0 <= i < j < |s| && s[i] == '<' && s[j] == '>' ensures s[i + 1] == '>' {
        if i > 0 {
          assert r[i - 1] == '<' && r[j - 1] == '>' && s[i + 1] == r[i];
        } else {
          assert r[j - 1] == '>' && s[1] == r[0];
          assert '>' in r;
        }
      }
    }
  }

  /** Erasing never brings a `>` in. */
  lemma {:induction false} NoCloseAfterErase(p: Pattern, s: string)
    requires '>' !in s
    ensures '>' !in Erase(p, s)
    decreases |s|
  {
    if s != [] {
      match Match(p, s)
      case Some(n) =>
        assert forall i :: 0 <= i < |s[n..]| ==> s[n..][i] == s[n + i];
        NoCloseAfterErase(p, s[n..]);
      case None =>
        assert forall i :: 0 <= i < |s[1..]| ==> s[1..][i] == s[1 + i];
        NoCloseAfterErase(p, s[1..]);
    }
  }

  /** A text that starts with `>` keeps it in front: no pattern matches there. */
  lemma {:induction false} EraseKeepsClose(p: Pattern, s: string)
    requires s != [] && s[0] == '>'
    ensures Erase(p, s) != [] && Erase(p, s)[0] == '>'
  {
    assert Match(p, s).None?;
  }

  /** After `re.sub(r'<[^>]+>', '', s)` no tag is left. */
  lemma {:induction false} EraseTagsLeavesNoTags(s: string)
    ensures NoTags(Erase(AnyTag, s))
    decreases |s|
  {
    if s != [] {
      match Match(AnyTag, s)
      case Some(n) =>
        EraseTagsLeavesNoTags(s[n..]);
      case None =>
        var rest := Erase(AnyTag, s[1..]);
        EraseTagsLeavesNoTags(s[1..]);
        if s[0] == '<' && |s| >= 2 {
          if s[1] == '>' {
            EraseKeepsClose(AnyTag, s[1..]);
          } else {
            // No match at a `<` followed by something other than `>`:
            // there is no `>` after it at all.
            assert Before(s[1..], '>') == |s| - 1;
            NoCloseAfterErase(AnyTag, s[1..]);
          }
        }
        NoTagsCons(s[0], rest);
    }
  }

  /** Removing the digits keeps a text tag-free: `>` is not a digit. */
  lemma {:induction false} NonDigitsKeepNoTags(s: string)
    requires NoTags(s)
    ensures NoTags(NonDigits(s))
  {
    if s != [] {
      NoTagsCons(s[0], s[1..]);
      assert s == [s[0]] + s[1..];
      NonDigitsKeepNoTags(s[1..]);
      if !IsDigit(s[0]) {
        var rest := NonDigits(s[1..]);
        if s[0] == '<' && '>' in s[1..] {
          FirstNonDigit(s[1..]);
        } else if s[0] == '<' {
          NoCloseInNonDigits(s[1..]);
        }
        NoTagsCons(s[0], rest);
      }
    }
  }

  /** A text that starts with a non-digit keeps it in front. */
  lemma FirstNonDigit(s: string)
    requires s != [] && !IsDigit(s[0])
    ensures NonDigits(s) != [] && NonDigits(s)[0] == s[0]
  {
  }

  /** A slice of a tag-free, digit-free text is tag-free and digit-free. */
  lemma SliceKeeps(s: string, a: nat, b: nat)
    requires a <= b <= |s|
    ensures NoTags(s) ==> NoTags(s[a..b])
    ensures NoDigits(s) ==> NoDigits(s[a..b])
  {
    if NoTags(s) {
      var t := s[a..b];
      forall i, j | 0 <= i < j < |t| && t[i] == '<' && t[j] == '>' ensures t[i + 1] == '>' {
        assert s[a + i] == '<' && s[a + j] == '>';
      }
    }
  }

  // Lines: the MULTILINE rewrites `^\d+$` and `^\s*$\n` act on the pieces
  // of the text between newlines.

  /** The pieces of s between `\n` characters, like `s.split('\n')`. */
  function Lines(s: string): (ls: seq<string>)
    ensures |ls| >= 1
    ensures forall i :: 0 <= i < |ls| ==> '\n' !in ls[i]
  {
    if s == [] then [""]
    else
      var rest := Lines(s[1..]);
      if s[0] == '\n' then [""] + rest else [[s[0]] + rest[0]] + rest[1..]
  }

  /** `'\n'.join(ls)`. */
  function Join(ls: seq<string>): string
    requires |ls| >= 1
  {
    if |ls| == 1 then ls[0] else ls[0] + "\n" + Join(ls[1..])
  }

  /** Splitting and joining gives the text back. */
  lemma {:induction false} JoinLines(s: string)
    ensures Join(Lines(s)) == s
  {
    if s != [] {
      var rest := Lines(s[1..]);
      JoinLines(s[1..]);
      if s[0] == '\n' {
        assert ([""] + rest)[1..] == rest;
      } else if |rest| > 1 {
        var ls := [[s[0]] + rest[0]] + rest[1..];
        assert ls[1..] == rest[1..];
        assert Join(rest) == rest[0] + "\n" + Join(rest[1..]);
      }
    }
  }

  /** A piece without newline in front of some text becomes the front of
      the first line. */
  lemma {:induction false} LinesAfterPiece(l: string, t: string)
    requires '\n' !in l
    ensures Lines(l + t) == [l + Lines(t)[0]] + Lines(t)[1..]
  {
    if l == [] {
      assert l + t == t;
      assert l + Lines(t)[0] == Lines(t)[0];
      assert [Lines(t)[0]] + Lines(t)[1..] == Lines(t);
    } else {
      assert (l + t)[1..] == l[1..] + t;
      assert (l + t)[0] == l[0];
      LinesAfterPiece(l[1..], t);
      assert [l[0]] + (l[1..] + Lines(t)[0]) == l + Lines(t)[0];
    }
  }

  /** Joining lines without newlines and splitting again gives them back. */
  lemma {:induction false} LinesOfJoin(ls: seq<string>)
    requires |ls| >= 1
    requires forall i :: 0 <= i < |ls| ==> '\n' !in ls[i]
    ensures Lines(Join(ls)) == ls
  {
    if |ls| == 1 {
      LinesAfterPiece(ls[0], "");
      assert ls[0] + "" == ls[0];
    } else {
      var t := Join(ls[1..]);
      LinesOfJoin(ls[1..]);
      assert ("\n" + t)[1..] == t;
      assert Lines("\n" + t) == [""] + ls[1..];
      assert ls[0] + "\n" + t == ls[0] + ("\n" + t);
      LinesAfterPiece(ls[0], "\n" + t);
      assert ls[0] + "" == ls[0];
    }
  }

  /** A line matched by `^\d+$`. */
  predicate IsNumberLine(l: string)
  {
    |l| > 0 && forall i :: 0 <= i < |l| ==> IsDigit(l[i])
  }

  /** A line matched by `^\s*$`. */
  predicate IsBlankLine(l: string)
  {
    forall i :: 0 <= i < |l| ==> IsSpace(l[i])
  }

  /** `re.sub(r'^\d+$', '', s, flags=re.MULTILINE)` on the lines: a line
      of digits only becomes empty, the others stay. */
  function ClearNumbers(ls: seq<string>): (r: seq<string>)
    ensures |r| == |ls|
    ensures forall i :: 0 <= i < |r| ==> !IsNumberLine(r[i])
    ensures forall i :: 0 <= i < |r| && !IsNumberLine(ls[i]) ==> r[i] == ls[i]
    ensures forall i :: 0 <= i < |r| ==> '\n' !in ls[i] ==> '\n' !in r[i]
  {
    seq(|ls|, i requires 0 <= i < |ls| => if IsNumberLine(ls[i]) then "" else ls[i])
  }

  /** `re.sub(r'^\s*$\n', '', s, flags=re.MULTILINE)` on the lines: every
      whitespace-only line that a newline ends is dropped together with
      that newline (a greedy `\s*` runs over several such lines at once);
      the last line has no newline after it and stays. */
  function DropBlanks(ls: seq<string>): (r: seq<string>)
    requires |ls| >= 1
    ensures |r| >= 1 && r[|r| - 1] == ls[|ls| - 1]
    ensures forall i :: 0 <= i < |r| - 1 ==> !IsBlankLine(r[i])
    ensures forall i :: 0 <= i < |r| ==> r[i] in ls
    ensures forall i :: 0 <= i < |ls| - 1 && !IsBlankLine(ls[i]) ==> ls[i] in r
  {
    if |ls| == 1 then ls
    else (if IsBlankLine(ls[0]) then [] else [ls[0]]) + DropBlanks(ls[1..])
  }

  /** `re.sub(r'^\d+$', '', s, flags=re.MULTILINE)`: its lines are the
      lines of s with each number line emptied. */
  function ClearNumberLines(s: string): (r: string)
    ensures Lines(r) == ClearNumbers(Lines(s))
  {
    LinesOfJoin(ClearNumbers(Lines(s)));
    Join(ClearNumbers(Lines(s)))
  }

  /** `re.sub(r'^\s*$\n', '', s, flags=re.MULTILINE)`: its lines are the
      lines of s with the blank ones before the last dropped. */
  function DropBlankLines(s: string): (r: string)
    ensures Lines(r) == DropBlanks(Lines(s))
  {
    DropBlanksHaveNoNewline(Lines(s));
    LinesOfJoin(DropBlanks(Lines(s)));
    Join(DropBlanks(Lines(s)))
  }

  /** Dropping lines brings no newline into them. */
  lemma DropBlanksHaveNoNewline(ls: seq<string>)
    requires |ls| >= 1 && forall i :: 0 <= i < |ls| ==> '\n' !in ls[i]
    ensures forall i :: 0 <= i < |DropBlanks(ls)| ==> '\n' !in DropBlanks(ls)[i]
  {
    var r := DropBlanks(ls);
    forall i | 0 <= i < |r| ensures '\n' !in r[i] {
      assert r[i] in ls;
    }
  }

  /** Number of whitespace characters at the start of s. */
  function LeadingSpaces(s: string): (n: nat)
    ensures n <= |s|
    ensures forall i :: 0 <= i < n ==> IsSpace(s[i])
    ensures n < |s| ==> !IsSpace(s[n])
  {
    if s != [] && IsSpace(s[0]) then 1 + LeadingSpaces(s[1..]) else 0
  }

  /** Number of whitespace characters at the end of s. */
  function TrailingSpaces(s: string): (n: nat)
    ensures n <= |s|
    ensures forall i :: |s| - n <= i < |s| ==> IsSpace(s[i])
    ensures n < |s| ==> !IsSpace(s[|s| - n - 1])
  {
    if s != [] && IsSpace(s[|s| - 1]) then 1 + TrailingSpaces(s[..|s| - 1]) else 0
  }

  /** `str.strip()`: leading whitespace dropped, then trailing whitespace. */
  function Strip(s: string): (r: string)
    ensures |r| <= |s|
    ensures r == [] || (!IsSpace(r[0]) && !IsSpace(r[|r| - 1]))
  {
    var t := s[LeadingSpaces(s)..];
    t[..|t| - TrailingSpaces(t)]
  }

  /** Stripping keeps a slice of the text, drops whitespace only, at both
      ends, and leaves none there. */
  lemma StripSpec(s: string)
    ensures var r := Strip(s);
      && (r == [] || (!IsSpace(r[0]) && !IsSpace(r[|r| - 1])))
      && exists a, b :: 0 <= a <= b <= |s| && r == s[a..b] && IsBlankLine(s[..a]) && IsBlankLine(s[b..])
  {
    var a := LeadingSpaces(s);
    var t := s[a..];
    var b := a + |t| - TrailingSpaces(t);
    assert Strip(s) == s[a..b];
    assert IsBlankLine(s[b..]) by {
      forall i | 0 <= i < |s| - b ensures IsSpace(s[b..][i]) {
        assert s[b..][i] == t[|t| - TrailingSpaces(t) + i];
      }
    }
  }

  /** Stripping keeps a text tag-free and digit-free. */
  lemma StripKeeps(s: string)
    ensures NoTags(s) ==> NoTags(Strip(s))
    ensures NoDigits(s) ==> NoDigits(Strip(s))
  {
    StripSpec(s);
    var a, b :| 0 <= a <= b <= |s| && Strip(s) == s[a..b];
    SliceKeeps(s, a, b);
  }

  /** The tag and digit rewrites leave a text with neither. */
  lemma TagsThenDigits(s: string)
    ensures NoTags(Erase(Digits, Erase(AnyTag, s)))
    ensures NoDigits(Erase(Digits, Erase(AnyTag, s)))
  {
    var noTags := Erase(AnyTag, s);
    EraseTagsLeavesNoTags(s);
    EraseDigits(noTags);
    NonDigitsKeepNoTags(noTags);
  }

  /** The last three steps leave no tag, no digit and no surrounding whitespace. */
  lemma FinalSteps(s: string)
    ensures var r := Strip(Erase(Digits, Erase(AnyTag, s)));
      && NoDigits(r)
      && NoTags(r)
      && (r == [] || (!IsSpace(r[0]) && !IsSpace(r[|r| - 1])))
  {
    TagsThenDigits(s);
    StripKeeps(Erase(Digits, Erase(AnyTag, s)));
    StripSpec(Erase(Digits, Erase(AnyTag, s)));
  }

  /** `clean_text`. The result holds no digit, no match of `<[^>]+>`,
      and no whitespace at either end. */
  function Clean(text: string): (r: string)
    ensures NoDigits(r)
    ensures NoTags(r)
    ensures r == [] || (!IsSpace(r[0]) && !IsSpace(r[|r| - 1]))
  {
    var noTimestamps := Erase(Timestamp, text);
    var noNumbers := ClearNumberLines(noTimestamps);
    var noBlanks := DropBlankLines(noNumbers);
    var noItalics := Erase(ItalicTag, noBlanks);
    var noTags := Erase(AnyTag, noItalics);
    var noDigits := Erase(Digits, noTags);
    FinalSteps(noItalics);
    Strip(noDigits)
  }

  /** A text without `<` holds no tag for either tag pattern to erase. */
  lemma {:induction false} EraseWithoutOpen(p: Pattern, s: string)
    requires p == ItalicTag || p == AnyTag
    requires forall i :: 0 <= i < |s| ==> s[i] != '<'
    ensures Erase(p, s) == s
  {
    if s != [] {
      EraseWithoutOpen(p, s[1..]);
      assert s == [s[0]] + s[1..];
    }
  }

  /** A timestamp takes at least 28 characters, so a shorter text holds none. */
  lemma {:induction false} EraseShortTimestamp(s: string)
    requires |s| <= |TimestampTail|
    ensures Erase(Timestamp, s) == s
  {
    if s != [] {
      EraseShortTimestamp(s[1..]);
      assert s == [s[0]] + s[1..];
    }
  }

  /** The timestamp pattern starts with `\d+`, so a text without digits
      holds no timestamp, however long it is. */
  lemma {:induction false} EraseTimestampWithoutDigits(s: string)
    requires NoDigits(s)
    ensures Erase(Timestamp, s) == s
  {
    if s != [] {
      assert Match(Timestamp, s).None?;
      EraseTimestampWithoutDigits(s[1..]);
      assert s == [s[0]] + s[1..];
    }
  }

  /** A run of digits ended by a non-digit, or by the end of the text. */
  lemma DigitRunOf(d: string, x: string)
    requires |d| > 0 && forall k :: 0 <= k < |d| ==> IsDigit(d[k])
    requires x == [] || !IsDigit(x[0])
    ensures DigitRun(d + x) == |d|
  {
    assert forall k :: 0 <= k < |d| ==> (d + x)[k] == d[k];
    assert x != [] ==> (d + x)[|d|] == x[0];
  }

  /** The first c in b, c and more text is the one after b. */
  lemma BeforeOf(b: string, c: char, x: string)
    requires c !in b
    ensures Before(b + [c] + x, c) == |b|
  {
    assert forall k :: 0 <= k < |b| ==> (b + [c] + x)[k] == b[k];
    assert (b + [c] + x)[|b|] == c;
  }

  /** Step 1 erases a whole time range: hours of any number of digits,
      then the rest of the shape `:##:##,### --> ##:##:##,###`. */
  lemma EraseTimestampLine(d: string, t: string, rest: string)
    requires |d| > 0 && forall k :: 0 <= k < |d| ==> IsDigit(d[k])
    requires |t| == |TimestampTail| && Fits(t, TimestampTail)
    ensures Erase(Timestamp, d + t + rest) == Erase(Timestamp, rest)
  {
    var s := d + t + rest;
    assert TimestampTail[0] == ':';
    assert s == d + (t + rest) && (t + rest)[0] == t[0];
    DigitRunOf(d, t + rest);
    assert s[|d|..] == t + rest;
    assert Fits(t + rest, TimestampTail) by {
      forall i | 0 <= i < |TimestampTail| ensures (t + rest)[i] == t[i] { }
    }
    assert Match(Timestamp, s) == Some(|d| + |TimestampTail|);
    assert s[|d| + |TimestampTail|..] == rest;
  }

  /** Step 4 erases an opening italic tag `<i...>`. */
  lemma EraseItalicOpen(b: string, rest: string)
    requires '>' !in b
    ensures Erase(ItalicTag, "<i" + b + ">" + rest) == Erase(ItalicTag, rest)
  {
    var s := "<i" + b + ">" + rest;
    assert s[0] == '<' && s[1] == 'i';
    assert s[2..] == b + ['>'] + rest;
    BeforeOf(b, '>', rest);
    assert Match(ItalicTag, s) == Some(|b| + 3);
    assert s[|b| + 3..] == rest;
  }

  /** Step 4 erases a closing italic tag `</i...>`. */
  lemma EraseItalicClose(b: string, rest: string)
    requires '>' !in b
    ensures Erase(ItalicTag, "</i" + b + ">" + rest) == Erase(ItalicTag, rest)
  {
    var s := "</i" + b + ">" + rest;
    assert s[0] == '<' && s[1] == '/' && s[2] == 'i';
    assert s[3..] == b + ['>'] + rest;
    BeforeOf(b, '>', rest);
    assert Match(ItalicTag, s) == Some(|b| + 4);
    assert s[|b| + 4..] == rest;
  }

  /** A subtitle time range has the shape the timestamp pattern needs. */
  lemma FitsExample()
    ensures Fits(":00:01,000 --> 00:00:04,000", TimestampTail)
  {
  }

  /** The time range of an SRT cue disappears completely. */
  lemma TimestampExample()
    ensures Erase(Timestamp, "00:00:01,000 --> 00:00:04,000") == ""
  {
    FitsExample();
    assert "00:00:01,000 --> 00:00:04,000" == "00" + ":00:01,000 --> 00:00:04,000" + "";
    EraseTimestampLine("00", ":00:01,000 --> 00:00:04,000", "");
  }

  /** `<i>` and `</i>` go, and the text between them stays. */
  lemma ItalicExample()
    ensures Erase(ItalicTag, "<i>Hi</i>") == "Hi"
  {
    assert Match(ItalicTag, "<i>Hi</i>") == Some(3);
    assert "<i>Hi</i>"[3..] == "Hi</i>";
    ItalicExampleTail();
  }

  lemma ItalicExampleTail()
    ensures Erase(ItalicTag, "Hi</i>") == "Hi"
  {
    assert Match(ItalicTag, "Hi</i>").None? && "Hi</i>"[1..] == "i</i>";
    assert Match(ItalicTag, "i</i>").None? && "i</i>"[1..] == "</i>";
    assert Match(ItalicTag, "</i>") == Some(4);
  }

  /** On a text that holds no timestamp, because it is too short or has no
      digit, and whose line rewrites leave it without `<`, cleaning is the
      line rewrites, then the digit removal and the strip. */
  lemma CleanOfPlain(s: string, t: string)
    requires |s| <= |TimestampTail| || NoDigits(s)
    requires t == DropBlankLines(ClearNumberLines(s))
    requires forall i :: 0 <= i < |t| ==> t[i] != '<'
    ensures Clean(s) == Strip(NonDigits(t))
  {
    if |s| <= |TimestampTail| {
      EraseShortTimestamp(s);
    } else {
      EraseTimestampWithoutDigits(s);
    }
    EraseWithoutOpen(ItalicTag, t);
    EraseWithoutOpen(AnyTag, t);
    EraseDigits(t);
  }

  /** The lines of a text without digits have no digits. */
  lemma {:induction false} LinesKeepNoDigits(s: string)
    requires NoDigits(s)
    ensures forall i :: 0 <= i < |Lines(s)| ==> NoDigits(Lines(s)[i])
  {
    if s != [] {
      LinesKeepNoDigits(s[1..]);
      var rest := Lines(s[1..]);
      assert NoDigits([s[0]] + rest[0]);
    }
  }

  /** Lines none of which is blank before the last are all kept. */
  lemma {:induction false} DropBlanksOfNoBlanks(ls: seq<string>)
    requires |ls| >= 1
    requires forall i :: 0 <= i < |ls| - 1 ==> !IsBlankLine(ls[i])
    ensures DropBlanks(ls) == ls
  {
    if |ls| > 1 {
      DropBlanksOfNoBlanks(ls[1..]);
      assert !IsBlankLine(ls[0]);
      assert [ls[0]] + ls[1..] == ls;
    }
  }

  /** Lines without digits hold no number line, so `^\d+$` keeps them. */
  lemma ClearNumbersOfNoDigits(ls: seq<string>)
    requires forall i :: 0 <= i < |ls| ==> NoDigits(ls[i])
    ensures ClearNumbers(ls) == ls
  {
    assert forall i :: 0 <= i < |ls| ==> !IsNumberLine(ls[i]) by {
      forall i | 0 <= i < |ls| ensures !IsNumberLine(ls[i]) {
        assert |ls[i]| > 0 ==> !IsDigit(ls[i][0]);
      }
    }
  }

  /** The two line rewrites keep a text without digits whose lines before
      the last are not blank. */
  lemma LineStepsKeepPlain(s: string)
    requires NoDigits(s)
    requires forall i :: 0 <= i < |Lines(s)| - 1 ==> !IsBlankLine(Lines(s)[i])
    ensures ClearNumberLines(s) == s
    ensures DropBlankLines(s) == s
  {
    JoinLines(s);
    LinesKeepNoDigits(s);
    ClearNumbersOfNoDigits(Lines(s));
    DropBlanksOfNoBlanks(Lines(s));
  }

  /** Text that is already clean (no digit, no `<`, no blank line before
      the last, no whitespace at either end) comes back unchanged: every
      rewrite of `clean_text` keeps ordinary text, whatever its length. */
  lemma CleanKeepsCleanText(s: string)
    requires NoDigits(s) && '<' !in s
    requires forall i :: 0 <= i < |Lines(s)| - 1 ==> !IsBlankLine(Lines(s)[i])
    requires s == [] || (!IsSpace(s[0]) && !IsSpace(s[|s| - 1]))
    ensures Clean(s) == s
  {
    LineStepsKeepPlain(s);
    CleanOfPlain(s, s);
    NonDigitsOfPlain(s);
    if s != [] {
      StripOfTrimmed(s);
    }
  }

  lemma JoinTwo(a: string, b: string)
    ensures Join([a, b]) == a + "\n" + b
  {
    assert [a, b][1..] == [b];
  }

  lemma JoinThree(a: string, b: string, c: string)
    ensures Join([a, b, c]) == a + "\n" + b + "\n" + c
  {
    assert [a, b, c][1..] == [b, c];
    JoinTwo(b, c);
  }

  /** The line rewrites on a three-line text whose lines are no number
      lines and whose first line is not blank: the middle line goes
      exactly when it is blank. */
  lemma LineStepsOnThree(a: string, b: string, c: string)
    requires '\n' !in a && '\n' !in b && '\n' !in c
    requires !IsNumberLine(a) && !IsNumberLine(b) && !IsNumberLine(c)
    requires !IsBlankLine(a)
    ensures DropBlankLines(ClearNumberLines(a + "\n" + b + "\n" + c))
      == if IsBlankLine(b) then a + "\n" + c else a + "\n" + b + "\n" + c
  {
    var ls := [a, b, c];
    JoinThree(a, b, c);
    LinesOfJoin(ls);
    assert ClearNumbers(ls) == ls;
    DropBlanksOfThree(a, b, c);
    JoinTwo(a, c);
  }

  /** Of three lines the first is kept when it is not blank, the last is
      always kept, and the middle one exactly when it is not blank. */
  lemma DropBlanksOfThree(a: string, b: string, c: string)
    requires !IsBlankLine(a)
    ensures DropBlanks([a, b, c]) == if IsBlankLine(b) then [a, c] else [a, b, c]
  {
    assert [a, b, c][1..] == [b, c] && [b, c][1..] == [c];
    assert DropBlanks([b, c]) == (if IsBlankLine(b) then [] else [b]) + [c];
  }

  /** None of the lines of "a\n1 \nb" is a number line or blank, so the
      line rewrites keep the text. */
  lemma LineStepsKeepSample()
    ensures DropBlankLines(ClearNumberLines("a\n1 \nb")) == "a\n1 \nb"
  {
    assert !IsDigit("a"[0]) && !IsDigit("1 "[1]) && !IsDigit("b"[0]);
    assert !IsSpace("a"[0]) && !IsSpace("1 "[0]);
    assert "a" + "\n" + "1 " + "\n" + "b" == "a\n1 \nb";
    LineStepsOnThree("a", "1 ", "b");
  }

  /** Removing digits works piece by piece. */
  lemma {:induction false} NonDigitsAppend(x: string, y: string)
    ensures NonDigits(x + y) == NonDigits(x) + NonDigits(y)
  {
    if x == [] {
      assert x + y == y;
    } else {
      assert (x + y)[0] == x[0] && (x + y)[1..] == x[1..] + y;
      NonDigitsAppend(x[1..], y);
    }
  }

  /** A text without digits is left as it is. */
  lemma {:induction false} NonDigitsOfPlain(s: string)
    requires NoDigits(s)
    ensures NonDigits(s) == s
  {
    if s != [] {
      NonDigitsOfPlain(s[1..]);
    }
  }

  /** A text that neither starts nor ends with whitespace is its own strip. */
  lemma StripOfTrimmed(s: string)
    requires s != [] && !IsSpace(s[0]) && !IsSpace(s[|s| - 1])
    ensures Strip(s) == s
  {
  }

  /** Removing digits from a digit between two digit-free texts. */
  lemma DropOneDigit(x: string, d: char, y: string)
    requires NoDigits(x) && IsDigit(d) && NoDigits(y)
    ensures NonDigits(x + [d] + y) == x + y
  {
    assert [d][1..] == [];
    assert NonDigits([d]) == [];
    NonDigitsOfPlain(x);
    NonDigitsAppend(x, [d]);
    assert NonDigits(x + [d]) == x;
    NonDigitsOfPlain(y);
    NonDigitsAppend(x + [d], y);
  }

  /** The digit goes from "a\n1 \nb" and nothing is left to strip. */
  lemma LastStepsOnSample()
    ensures Strip(NonDigits("a\n1 \nb")) == "a\n \nb"
  {
    var x, y := "a\n", " \nb";
    assert "a\n1 \nb" == x + ['1'] + y;
    assert x + y == "a\n \nb";
    DropOneDigit(x, '1', y);
    StripOfTrimmed("a\n \nb");
  }

  lemma NoOpenInSample()
    ensures forall i :: 0 <= i < |"a\n1 \nb"| ==> "a\n1 \nb"[i] != '<'
  {
  }

  /** A line holding a digit and a space is no number line, so it survives
      the line rewrites; removing the digit afterwards leaves it blank. */
  lemma CleanLeavesBlankLine()
    ensures Clean("a\n1 \nb") == "a\n \nb"
  {
    var s := "a\n1 \nb";
    NoOpenInSample();
    LineStepsKeepSample();
    CleanOfPlain(s, s);
    LastStepsOnSample();
  }

  /** The middle line of "a\n \nb" is blank and goes. */
  lemma LineStepsOnBlank()
    ensures DropBlankLines(ClearNumberLines("a\n \nb")) == "a\nb"
  {
    assert !IsDigit("a"[0]) && !IsDigit(" "[0]) && !IsDigit("b"[0]);
    assert !IsSpace("a"[0]) && IsBlankLine(" ");
    assert "a" + "\n" + " " + "\n" + "b" == "a\n \nb";
    assert "a" + "\n" + "b" == "a\nb";
    LineStepsOnThree("a", " ", "b");
  }

  lemma LastStepsOnJoined()
    ensures Strip(NonDigits("a\nb")) == "a\nb"
    ensures forall i :: 0 <= i < |"a\nb"| ==> "a\nb"[i] != '<'
  {
    NonDigitsOfPlain("a\nb");
    StripOfTrimmed("a\nb");
  }

  /** The blank line left behind is removed by a second pass. */
  lemma CleanDropsBlankLine()
    ensures Clean("a\n \nb") == "a\nb"
  {
    LastStepsOnJoined();
    LineStepsOnBlank();
    CleanOfPlain("a\n \nb", "a\nb");
  }

  /** Cleaning is not idempotent: a digit-and-space line turns blank only
      after the blank-line rewrite has run. */
  lemma CleanNotIdempotent()
    ensures Clean(Clean("a\n1 \nb")) != Clean("a\n1 \nb")
  {
    CleanLeavesBlankLine();
    CleanDropsBlankLine();
    assert |"a\nb"| != |"a\n \nb"|;
  }
}
