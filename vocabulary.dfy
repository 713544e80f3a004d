/** The vocabulary store: the `words` table of the SQLite database, whose
    `word` column is UNIQUE under the NOCASE collation, with the query of
    `check_new_words` and the insert of `add_word_to_db`. The table is
    modelled by the set of its `word` values; the AUTOINCREMENT ids are not
    observable by the pipeline and are not modelled. */
module Vocabulary {
  import opened Chars
  import opened Seqs

  /** The NOCASE collation: two texts compare equal when they agree after
      folding ASCII upper case to lower case. */
  predicate EqualNoCase(a: string, b: string)
  {
    Lower(a) == Lower(b)
  }

  /** `SELECT word FROM words WHERE word = ? COLLATE NOCASE` finds a row. */
  predicate Known(rows: set<string>, w: string): (found: bool)
    ensures w in rows || Lower(w) in rows ==> found
  {
    LowerIsLowerCase(w);
    exists r :: r in rows && EqualNoCase(r, w)
  }

  /** The UNIQUE COLLATE NOCASE constraint: no two rows differ by case only. */
  predicate CaseUnique(rows: set<string>)
  {
    forall a, b :: a in rows && b in rows && EqualNoCase(a, b) ==> a == b
  }

  /** The distinct words of ws that the table does not hold in any case. */
  function NewWords(rows: set<string>, ws: seq<string>): (r: set<string>)
    ensures forall v :: v in r ==> v in ws && v !in rows && Lower(v) !in rows
  {
    set w | w in ws && !Known(rows, w)
  }

  /** The table after `INSERT INTO words (word) VALUES (lower(w))`: the row
      is added unless a row equal to it ignoring case is present, in which
      case the IntegrityError is swallowed and the table is unchanged. */
  function Insert(rows: set<string>, w: string): (r: set<string>)
    ensures rows <= r <= rows + {Lower(w)}
    ensures Known(r, w)
  {
    LowerIsLowerCase(w);
    if Known(rows, Lower(w)) then rows else rows + {Lower(w)}
  }

  /** The table after inserting each word of ws in turn. */
  function InsertAll(rows: set<string>, ws: seq<string>): set<string>
  {
    if ws == [] then rows else Insert(InsertAll(rows, ws[..|ws| - 1]), ws[|ws| - 1])
  }

  class Store {
    /** The `word` column of the table. */
    var rows: set<string>

    ghost predicate Valid()
      reads this
    {
      CaseUnique(rows)
    }

    /** `init_db`: CREATE TABLE IF NOT EXISTS keeps the rows of a table
        that already exists; a new database starts from no rows. */
    constructor (existing: set<string>)
      requires CaseUnique(existing)
      ensures Valid() && rows == existing
    {
      rows := existing;
    }

    /** `check_new_words`: one lookup per distinct word, in the unspecified
        order of `set(words)`; the words no row matches are reported. */
    method CheckNewWords(words: seq<string>) returns (newWords: seq<string>)
      ensures NoDuplicates(newWords)
      ensures forall w :: w in newWords <==> w in NewWords(rows, words)
    {
      newWords := [];
      var remaining := set w | w in words;
      while remaining != {}
        invariant remaining <= set w | w in words
        invariant NoDuplicates(newWords)
        invariant forall w :: w in newWords ==> w !in remaining
        invariant forall w :: w in newWords <==> w in words && w !in remaining && !Known(rows, w)
        decreases |remaining|
      {
        var word :| word in remaining;
        remaining := remaining - {word};
        if !Known(rows, word) {
          newWords := newWords + [word];
        }
      }
    }

    /** `add_word_to_db`: the lower-cased word is inserted; a duplicate
        under NOCASE raises IntegrityError, which is ignored. */
    method AddWord(word: string)
      requires Valid()
      modifies this
      ensures Valid()
      ensures rows == Insert(old(rows), word)
    {
      var lowered := Lower(word);
      if !Known(rows, lowered) {
        rows := rows + {lowered};
      }
      InsertKeepsUnique(old(rows), word);
    }
  }

  /** A lookup ignores case: a word and its lower-cased form find the same rows. */
  lemma KnownIgnoresCase(rows: set<string>, w: string)
    ensures Known(rows, Lower(w)) <==> Known(rows, w)
  {
    LowerIsLowerCase(w);
  }

  /** After an insert exactly the words equal to it ignoring case are newly
      known, and rows already present stay. */
  lemma InsertKnows(rows: set<string>, w: string, v: string)
    ensures rows <= Insert(rows, w)
    ensures Known(Insert(rows, w), v) <==> Known(rows, v) || EqualNoCase(v, w)
  {
    LowerIsLowerCase(w);
    KnownIgnoresCase(rows, w);
    if EqualNoCase(v, w) && Known(rows, Lower(w)) {
      var r :| r in rows && EqualNoCase(r, Lower(w));
      assert EqualNoCase(r, v);
    }
  }

  /** The insert keeps the table free of rows that differ by case only. */
  lemma InsertKeepsUnique(rows: set<string>, w: string)
    requires CaseUnique(rows)
    ensures CaseUnique(Insert(rows, w))
  {
    LowerIsLowerCase(w);
  }

  /** Inserting a case variant of a word that was just inserted changes nothing. */
  lemma InsertIdempotent(rows: set<string>, w: string, v: string)
    requires EqualNoCase(v, w)
    ensures Insert(Insert(rows, w), v) == Insert(rows, w)
  {
    LowerIsLowerCase(w);
    LowerIsLowerCase(v);
    assert EqualNoCase(Lower(w), Lower(v));
    if !Known(rows, Lower(w)) {
      assert Lower(w) in Insert(rows, w);
    }
  }

  /** Inserting every word of ws leaves none of them new. */
  lemma {:induction false} InsertAllClearsNewWords(rows: set<string>, ws: seq<string>)
    ensures NewWords(InsertAll(rows, ws), ws) == {}
    ensures forall v :: Known(rows, v) ==> Known(InsertAll(rows, ws), v)
  {
    if ws != [] {
      var init, last := ws[..|ws| - 1], ws[|ws| - 1];
      InsertAllClearsNewWords(rows, init);
      forall v ensures Known(InsertAll(rows, ws), v) <==> Known(InsertAll(rows, init), v) || EqualNoCase(v, last) {
        InsertKnows(InsertAll(rows, init), last, v);
      }
      forall w | w in ws ensures Known(InsertAll(rows, ws), w) {
        if w != last {
          assert w in init;
          assert w !in NewWords(InsertAll(rows, init), init);
        }
      }
    }
  }

  /** The worked example: with "cat" stored, "Cat", "cat" and "dog" leave
      only "dog" new. */
  lemma NewWordsExample()
    ensures NewWords({"cat"}, ["Cat", "cat", "dog"]) == {"dog"}
  {
    assert Lower("Cat") == "cat" && Lower("cat") == "cat" && Lower("dog") == "dog";
    assert EqualNoCase("cat", "Cat") && EqualNoCase("cat", "cat");
    assert !EqualNoCase("cat", "dog");
  }
}
