/** The direct reading of a time field: the word between blanks, by itself. */
module CronWords {
  import opened CronText
  import opened CronSyntax
  import opened CronFields

  /** The word that begins at `p`: everything up to a blank, the end of the line or of the text. */
  function Word(s: string, p: nat): string
    requires p <= |s|
  {
    s[p..RunEnd(s, p, Nonblanks)]
  }

  function NextWord(s: string, p: nat): (q: nat)
    requires p <= |s|
    ensures p <= q <= |s|
  {
    RunEnd(s, RunEnd(s, p, Nonblanks), Blanks)
  }

  /** The list that a word spells, whatever stands after the list in the word. */
  function WordList(word: string): seq<Item> {
    ListAt(word, 0).0
  }

  /** Whether a word, as a field with bounds `b`, names the value `v`. */
  predicate WordNames(word: string, b: Bounds, v: int) {
    ListDenotes(WordList(word), b, v)
  }

  lemma {:induction false} RunSuffix(s: string, p: nat, q: nat, run: CharClass)
    requires p <= |s| && p <= q <= RunEnd(s, p, run)
    ensures RunEnd(s, q, run) == RunEnd(s, p, run)
    decreases q - p
  {
    if p < q {
      RunSuffix(s, p + 1, q, run);
    }
  }

  /** What follows the list in its word, or ends the word, does not make the list longer. */
  lemma WordListEnds(s: string, p: nat, w: string, item: Item, end: nat)
    requires p <= |s| && w == Word(s, p) && end <= |w| && EndsList(w, end, item)
    ensures EndsList(s, p + end, item)
  {
    RunEndStops(s, p, Nonblanks);
    if end < |w| {
      assert s[p + end] == w[end];
    }
  }

  lemma WordWithin(s: string, p: nat)
    requires p <= |s|
    ensures Within(Word(s, p), s, p)
  {}

  lemma WordListReads(s: string, p: nat)
    requires p <= |s|
    ensures ListAt(s, p).0 == WordList(Word(s, p)) && ListAt(s, p).1 == p + ListAt(Word(s, p), 0).1
  {
    var w := Word(s, p);
    var items, end := ListAt(w, 0).0, ListAt(w, 0).1;
    ListIsSpelled(w, 0);
    WordWithin(s, p);
    ListWithin(w, s, p, 0, items, end, p, p + end);
    WordListEnds(s, p, w, Last(items), end);
    ListReads(s, p, items, p + end);
  }

  /** The compiler never reads past the word, and what it reads depends on the word alone. */
  lemma FieldIsWord(s: string, p: nat)
    requires p <= |s|
    ensures ListAt(s, p).0 == WordList(Word(s, p))
    ensures NextField(s, p) == NextWord(s, p)
  {
    WordListReads(s, p);
    RunSuffix(s, p, ListAt(s, p).1, Nonblanks);
  }
}
