/** Readable names of two to fifteen words: short phrases by number, longer names as a mixed-radix
    product of short groups, and the parsers that recognise both. */
module ReadableNames {
  import opened NameText
  import opened Phrases
  import opened WordSets

  const MIN_WORD_COUNT := 2
  const MAX_WORD_COUNT := 15
  const MAX_NAME_BYTES := 134
  const GROUPS := 7

  // ----------------------------------------------------------------- short names

  /** A vocabulary word as the lists have it: three to eight letters. */
  predicate Short(word: string) {
    Plain(word) && |word| <= 8
  }

  ghost predicate ShortVocabulary(g: Grammar) {
    Valid(g) && forall i :: 0 <= i < |g.words| ==> |g.words[i]| <= 8
  }

  function WordsOf(g: Grammar, p: Phrase): (parts: seq<string>)
    requires InRange(g, p.first, p.second) && p.head < |g.words|
    ensures |parts| == if p.second >= 0 then 3 else 2
  {
    if p.second >= 0 then [g.words[p.first], g.words[p.second], g.words[p.head]]
    else [g.words[p.first], g.words[p.head]]
  }

  /** These words, in this order, make an admitted phrase. */
  ghost predicate AdmitsParts(g: Grammar, parts: seq<string>)
    requires Valid(g)
  {
    exists p :: Admitted(g, p, |parts| == 3) && WordsOf(g, p) == parts
  }

  /** Words determine word numbers. */
  lemma WordsAreFaithful(g: Grammar, p: Phrase, q: Phrase)
    requires Valid(g) && InRange(g, p.first, p.second) && p.head < |g.words|
    requires InRange(g, q.first, q.second) && q.head < |g.words|
    requires WordsOf(g, p) == WordsOf(g, q)
    ensures p == q
  {
  }

  /** The position of every vocabulary word. */
  method BuildIndex(words: seq<string>) returns (index: map<string, nat>)
    requires Vocabulary(words)
    ensures forall w :: w in index <==> w in words
    ensures forall w :: w in index ==> index[w] < |words| && words[index[w]] == w
  {
    index := map[];
    for i := 0 to |words|
      invariant forall w :: w in index <==> w in words[..i]
      invariant forall w :: w in index ==> index[w] < i && words[index[w]] == w
    {
      index := index[words[i] := i];
      assert words[..i + 1] == words[..i] + [words[i]];
    }
    assert words[..|words|] == words;
  }

  /** Looks the words up and asks whether the last one is among the heads of the others. */
  method Admits(g: Grammar, index: map<string, nat>, parts: seq<string>) returns (ok: bool)
    requires Valid(g) && 2 <= |parts| <= 3
    requires forall w :: w in index <==> w in g.words
    requires forall w :: w in index ==> index[w] < |g.words| && g.words[index[w]] == w
    ensures ok <==> AdmitsParts(g, parts)
  {
    var ids: seq<nat> := [];
    for i := 0 to |parts|
      invariant |ids| == i && forall k :: 0 <= k < i ==> ids[k] < |g.words| && g.words[ids[k]] == parts[k]
    {
      if parts[i] !in index {
        return false;
      }
      ids := ids + [index[parts[i]]];
    }
    var second: int := -1;
    if |parts| == 3 {
      second := ids[1];
    }
    var heads := Heads(g, ids[0], second);
    ok := WordSets.Has(heads, ids[|parts| - 1]);
    HeadsAreTheRule(g, ids[0], second, ids[|parts| - 1]);
    AdmitsIds(g, parts, Phrase(ids[0], second, ids[|parts| - 1]));
  }

  lemma AdmitsIds(g: Grammar, parts: seq<string>, p: Phrase)
    requires Valid(g) && InRange(g, p.first, p.second) && p.head < |g.words| && WordsOf(g, p) == parts
    ensures Admissible(g, p.first, p.second, p.head) <==> AdmitsParts(g, parts)
  {
  }

  /** The text of the phrase with this number. */
  ghost function ShortName(g: Grammar, blocks: seq<Block>, count: nat, index: nat): string
    requires Valid(g) && Complete(g, blocks, count == 3) && index < Phrases.Capacity(blocks)
  {
    Join(WordsOf(g, PhraseOf(g, blocks, count == 3, index)))
  }

  lemma ShortNameParses(g: Grammar, blocks: seq<Block>, count: nat, index: nat)
    requires Valid(g) && 2 <= count <= 3 && Complete(g, blocks, count == 3) && index < Phrases.Capacity(blocks)
    ensures |Split(ShortName(g, blocks, count, index))| == count
    ensures Split(ShortName(g, blocks, count, index)) == WordsOf(g, PhraseOf(g, blocks, count == 3, index))
    ensures AdmitsParts(g, Split(ShortName(g, blocks, count, index)))
  {
    var p := PhraseOf(g, blocks, count == 3, index);
    var parts := WordsOf(g, p);
    assert Admitted(g, p, |parts| == 3);
    SplitJoin(parts);
  }

  lemma ShortNamesAreDistinct(g: Grammar, blocks: seq<Block>, count: nat, x: nat, y: nat)
    requires Valid(g) && 2 <= count <= 3 && Complete(g, blocks, count == 3)
    requires x < Phrases.Capacity(blocks) && y < Phrases.Capacity(blocks)
    requires ShortName(g, blocks, count, x) == ShortName(g, blocks, count, y)
    ensures x == y
  {
    ShortNameParses(g, blocks, count, x);
    ShortNameParses(g, blocks, count, y);
    WordsAreFaithful(g, PhraseOf(g, blocks, count == 3, x), PhraseOf(g, blocks, count == 3, y));
    NumbersAreDistinct(g, blocks, count == 3, x, y);
  }

  lemma ShortNameIsNumbered(g: Grammar, blocks: seq<Block>, count: nat, text: string) returns (index: nat)
    requires Valid(g) && 2 <= count <= 3 && Complete(g, blocks, count == 3)
    requires |Split(text)| == count && AdmitsParts(g, Split(text))
    ensures index < Phrases.Capacity(blocks) && ShortName(g, blocks, count, index) == text
  {
    var parts := Split(text);
    var p :| Admitted(g, p, |parts| == 3) && WordsOf(g, p) == parts;
    index := AdmittedHasNumber(g, blocks, count == 3, p);
    JoinSplit(text);
  }

  /** The roles of the words fit: a fitting pair, or an adjective, a middle word and a head. */
  ghost predicate RolesFit(g: Grammar, p: Phrase)
    requires Valid(g) && InRange(g, p.first, p.second)
  {
    && Has(g.compatible[p.first], p.head)
    && (p.second < 0 ==> Has(g.adjectiveHeads[p.first], p.head) || Has(g.modifierHeads[p.first], p.head))
    && (p.second >= 0 ==>
          && g.adjective[p.first] && Has(g.compatible[p.first], p.second) && Has(g.compatible[p.second], p.head)
          && Has(g.tripleHeads, p.head) && Has(g.adjectiveHeads[p.first], p.head)
          && ((Has(g.tripleAdjectives, p.first) && Has(g.modifierHeads[p.second], p.head))
              || ((p.first, p.second as nat) in g.qualifiers && Has(g.adjectiveHeads[p.second], p.head))))
  }

  /** A phrase is admitted exactly if the roles of its words fit and its text has at most 24 characters. */
  lemma AdmittedIffShort(g: Grammar, p: Phrase)
    requires Valid(g) && InRange(g, p.first, p.second) && p.head < |g.words|
    ensures Admitted(g, p, p.second >= 0) <==> RolesFit(g, p) && |Join(WordsOf(g, p))| <= MAX_PHRASE_BYTES
  {
    var parts := WordsOf(g, p);
    assert |Join(parts[|parts| - 1..])| == |g.words[p.head]|;
    if p.second >= 0 {
      assert parts[1..] == [g.words[p.second], g.words[p.head]];
      assert parts[1..][1..] == [g.words[p.head]];
    } else {
      assert parts[1..] == [g.words[p.head]];
    }
  }
}
