/** Two- and three-word phrases: the admissibility rule computed on bitsets, the cumulative
    blocks that number the admitted phrases, and the search that finds a phrase by number. */
module Phrases {
  import opened Collections
  import opened WordSets

  const MAX_PHRASE_BYTES := 24

  /** Everything editorial is arbitrary; only shapes and the length masks are fixed. */
  datatype Grammar = Grammar(words: seq<string>, adjective: seq<bool>, compatible: seq<seq<nat>>,
                             adjectiveHeads: seq<seq<nat>>, modifierHeads: seq<seq<nat>>, qualifiers: set<(nat, nat)>,
                             tripleAdjectives: seq<nat>, tripleHeads: seq<nat>, lengthMasks: seq<seq<nat>>)

  predicate Plain(word: string) {
    3 <= |word| <= MAX_PHRASE_BYTES && forall i :: 0 <= i < |word| ==> 'a' <= word[i] <= 'z'
  }

  predicate Vocabulary(words: seq<string>) {
    && |words| <= WORDS * BITS
    && (forall i :: 0 <= i < |words| ==> Plain(words[i]))
    && (forall i, j :: 0 <= i < j < |words| ==> words[i] != words[j])
  }

  predicate Sets(sets: seq<seq<nat>>, n: nat) {
    |sets| == n && forall i :: 0 <= i < n ==> IsSet(sets[i])
  }

  ghost predicate MaskOf(words: seq<string>, mask: seq<nat>, limit: nat) {
    IsSet(mask) && forall i: nat :: Has(mask, i) <==> i < |words| && |words[i]| <= limit
  }

  ghost predicate Valid(g: Grammar) {
    && Vocabulary(g.words) && |g.adjective| == |g.words|
    && Sets(g.compatible, |g.words|) && Sets(g.adjectiveHeads, |g.words|) && Sets(g.modifierHeads, |g.words|)
    && IsSet(g.tripleAdjectives) && IsSet(g.tripleHeads)
    && |g.lengthMasks| == MAX_PHRASE_BYTES + 1
    && forall l :: 0 <= l <= MAX_PHRASE_BYTES ==> MaskOf(g.words, g.lengthMasks[l], l)
  }

  /** Which words are at most `limit` long. */
  method LengthMask(words: seq<string>, limit: nat) returns (mask: seq<nat>)
    requires Vocabulary(words)
    ensures MaskOf(words, mask, limit)
  {
    mask := Empty();
    forall j: nat
      ensures !Has(mask, j)
    {
      ZeroHasNoBits(j % BITS);
    }
    for i := 0 to |words|
      invariant IsSet(mask) && forall j: nat :: Has(mask, j) <==> j < i && |words[j]| <= limit
    {
      if |words[i]| <= limit {
        mask := Add(mask, i);
      }
    }
  }

  // ------------------------------------------------------------- the admissibility rule

  /** A phrase by word numbers; `second` is -1 in a two-word phrase. */
  datatype Phrase = Phrase(first: nat, second: int, head: nat)

  predicate InRange(g: Grammar, a: nat, b: int) {
    a < |g.words| && -1 <= b < |g.words|
  }

  function Prefix(g: Grammar, a: nat, b: int): nat
    requires InRange(g, a, b)
  {
    |g.words[a]| + 1 + if b >= 0 then |g.words[b]| + 1 else 0
  }

  /** The rule: roles must fit, neighbours must be compatible, and the text must be short enough. */
  ghost predicate Admissible(g: Grammar, a: nat, b: int, c: nat)
    requires Valid(g) && InRange(g, a, b)
  {
    && c < |g.words| && Prefix(g, a, b) + |g.words[c]| <= MAX_PHRASE_BYTES && Has(g.compatible[a], c)
    && if b < 0 then Has(g.adjectiveHeads[a], c) || Has(g.modifierHeads[a], c)
       else g.adjective[a] && Has(g.compatible[a], b) && Has(g.compatible[b], c) && Has(g.tripleHeads, c)
            && Has(g.adjectiveHeads[a], c)
            && ((Has(g.tripleAdjectives, a) && Has(g.modifierHeads[b], c))
                || ((a, b as nat) in g.qualifiers && Has(g.adjectiveHeads[b], c)))
  }

  function PairWord(g: Grammar, a: nat, i: nat): nat
    requires Valid(g) && a < |g.words| && i < WORDS
  {
    And(Or(g.adjectiveHeads[a][i], g.modifierHeads[a][i]), g.compatible[a][i])
  }

  function TripleWord(g: Grammar, a: nat, b: nat, i: nat): nat
    requires Valid(g) && a < |g.words| && b < |g.words| && i < WORDS
  {
    var plain := if Has(g.tripleAdjectives, a) then And(g.adjectiveHeads[a][i], g.modifierHeads[b][i]) else 0;
    var qualified := if (a, b) in g.qualifiers then Or(plain, And(g.adjectiveHeads[a][i], g.adjectiveHeads[b][i])) else plain;
    And(qualified, And(And(g.compatible[a][i], g.compatible[b][i]), g.tripleHeads[i]))
  }

  /** The set of heads, one machine word at a time. */
  function HeadWord(g: Grammar, a: nat, b: int, i: nat): nat
    requires Valid(g) && InRange(g, a, b) && i < WORDS
  {
    var remaining := MAX_PHRASE_BYTES - Prefix(g, a, b);
    if remaining < 0 then 0
    else if b < 0 then And(PairWord(g, a, i), g.lengthMasks[remaining][i])
    else if !g.adjective[a] || !Has(g.compatible[a], b) then 0
    else And(TripleWord(g, a, b, i), g.lengthMasks[remaining][i])
  }

  ghost function HeadsOf(g: Grammar, a: nat, b: int): (heads: seq<nat>)
    requires Valid(g) && InRange(g, a, b)
    ensures |heads| == WORDS && forall i :: 0 <= i < WORDS ==> heads[i] == HeadWord(g, a, b, i)
  {
    seq(WORDS, i requires 0 <= i < WORDS => HeadWord(g, a, b, i))
  }

  lemma PairBit(g: Grammar, a: nat, i: nat, j: nat)
    requires Valid(g) && a < |g.words| && i < WORDS
    ensures Bit(PairWord(g, a, i), j) <==>
              (Bit(g.adjectiveHeads[a][i], j) || Bit(g.modifierHeads[a][i], j)) && Bit(g.compatible[a][i], j)
  {
    BitOr(g.adjectiveHeads[a][i], g.modifierHeads[a][i], j);
    BitAnd(Or(g.adjectiveHeads[a][i], g.modifierHeads[a][i]), g.compatible[a][i], j);
  }

  lemma TripleBit(g: Grammar, a: nat, b: nat, i: nat, j: nat)
    requires Valid(g) && a < |g.words| && b < |g.words| && i < WORDS
    ensures Bit(TripleWord(g, a, b, i), j) <==>
              && Bit(g.adjectiveHeads[a][i], j) && Bit(g.compatible[a][i], j) && Bit(g.compatible[b][i], j) && Bit(g.tripleHeads[i], j)
              && ((Has(g.tripleAdjectives, a) && Bit(g.modifierHeads[b][i], j))
                  || ((a, b) in g.qualifiers && Bit(g.adjectiveHeads[b][i], j)))
  {
    ZeroHasNoBits(j);
    BitAnd(g.adjectiveHeads[a][i], g.modifierHeads[b][i], j);
    BitAnd(g.adjectiveHeads[a][i], g.adjectiveHeads[b][i], j);
    var plain := if Has(g.tripleAdjectives, a) then And(g.adjectiveHeads[a][i], g.modifierHeads[b][i]) else 0;
    BitOr(plain, And(g.adjectiveHeads[a][i], g.adjectiveHeads[b][i]), j);
    var qualified := if (a, b) in g.qualifiers then Or(plain, And(g.adjectiveHeads[a][i], g.adjectiveHeads[b][i])) else plain;
    BitAnd(g.compatible[a][i], g.compatible[b][i], j);
    BitAnd(And(g.compatible[a][i], g.compatible[b][i]), g.tripleHeads[i], j);
    BitAnd(qualified, And(And(g.compatible[a][i], g.compatible[b][i]), g.tripleHeads[i]), j);
  }

  lemma HeadBit(g: Grammar, a: nat, b: int, i: nat, j: nat)
    requires Valid(g) && InRange(g, a, b) && i < WORDS
    ensures Bit(HeadWord(g, a, b, i), j) <==>
              && Prefix(g, a, b) <= MAX_PHRASE_BYTES
              && Bit(g.lengthMasks[MAX_PHRASE_BYTES - Prefix(g, a, b)][i], j)
              && if b < 0 then Bit(PairWord(g, a, i), j)
                 else g.adjective[a] && Has(g.compatible[a], b) && Bit(TripleWord(g, a, b, i), j)
  {
    ZeroHasNoBits(j);
    var remaining := MAX_PHRASE_BYTES - Prefix(g, a, b);
    if remaining >= 0 {
      if b < 0 {
        BitAnd(PairWord(g, a, i), g.lengthMasks[remaining][i], j);
      } else {
        BitAnd(TripleWord(g, a, b, i), g.lengthMasks[remaining][i], j);
      }
    }
  }

  /** The bitset computation is the rule. */
  lemma HeadsAreTheRule(g: Grammar, a: nat, b: int, c: nat)
    requires Valid(g) && InRange(g, a, b)
    ensures Has(HeadsOf(g, a, b), c) <==> Admissible(g, a, b, c)
  {
    if c < WORDS * BITS {
      var i, j := c / BITS, c % BITS;
      HeadBit(g, a, b, i, j);
      if Prefix(g, a, b) <= MAX_PHRASE_BYTES {
        assert Has(g.lengthMasks[MAX_PHRASE_BYTES - Prefix(g, a, b)], c) <==>
               c < |g.words| && |g.words[c]| <= MAX_PHRASE_BYTES - Prefix(g, a, b);
      }
      if b < 0 {
        PairBit(g, a, i, j);
      } else {
        TripleBit(g, a, b, i, j);
      }
    }
  }

  lemma HeadWordFits(g: Grammar, a: nat, b: int, i: nat)
    requires Valid(g) && InRange(g, a, b) && i < WORDS
    ensures HeadWord(g, a, b, i) < WORD_LIMIT
  {
    var remaining := MAX_PHRASE_BYTES - Prefix(g, a, b);
    if remaining >= 0 {
      var mask := g.lengthMasks[remaining];
      assert MaskOf(g.words, mask, remaining);
      if b < 0 {
        AndBelow(PairWord(g, a, i), mask[i]);
      } else {
        AndBelow(TripleWord(g, a, b, i), mask[i]);
      }
    }
  }

  lemma HeadsAreASet(g: Grammar, a: nat, b: int)
    requires Valid(g) && InRange(g, a, b)
    ensures IsSet(HeadsOf(g, a, b))
  {
    forall i | 0 <= i < WORDS
      ensures HeadsOf(g, a, b)[i] < WORD_LIMIT
    {
      HeadWordFits(g, a, b, i);
    }
  }

  /** The heads that may end a phrase beginning with `a` (and `b`, unless it is negative). */
  method Heads(g: Grammar, a: nat, b: int) returns (out: seq<nat>)
    requires Valid(g) && InRange(g, a, b)
    ensures out == HeadsOf(g, a, b) && IsSet(out)
  {
    HeadsAreASet(g, a, b);
    var remaining := MAX_PHRASE_BYTES - Prefix(g, a, b);
    out := [];
    for i := 0 to WORDS
      invariant |out| == i && forall k :: 0 <= k < i ==> out[k] == HeadWord(g, a, b, k)
    {
      var w := 0;
      if b < 0 {
        w := And(Or(g.adjectiveHeads[a][i], g.modifierHeads[a][i]), g.compatible[a][i]);
      } else if g.adjective[a] && Has(g.compatible[a], b) {
        if Has(g.tripleAdjectives, a) {
          w := And(g.adjectiveHeads[a][i], g.modifierHeads[b][i]);
        }
        if (a, b as nat) in g.qualifiers {
          w := Or(w, And(g.adjectiveHeads[a][i], g.adjectiveHeads[b][i]));
        }
        w := And(w, And(And(g.compatible[a][i], g.compatible[b][i]), g.tripleHeads[i]));
      }
      if remaining < 0 {
        w := 0;
      } else if b < 0 || (g.adjective[a] && Has(g.compatible[a], b)) {
        w := And(w, g.lengthMasks[remaining][i]);
      }
      out := out + [w];
    }
  }

  // ---------------------------------------------------------------- numbered blocks

  /** All phrases with the same beginning. `end` is the number of phrases up to here. */
  datatype Block = Block(first: nat, second: int, heads: seq<nat>, end: nat)

  function End(blocks: seq<Block>, i: nat): nat
    requires i <= |blocks|
  {
    if i == 0 then 0 else blocks[i - 1].end
  }

  function Capacity(blocks: seq<Block>): nat {
    End(blocks, |blocks|)
  }

  ghost predicate BlockOk(g: Grammar, blocks: seq<Block>, i: nat, triples: bool)
    requires Valid(g) && i < |blocks|
  {
    var x := blocks[i];
    && InRange(g, x.first, x.second) && (x.second >= 0 <==> triples)
    && x.heads == HeadsOf(g, x.first, x.second) && IsSet(x.heads) && Size(x.heads) > 0
    && x.end == End(blocks, i) + Size(x.heads)
  }

  predicate Before(a: nat, b: int, c: nat, d: int) {
    a < c || (a == c && b < d)
  }

  /** Blocks are cumulative, non-empty, and in the order of their beginnings. */
  ghost predicate Numbered(g: Grammar, blocks: seq<Block>, triples: bool)
    requires Valid(g)
  {
    && (forall i :: 0 <= i < |blocks| ==> BlockOk(g, blocks, i, triples))
    && (forall i, j :: 0 <= i < j < |blocks| ==>
          Before(blocks[i].first, blocks[i].second, blocks[j].first, blocks[j].second))
  }

  predicate HasBlock(blocks: seq<Block>, a: nat, b: int) {
    exists i :: 0 <= i < |blocks| && blocks[i].first == a && blocks[i].second == b
  }

  ghost predicate Wanted(g: Grammar, a: nat, b: int)
    requires Valid(g)
  {
    InRange(g, a, b) && Size(HeadsOf(g, a, b)) > 0
  }

  /** Every beginning that has a head, and comes before `(c, d)`, has its block. */
  ghost predicate CoveredBefore(g: Grammar, blocks: seq<Block>, triples: bool, c: nat, d: int)
    requires Valid(g)
  {
    && (forall i :: 0 <= i < |blocks| ==> Before(blocks[i].first, blocks[i].second, c, d))
    && (forall a: nat, b: int :: Wanted(g, a, b) && (b >= 0 <==> triples) && Before(a, b, c, d) ==> HasBlock(blocks, a, b))
  }

  ghost predicate Complete(g: Grammar, blocks: seq<Block>, triples: bool)
    requires Valid(g)
  {
    && Numbered(g, blocks, triples)
    && forall a: nat, b: int :: Wanted(g, a, b) && (b >= 0 <==> triples) ==> HasBlock(blocks, a, b)
  }

  lemma HasBlockStays(blocks: seq<Block>, more: seq<Block>, a: nat, b: int)
    requires blocks <= more && HasBlock(blocks, a, b)
    ensures HasBlock(more, a, b)
  {
  }

  /** Adds the block of one beginning, if any head fits it. */
  method Extend(g: Grammar, blocks: seq<Block>, a: nat, b: int, triples: bool) returns (more: seq<Block>)
    requires Valid(g) && InRange(g, a, b) && (b >= 0 <==> triples)
    requires Numbered(g, blocks, triples) && CoveredBefore(g, blocks, triples, a, b)
    ensures Numbered(g, more, triples) && CoveredBefore(g, more, triples, a, b + 1)
  {
    var heads := Heads(g, a, b);
    var n := Count(heads);
    more := blocks;
    if n > 0 {
      more := blocks + [Block(a, b, heads, End(blocks, |blocks|) + n)];
      assert HasBlock(more, a, b) by {
        assert more[|blocks|].first == a;
      }
    }
    forall i | 0 <= i < |more|
      ensures BlockOk(g, more, i, triples)
    {
      if i < |blocks| {
        assert BlockOk(g, blocks, i, triples);
      }
    }
    forall x: nat, y: int | Wanted(g, x, y) && (y >= 0 <==> triples) && Before(x, y, a, b + 1)
      ensures HasBlock(more, x, y)
    {
      if !(x == a && y == b) {
        HasBlockStays(blocks, more, x, y);
      }
    }
  }

  method BuildPairs(g: Grammar) returns (pairs: seq<Block>)
    requires Valid(g)
    ensures Complete(g, pairs, false)
  {
    pairs := [];
    for a := 0 to |g.words|
      invariant Numbered(g, pairs, false) && CoveredBefore(g, pairs, false, a, -1)
    {
      pairs := Extend(g, pairs, a, -1, false);
    }
  }

  method BuildTriples(g: Grammar) returns (triples: seq<Block>)
    requires Valid(g)
    ensures Complete(g, triples, true)
  {
    triples := [];
    for a := 0 to |g.words|
      invariant Numbered(g, triples, true) && CoveredBefore(g, triples, true, a, 0)
    {
      if g.adjective[a] {
        for b := 0 to |g.words|
          invariant Numbered(g, triples, true) && CoveredBefore(g, triples, true, a, b)
        {
          triples := Extend(g, triples, a, b, true);
        }
      } else {
        NothingAfter(g, a);
      }
    }
  }

  /** A word that is no adjective begins no three-word phrase. */
  lemma NothingAfter(g: Grammar, a: nat)
    requires Valid(g) && a < |g.words| && !g.adjective[a]
    ensures forall b :: 0 <= b ==> !Wanted(g, a, b)
  {
    forall b | 0 <= b < |g.words|
      ensures Size(HeadsOf(g, a, b)) == 0
    {
      NoMembers(HeadsOf(g, a, b), WORDS * BITS);
    }
  }

  lemma {:induction false} NoMembers(s: seq<nat>, i: nat)
    requires |s| == WORDS && forall k :: 0 <= k < WORDS ==> s[k] == 0
    ensures Rank(s, i) == 0
  {
    if i > 0 {
      NoMembers(s, i - 1);
      ZeroHasNoBits((i - 1) % BITS);
    }
  }

  // ------------------------------------------------------------ phrases by number

  /** The block that contains this number: the first one ending above it. */
  function BlockOf(blocks: seq<Block>, n: nat, index: nat): (i: nat)
    requires n <= |blocks| && index < End(blocks, n)
    ensures i < n && End(blocks, i) <= index < blocks[i].end
  {
    if End(blocks, n - 1) <= index then n - 1 else BlockOf(blocks, n - 1, index)
  }

  ghost predicate Admitted(g: Grammar, p: Phrase, triples: bool)
    requires Valid(g)
  {
    InRange(g, p.first, p.second) && (p.second >= 0 <==> triples) && Admissible(g, p.first, p.second, p.head)
  }

  /** The phrase with this number. Every number below the capacity names an admitted phrase. */
  ghost function PhraseOf(g: Grammar, blocks: seq<Block>, triples: bool, index: nat): (p: Phrase)
    requires Valid(g) && Numbered(g, blocks, triples) && index < Capacity(blocks)
    ensures Admitted(g, p, triples)
  {
    var i := BlockOf(blocks, |blocks|, index);
    assert BlockOk(g, blocks, i, triples);
    var head := Select(blocks[i].heads, index - End(blocks, i));
    HeadsAreTheRule(g, blocks[i].first, blocks[i].second, head);
    Phrase(blocks[i].first, blocks[i].second, head)
  }

  lemma {:induction false} EndsGrow(g: Grammar, blocks: seq<Block>, triples: bool, i: nat, j: nat)
    requires Valid(g) && Numbered(g, blocks, triples) && i <= j <= |blocks|
    ensures End(blocks, i) <= End(blocks, j)
    decreases j
  {
    if i < j {
      EndsGrow(g, blocks, triples, i, j - 1);
      assert BlockOk(g, blocks, j - 1, triples);
    }
  }

  lemma BlockIsUnique(g: Grammar, blocks: seq<Block>, triples: bool, index: nat, i: nat)
    requires Valid(g) && Numbered(g, blocks, triples) && i < |blocks| && End(blocks, i) <= index < blocks[i].end
    ensures index < Capacity(blocks) && BlockOf(blocks, |blocks|, index) == i
  {
    EndsGrow(g, blocks, triples, i + 1, |blocks|);
    var k := BlockOf(blocks, |blocks|, index);
    if k < i {
      EndsGrow(g, blocks, triples, k + 1, i);
    } else if i < k {
      EndsGrow(g, blocks, triples, i + 1, k);
    }
  }

  /** Binary search for the first block ending above the number. */
  method Search(g: Grammar, blocks: seq<Block>, triples: bool, index: nat) returns (i: nat)
    requires Valid(g) && Numbered(g, blocks, triples) && index < Capacity(blocks)
    ensures i == BlockOf(blocks, |blocks|, index)
  {
    var low: nat, high: nat := 0, |blocks|;
    while low < high
      invariant low <= high <= |blocks|
      invariant End(blocks, low) <= index
      invariant high < |blocks| ==> index < blocks[high].end
    {
      var middle := (low + high) / 2;
      if blocks[middle].end > index {
        high := middle;
      } else {
        low := middle + 1;
      }
    }
    BlockIsUnique(g, blocks, triples, index, low);
    i := low;
  }

  /** The phrase with this number, if there are that many. */
  method PhraseAt(g: Grammar, blocks: seq<Block>, triples: bool, index: nat) returns (p: Option<Phrase>)
    requires Valid(g) && Numbered(g, blocks, triples)
    ensures p.None? <==> index >= Capacity(blocks)
    ensures p.Some? ==> p.value == PhraseOf(g, blocks, triples, index)
  {
    if index >= Capacity(blocks) {
      return None;
    }
    var i := Search(g, blocks, triples, index);
    assert BlockOk(g, blocks, i, triples);
    var prior := if i > 0 then blocks[i - 1].end else 0;
    var head := At(blocks[i].heads, index - prior);
    return Some(Phrase(blocks[i].first, blocks[i].second, head));
  }

  // ------------------------------------------------------------------ theorems

  /** Different numbers name different phrases. */
  lemma NumbersAreDistinct(g: Grammar, blocks: seq<Block>, triples: bool, x: nat, y: nat)
    requires Valid(g) && Complete(g, blocks, triples) && x < Capacity(blocks) && y < Capacity(blocks)
    requires PhraseOf(g, blocks, triples, x) == PhraseOf(g, blocks, triples, y)
    ensures x == y
  {
  }

  lemma NumberInBlock(g: Grammar, blocks: seq<Block>, triples: bool, i: nat, rank: nat)
    requires Valid(g) && Numbered(g, blocks, triples) && i < |blocks| && |blocks[i].heads| == WORDS && rank < Size(blocks[i].heads)
    ensures var index := End(blocks, i) + rank;
      index < Capacity(blocks)
      && PhraseOf(g, blocks, triples, index) == Phrase(blocks[i].first, blocks[i].second, Select(blocks[i].heads, rank))
  {
    assert BlockOk(g, blocks, i, triples);
    BlockIsUnique(g, blocks, triples, End(blocks, i) + rank, i);
  }

  lemma AdmittedHasBlock(g: Grammar, blocks: seq<Block>, triples: bool, p: Phrase) returns (i: nat)
    requires Valid(g) && Complete(g, blocks, triples) && Admitted(g, p, triples)
    ensures i < |blocks| && blocks[i].first == p.first && blocks[i].second == p.second
    ensures blocks[i].heads == HeadsOf(g, p.first, p.second) && Has(blocks[i].heads, p.head)
  {
    var heads := HeadsOf(g, p.first, p.second);
    HeadsAreTheRule(g, p.first, p.second, p.head);
    SelectInvertsRank(heads, p.head);
    assert Wanted(g, p.first, p.second);
    i :| 0 <= i < |blocks| && blocks[i].first == p.first && blocks[i].second == p.second;
    assert BlockOk(g, blocks, i, triples);
  }

  /** Every admitted phrase has a number, and it is found under it. */
  lemma AdmittedHasNumber(g: Grammar, blocks: seq<Block>, triples: bool, p: Phrase) returns (index: nat)
    requires Valid(g) && Complete(g, blocks, triples) && Admitted(g, p, triples)
    ensures index < Capacity(blocks) && PhraseOf(g, blocks, triples, index) == p
  {
    var i := AdmittedHasBlock(g, blocks, triples, p);
    var rank := Rank(blocks[i].heads, p.head);
    SelectInvertsRank(blocks[i].heads, p.head);
    NumberInBlock(g, blocks, triples, i, rank);
    index := End(blocks, i) + rank;
  }
}
