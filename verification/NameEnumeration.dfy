/** The whole enumeration of readable names: how many there are for each word count, the name of
    every rank, and which texts the matching grammar accepts. */
module NameEnumeration {
  import opened ComposedNames
  import opened MixedRadix
  import opened NameText
  import opened Phrases
  import opened ReadableNames

  datatype Naming = Naming(g: Grammar, pairs: seq<Block>, triples: seq<Block>, groups: seq<Group>)

  datatype Result = Name(text: string) | WordCountError | IndexError

  ghost predicate NamingOk(n: Naming) {
    ShortVocabulary(n.g) && Complete(n.g, n.pairs, false) && Complete(n.g, n.triples, true) && GroupsOk(n.groups)
  }

  function Blocks(n: Naming, count: nat): seq<Block> {
    if count == 3 then n.triples else n.pairs
  }

  // ------------------------------------------------------------- specification

  function CapacityOf(n: Naming, count: int): nat
    requires |n.groups| == GROUPS
  {
    if count < MIN_WORD_COUNT || count > MAX_WORD_COUNT then 0
    else if count <= 3 then Phrases.Capacity(Blocks(n, count))
    else Product(Sizes(n.groups, count), count / 2)
  }

  ghost function LongName(n: Naming, count: nat, rank: nat): string
    requires NamingOk(n) && Long(count) && rank < CapacityOf(n, count)
  {
    Join(TextsOf(n.groups, count, Digits(Sizes(n.groups, count), count / 2, rank)))
  }

  /** The name of this rank. */
  ghost function NameOf(n: Naming, count: nat, rank: nat): string
    requires NamingOk(n) && rank < CapacityOf(n, count)
  {
    if count <= 3 then ShortName(n.g, Blocks(n, count), count, rank) else LongName(n, count, rank)
  }

  predicate Letters(word: string) {
    3 <= |word| <= 24 && forall i :: 0 <= i < |word| ==> 'a' <= word[i] <= 'z'
  }

  /** A text that normalisation leaves as it is. */
  predicate Normal(text: string) {
    && |text| <= MAX_NAME_BYTES && MIN_WORD_COUNT <= |Split(text)| <= MAX_WORD_COUNT
    && forall i :: 0 <= i < |Split(text)| ==> Letters(Split(text)[i])
  }

  predicate GroupListed(groups: seq<Group>, parts: seq<string>, i: nat)
    requires i < |groups| && Offset(|parts|, i + 1) <= |parts|
  {
    Join(parts[Offset(|parts|, i)..Offset(|parts|, i + 1)]) in Ranks(groups, |parts|, i)
  }

  predicate ParsesComposed(groups: seq<Group>, parts: seq<string>)
    requires |groups| == GROUPS
  {
    Long(|parts|) && forall i :: 0 <= i < |parts| / 2 ==> GroupListed(groups, parts, i)
  }

  /** The grammar for this word count accepts the text. */
  ghost predicate Accepts(n: Naming, count: nat, text: string)
    requires NamingOk(n)
  {
    && Normal(text) && |Split(text)| == count
    && if count <= 3 then AdmitsParts(n.g, Split(text)) else ParsesComposed(n.groups, Split(text))
  }

  // --------------------------------------------------------- the imperative form

  method CapacityBig(n: Naming, count: int) returns (capacity: nat)
    requires |n.groups| == GROUPS
    ensures capacity == CapacityOf(n, count)
  {
    if count < MIN_WORD_COUNT || count > MAX_WORD_COUNT {
      return 0;
    }
    if count <= 3 {
      var blocks := if count == 3 then n.triples else n.pairs;
      return if |blocks| == 0 then 0 else blocks[|blocks| - 1].end;
    }
    capacity := 1;
    for i := 0 to count / 2
      invariant capacity == Product(Sizes(n.groups, count), i)
    {
      var size := |n.groups[i].pairs|;
      if i == 0 && count % 2 == 1 {
        size := |n.groups[i].triples|;
      }
      capacity := capacity * size;
    }
  }

  /** Selects the name of an exact rank. */
  method AtBig(n: Naming, index: int, count: int) returns (r: Result)
    requires NamingOk(n)
    ensures r == WordCountError <==> CapacityOf(n, count) == 0
    ensures r == IndexError <==> CapacityOf(n, count) > 0 && !(0 <= index < CapacityOf(n, count))
    ensures r.Name? ==> r.text == NameOf(n, count, index)
  {
    var capacity := CapacityBig(n, count);
    if capacity == 0 {
      return WordCountError;
    }
    if index < 0 || index >= capacity {
      return IndexError;
    }
    if count <= 3 {
      var p := PhraseAt(n.g, Blocks(n, count), count == 3, index);
      return Name(Join(WordsOf(n.g, p.value)));
    }
    ghost var sizes := Sizes(n.groups, count);
    var texts := SelectTexts(n.groups, count, count / 2, index, Digits(sizes, count / 2, index), Trail(sizes, count / 2, index));
    return Name(Join(texts));
  }

  /** Divides the rank down, from the last group to the first. `trail` are the quotients on the
      way and `digits` the remainders. */
  method SelectTexts(groups: seq<Group>, count: nat, n: nat, index: nat, ghost digits: seq<nat>, ghost trail: seq<nat>)
    returns (texts: seq<string>)
    requires |digits| == n <= |groups| && DigitsFit(Sizes(groups, count), digits)
    requires |trail| == n + 1 && trail[n] == index
    requires forall i :: 0 <= i < n ==> Divides(Sizes(groups, count), digits, trail, i)
    ensures texts == TextsOf(groups, count, digits)
  {
    var rank: nat := index;
    var chosen := new string[n](_ => "");
    var i: nat := n;
    while i > 0
      invariant i <= n && rank == trail[i]
      invariant forall k :: i <= k < n ==> chosen[k] == Pool(groups, count, k)[digits[k]]
    {
      i := i - 1;
      var pool := Pool(groups, count, i);
      assert Divides(Sizes(groups, count), digits, trail, i);
      chosen[i] := pool[rank % |pool|];
      rank := rank / |pool|;
    }
    texts := chosen[..];
  }

  method ParseComposed(groups: seq<Group>, parts: seq<string>) returns (ok: bool)
    requires |groups| == GROUPS
    ensures ok <==> ParsesComposed(groups, parts)
  {
    if |parts| < 4 || |parts| > MAX_WORD_COUNT {
      return false;
    }
    var offset := 0;
    for i := 0 to |parts| / 2
      invariant offset == Offset(|parts|, i)
      invariant forall k :: 0 <= k < i ==> GroupListed(groups, parts, k)
    {
      var width, lookup := 2, groups[i].pairRanks;
      if i == 0 && |parts| % 2 == 1 {
        width, lookup := 3, groups[i].tripleRanks;
      }
      assert Offset(|parts|, i + 1) == offset + width;
      if Join(parts[offset..offset + width]) !in lookup {
        assert !GroupListed(groups, parts, i);
        return false;
      }
      offset := offset + width;
    }
    return offset == |parts|;
  }

  /** Any vocabulary of distinct words, any editorial data and any palettes make an enumeration. */
  method Build(g: Grammar, palettes: seq<Palette>) returns (n: Naming)
    requires ShortVocabulary(g) && |palettes| == GROUPS
    requires forall i :: 0 <= i < GROUPS ==> WordList(palettes[i].modifiers) && WordList(palettes[i].subjects)
    ensures NamingOk(n) && n.g == g && FromPalettes(g, n.groups, palettes)
  {
    var index := BuildIndex(g.words);
    var pairs := BuildPairs(g);
    var triples := BuildTriples(g);
    var groups := BuildGroups(g, index, palettes);
    n := Naming(g, pairs, triples, groups);
  }

  // ------------------------------------------------------------------ theorems

  /** The words of the `i`-th group. */
  function GroupWords(parts: seq<string>, i: nat): seq<string>
    requires Offset(|parts|, i + 1) <= |parts|
  {
    parts[Offset(|parts|, i)..Offset(|parts|, i + 1)]
  }

  lemma GroupListedIff(n: Naming, palettes: seq<Palette>, parts: seq<string>, i: nat)
    requires NamingOk(n) && FromPalettes(n.g, n.groups, palettes) && AllHyphenFree(parts) && Long(|parts|) && i < |parts| / 2
    ensures GroupListed(n.groups, parts, i) <==> PhraseOfPalette(n.g, palettes[i], GroupWords(parts, i), Tripled(|parts|, i))
  {
    SplitJoin(GroupWords(parts, i));
    assert FromPalette(n.g, n.groups[i], palettes[i], i == 0);
  }

  /** A long text is accepted exactly if each of its groups is an admitted phrase of its palette. */
  lemma LongAcceptedIff(n: Naming, palettes: seq<Palette>, count: nat, text: string)
    requires NamingOk(n) && FromPalettes(n.g, n.groups, palettes) && Long(count)
    ensures Accepts(n, count, text) <==>
              Normal(text) && |Split(text)| == count &&
              forall i :: 0 <= i < count / 2 ==> PhraseOfPalette(n.g, palettes[i], GroupWords(Split(text), i), Tripled(count, i))
  {
    JoinSplit(text);
    if |Split(text)| == count {
      forall i | 0 <= i < count / 2
        ensures GroupListed(n.groups, Split(text), i)
           <==> PhraseOfPalette(n.g, palettes[i], GroupWords(Split(text), i), Tripled(count, i))
      {
        GroupListedIff(n, palettes, Split(text), i);
      }
    }
  }

  lemma {:induction false} ShortWordsFit(parts: seq<string>)
    requires |parts| > 0 && AllShort(parts)
    ensures |Join(parts)| <= 9 * |parts| - 1
  {
    if |parts| > 1 {
      ShortWordsFit(parts[1..]);
    }
  }

  lemma ShortWordsAreNormal(text: string)
    requires MIN_WORD_COUNT <= |Split(text)| <= MAX_WORD_COUNT && AllShort(Split(text))
    ensures Normal(text)
  {
    JoinSplit(text);
    ShortWordsFit(Split(text));
    forall i | 0 <= i < |Split(text)|
      ensures Letters(Split(text)[i])
    {
      assert Short(Split(text)[i]);
    }
  }

  /** The texts that a long rank selects, and how its name splits. */
  lemma LongNameSplits(n: Naming, count: nat, rank: nat)
    requires NamingOk(n) && Long(count) && rank < CapacityOf(n, count)
    ensures var texts := TextsOf(n.groups, count, Digits(Sizes(n.groups, count), count / 2, rank));
      var parts := Split(LongName(n, count, rank));
      && InGroups(n.groups, count, texts) && |texts| == count / 2
      && |parts| == count && AllShort(parts) && GroupsAt(parts, count, texts)
  {
    var digits := Digits(Sizes(n.groups, count), count / 2, rank);
    var texts := TextsOf(n.groups, count, digits);
    TextsAndDigits(n.groups, count, digits);
    GroupTextsFit(n.groups, count, texts);
    NameSplits(count, texts);
  }

  lemma LongNameParses(n: Naming, count: nat, rank: nat)
    requires NamingOk(n) && Long(count) && rank < CapacityOf(n, count)
    ensures ParsesComposed(n.groups, Split(LongName(n, count, rank)))
  {
    LongNameSplits(n, count, rank);
    var texts := TextsOf(n.groups, count, Digits(Sizes(n.groups, count), count / 2, rank));
    var parts := Split(LongName(n, count, rank));
    forall i | 0 <= i < count / 2
      ensures GroupListed(n.groups, parts, i)
    {
      assert GroupAt(parts, count, i, texts[i]);
      JoinSplit(texts[i]);
    }
  }

  /** Every rank below the capacity names a text that the matching grammar accepts. */
  lemma NameIsAccepted(n: Naming, count: nat, rank: nat)
    requires NamingOk(n) && rank < CapacityOf(n, count)
    ensures Accepts(n, count, NameOf(n, count, rank))
  {
    var text := NameOf(n, count, rank);
    if count <= 3 {
      ShortNameParses(n.g, Blocks(n, count), count, rank);
    } else {
      LongNameSplits(n, count, rank);
      LongNameParses(n, count, rank);
    }
    ShortWordsAreNormal(text);
  }

  lemma LongNamesAreDistinct(n: Naming, count: nat, x: nat, y: nat)
    requires NamingOk(n) && Long(count) && x < CapacityOf(n, count) && y < CapacityOf(n, count)
    requires LongName(n, count, x) == LongName(n, count, y)
    ensures x == y
  {
    var sizes := Sizes(n.groups, count);
    var a, b := Digits(sizes, count / 2, x), Digits(sizes, count / 2, y);
    LongNameSplits(n, count, x);
    LongNameSplits(n, count, y);
    SameGroups(Split(LongName(n, count, x)), count, TextsOf(n.groups, count, a), TextsOf(n.groups, count, b));
    TextsAndDigits(n.groups, count, a);
    TextsAndDigits(n.groups, count, b);
    NumberOfDigits(sizes, count / 2, x);
    NumberOfDigits(sizes, count / 2, y);
  }

  /** The words determine the texts of the groups. */
  lemma SameGroups(parts: seq<string>, count: nat, a: seq<string>, b: seq<string>)
    requires |a| == |b| && GroupsAt(parts, count, a) && GroupsAt(parts, count, b)
    ensures a == b
  {
    forall i | 0 <= i < |a|
      ensures a[i] == b[i]
    {
      assert GroupAt(parts, count, i, a[i]) && GroupAt(parts, count, i, b[i]);
      JoinSplit(a[i]);
      JoinSplit(b[i]);
    }
  }

  /** Different ranks have different names. */
  lemma NamesAreDistinct(n: Naming, count: nat, x: nat, y: nat)
    requires NamingOk(n) && x < CapacityOf(n, count) && y < CapacityOf(n, count)
    requires NameOf(n, count, x) == NameOf(n, count, y)
    ensures x == y
  {
    if count <= 3 {
      ShortNamesAreDistinct(n.g, Blocks(n, count), count, x, y);
    } else {
      LongNamesAreDistinct(n, count, x, y);
    }
  }

  /** The group texts of an accepted list of words. */
  function TextsIn(parts: seq<string>): (texts: seq<string>)
    requires Long(|parts|)
    ensures |texts| == |parts| / 2
    ensures forall i :: 0 <= i < |texts| ==> texts[i] == Join(parts[Offset(|parts|, i)..Offset(|parts|, i + 1)])
  {
    seq(|parts| / 2, i requires 0 <= i < |parts| / 2 => Join(parts[Offset(|parts|, i)..Offset(|parts|, i + 1)]))
  }

  lemma TextsInAreGroups(groups: seq<Group>, parts: seq<string>)
    requires GroupsOk(groups) && ParsesComposed(groups, parts) && AllHyphenFree(parts)
    ensures InGroups(groups, |parts|, TextsIn(parts)) && GroupsAt(parts, |parts|, TextsIn(parts))
  {
    var texts := TextsIn(parts);
    forall i | 0 <= i < |texts|
      ensures texts[i] in Ranks(groups, |parts|, i) && GroupAt(parts, |parts|, i, texts[i])
    {
      assert GroupListed(groups, parts, i);
      SplitJoin(parts[Offset(|parts|, i)..Offset(|parts|, i + 1)]);
    }
  }

  /** Texts from the groups have a rank. */
  lemma TextsAreRanked(groups: seq<Group>, count: nat, texts: seq<string>) returns (rank: nat)
    requires GroupsOk(groups) && InGroups(groups, count, texts)
    ensures rank < Product(Sizes(groups, count), |texts|)
    ensures TextsOf(groups, count, Digits(Sizes(groups, count), |texts|, rank)) == texts
  {
    var sizes, digits := Sizes(groups, count), DigitsOf(groups, count, texts);
    DigitsOfNumber(sizes, digits, |texts|);
    assert digits[..|texts|] == digits;
    rank := Number(sizes, digits, |texts|);
  }

  lemma OffsetsEnd(count: nat)
    requires Long(count)
    ensures Offset(count, count / 2) == count
  {
  }

  lemma GroupsMakeAll(parts: seq<string>, count: nat, texts: seq<string>)
    requires Long(count) && |parts| == count && |texts| == count / 2 && GroupsAt(parts, count, texts)
    ensures Join(texts) == Join(parts)
  {
    OffsetsEnd(count);
    GroupsJoin(parts, count, texts);
    assert parts[..count] == parts;
  }

  lemma TextsInJoin(groups: seq<Group>, text: string)
    requires GroupsOk(groups) && ParsesComposed(groups, Split(text))
    ensures InGroups(groups, |Split(text)|, TextsIn(Split(text))) && Join(TextsIn(Split(text))) == text
  {
    JoinSplit(text);
    TextsInAreGroups(groups, Split(text));
    GroupsMakeAll(Split(text), |Split(text)|, TextsIn(Split(text)));
  }

  lemma LongNameIsRanked(n: Naming, count: nat, text: string) returns (rank: nat)
    requires NamingOk(n) && |Split(text)| == count && ParsesComposed(n.groups, Split(text))
    ensures rank < CapacityOf(n, count) && LongName(n, count, rank) == text
  {
    TextsInJoin(n.groups, text);
    rank := TextsAreRanked(n.groups, count, TextsIn(Split(text)));
  }

  /** Every text that the matching grammar accepts is the name of a rank below the capacity. */
  lemma AcceptedIsNamed(n: Naming, count: nat, text: string) returns (rank: nat)
    requires NamingOk(n) && Accepts(n, count, text)
    ensures rank < CapacityOf(n, count) && NameOf(n, count, rank) == text
  {
    if count <= 3 {
      rank := ShortNameIsNumbered(n.g, Blocks(n, count), count, text);
    } else {
      rank := LongNameIsRanked(n, count, text);
    }
  }
}
