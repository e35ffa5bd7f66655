/** Names of four to fifteen words: a product of short groups, numbered in mixed radix. */
module ComposedNames {
  import opened NameText
  import opened Phrases
  import opened ReadableNames
  import opened MixedRadix

  // ----------------------------------------------------------------- pools of groups

  datatype Palette = Palette(modifiers: seq<string>, subjects: seq<string>)

  datatype Group = Group(pairs: seq<string>, triples: seq<string>, pairRanks: map<string, nat>, tripleRanks: map<string, nat>)

  predicate AllShort(parts: seq<string>) {
    forall i :: 0 <= i < |parts| ==> Short(parts[i])
  }

  /** A pool lists different texts of the same number of words, and its ranks invert it. */
  predicate PoolOk(pool: seq<string>, ranks: map<string, nat>, width: nat) {
    && (forall i :: 0 <= i < |pool| ==> pool[i] in ranks && ranks[pool[i]] == i)
    && (forall t :: t in ranks ==> ranks[t] < |pool| && pool[ranks[t]] == t)
    && (forall i :: 0 <= i < |pool| ==> |Split(pool[i])| == width && AllShort(Split(pool[i])))
  }

  /** The pool holds exactly the admitted ones of these word lists. */
  ghost predicate PoolOf(g: Grammar, pool: seq<string>, ranks: map<string, nat>, seen: set<seq<string>>, width: nat)
    requires Valid(g)
  {
    && PoolOk(pool, ranks, width)
    && forall t :: t in ranks <==> Listed(g, seen, t)
  }

  ghost predicate Listed(g: Grammar, seen: set<seq<string>>, text: string)
    requires Valid(g)
  {
    Split(text) in seen && AdmitsParts(g, Split(text))
  }

  lemma PoolGrows(pool: seq<string>, ranks: map<string, nat>, width: nat, text: string)
    requires PoolOk(pool, ranks, width) && text !in ranks && |Split(text)| == width && AllShort(Split(text))
    ensures PoolOk(pool + [text], ranks[text := |pool|], width)
  {
  }

  lemma ListedMore(g: Grammar, seen: set<seq<string>>, parts: seq<string>, text: string)
    requires Valid(g) && |parts| > 0 && AllHyphenFree(parts)
    ensures Listed(g, seen + {parts}, text) <==> Listed(g, seen, text) || (text == Join(parts) && AdmitsParts(g, parts))
  {
    JoinSplit(text);
    SplitJoin(parts);
  }

  predicate IndexOf(g: Grammar, index: map<string, nat>) {
    && (forall w :: w in index ==> index[w] < |g.words| && g.words[index[w]] == w)
    && (forall i :: 0 <= i < |g.words| ==> g.words[i] in index)
  }

  method Consider(g: Grammar, index: map<string, nat>, parts: seq<string>, pool: seq<string>, ranks: map<string, nat>,
                  ghost seen: set<seq<string>>) returns (longer: seq<string>, more: map<string, nat>)
    requires ShortVocabulary(g) && IndexOf(g, index) && 2 <= |parts| <= 3 && parts !in seen && AllHyphenFree(parts)
    requires PoolOf(g, pool, ranks, seen, |parts|)
    ensures PoolOf(g, longer, more, seen + {parts}, |parts|)
  {
    longer, more := pool, ranks;
    var ok := Admits(g, index, parts);
    var text := Join(parts);
    SplitJoin(parts);
    if ok {
      assert !Listed(g, seen, text);
      PoolGrows(pool, ranks, |parts|, text);
      more := more[text := |pool|];
      longer := longer + [text];
    }
    forall t
      ensures t in more <==> Listed(g, seen + {parts}, t)
    {
      ListedMore(g, seen, parts, t);
    }
  }

  predicate WordList(words: seq<string>) {
    AllHyphenFree(words) && forall i, j :: 0 <= i < j < |words| ==> words[i] != words[j]
  }

  /** The prefix followed by one of these words. */
  predicate InRow(prefix: seq<string>, words: seq<string>, parts: seq<string>) {
    |parts| == |prefix| + 1 && parts[..|prefix|] == prefix && parts[|prefix|] in words
  }

  lemma InLongerRow(prefix: seq<string>, s: seq<string>, j: nat, parts: seq<string>)
    requires j < |s|
    ensures InRow(prefix, s[..j + 1], parts) <==> InRow(prefix, s[..j], parts) || parts == prefix + [s[j]]
  {
  }

  /** The innermost loop: this prefix with each subject in turn. */
  method ConsiderRow(g: Grammar, index: map<string, nat>, prefix: seq<string>, s: seq<string>, pool: seq<string>,
                     ranks: map<string, nat>, ghost seen: set<seq<string>>)
    returns (longer: seq<string>, more: map<string, nat>, ghost all: set<seq<string>>)
    requires ShortVocabulary(g) && IndexOf(g, index) && 1 <= |prefix| <= 2 && AllHyphenFree(prefix) && WordList(s)
    requires PoolOf(g, pool, ranks, seen, |prefix| + 1) && forall p :: p in seen ==> !InRow(prefix, s, p)
    ensures PoolOf(g, longer, more, all, |prefix| + 1)
    ensures forall p :: p in all <==> p in seen || InRow(prefix, s, p)
  {
    longer, more, all := pool, ranks, seen;
    for j := 0 to |s|
      invariant PoolOf(g, longer, more, all, |prefix| + 1)
      invariant forall p :: p in all <==> p in seen || InRow(prefix, s[..j], p)
    {
      var parts := prefix + [s[j]];
      longer, more := Consider(g, index, parts, longer, more, all);
      all := all + {parts};
      forall p
        ensures p in all <==> p in seen || InRow(prefix, s[..j + 1], p)
      {
        InLongerRow(prefix, s, j, p);
      }
    }
    assert s[..|s|] == s;
  }

  lemma EmptyPool(g: Grammar, width: nat)
    requires Valid(g)
    ensures PoolOf(g, [], map[], {}, width)
  {
  }

  /** All pairs of a modifier and a subject that make an admitted phrase. */
  method BuildPairPool(g: Grammar, index: map<string, nat>, m: seq<string>, s: seq<string>)
    returns (pool: seq<string>, ranks: map<string, nat>)
    requires ShortVocabulary(g) && IndexOf(g, index) && WordList(m) && WordList(s)
    ensures PoolOk(pool, ranks, 2)
    ensures forall t :: t in ranks <==> PairOf(m, s, Split(t)) && AdmitsParts(g, Split(t))
  {
    pool, ranks := [], map[];
    ghost var seen: set<seq<string>> := {};
    EmptyPool(g, 2);
    for i := 0 to |m|
      invariant PoolOf(g, pool, ranks, seen, 2)
      invariant forall p :: p in seen <==> PairOf(m[..i], s, p)
    {
      pool, ranks, seen := ConsiderRow(g, index, [m[i]], s, pool, ranks, seen);
      assert m[..i + 1] == m[..i] + [m[i]];
      forall p
        ensures p in seen <==> PairOf(m[..i + 1], s, p)
      {
        if |p| == 2 {
          assert p[..1] == [p[0]];
        }
      }
    }
    assert m[..|m|] == m;
  }

  predicate PairOf(a: seq<string>, b: seq<string>, p: seq<string>) {
    |p| == 2 && p[0] in a && p[1] in b
  }

  /** All triples of two modifiers and a subject that make an admitted phrase. */
  method BuildTriplePool(g: Grammar, index: map<string, nat>, m: seq<string>, s: seq<string>)
    returns (pool: seq<string>, ranks: map<string, nat>)
    requires ShortVocabulary(g) && IndexOf(g, index) && WordList(m) && WordList(s)
    ensures PoolOk(pool, ranks, 3)
    ensures forall t :: t in ranks <==> TripleOf(m, m, s, Split(t)) && AdmitsParts(g, Split(t))
  {
    pool, ranks := [], map[];
    ghost var seen: set<seq<string>> := {};
    EmptyPool(g, 3);
    for i := 0 to |m|
      invariant PoolOf(g, pool, ranks, seen, 3)
      invariant forall p :: p in seen <==> TripleOf(m[..i], m, s, p)
    {
      ghost var before := seen;
      for j := 0 to |m|
        invariant PoolOf(g, pool, ranks, seen, 3)
        invariant forall p :: p in seen <==> p in before || TripleOf([m[i]], m[..j], s, p)
      {
        forall p
          ensures InRow([m[i], m[j]], s, p) <==> TripleOf([m[i]], [m[j]], s, p)
          ensures TripleOf([m[i]], m[..j + 1], s, p) <==> TripleOf([m[i]], m[..j], s, p) || TripleOf([m[i]], [m[j]], s, p)
        {
        }
        pool, ranks, seen := ConsiderRow(g, index, [m[i], m[j]], s, pool, ranks, seen);
      }
      assert m[..|m|] == m && m[..i + 1] == m[..i] + [m[i]];
    }
    assert m[..|m|] == m;
  }

  predicate TripleOf(a: seq<string>, b: seq<string>, c: seq<string>, p: seq<string>) {
    |p| == 3 && p[0] in a && p[1] in b && p[2] in c
  }

  predicate GroupOk(group: Group) {
    PoolOk(group.pairs, group.pairRanks, 2) && PoolOk(group.triples, group.tripleRanks, 3)
  }

  predicate GroupsOk(groups: seq<Group>) {
    |groups| == GROUPS && forall i :: 0 <= i < GROUPS ==> GroupOk(groups[i])
  }

  /** These words are an admitted phrase of this palette: a modifier and a subject, or, where
      three words are allowed, two modifiers and a subject. */
  ghost predicate PhraseOfPalette(g: Grammar, palette: Palette, parts: seq<string>, tripled: bool)
    requires Valid(g)
  {
    && AdmitsParts(g, parts)
    && if tripled then TripleOf(palette.modifiers, palette.modifiers, palette.subjects, parts)
       else PairOf(palette.modifiers, palette.subjects, parts)
  }

  /** The group lists exactly the admitted phrases of its palette. */
  ghost predicate FromPalette(g: Grammar, group: Group, palette: Palette, first: bool)
    requires Valid(g)
  {
    && (forall t :: t in group.pairRanks <==> PhraseOfPalette(g, palette, Split(t), false))
    && (forall t :: t in group.tripleRanks <==> first && PhraseOfPalette(g, palette, Split(t), true))
  }

  ghost predicate FromPalettes(g: Grammar, groups: seq<Group>, palettes: seq<Palette>)
    requires Valid(g)
  {
    |groups| == |palettes| && forall i :: 0 <= i < |groups| ==> FromPalette(g, groups[i], palettes[i], i == 0)
  }

  /** The group of one palette; only the first group has three-word phrases. */
  method BuildGroup(g: Grammar, index: map<string, nat>, palette: Palette, first: bool) returns (group: Group)
    requires ShortVocabulary(g) && IndexOf(g, index) && WordList(palette.modifiers) && WordList(palette.subjects)
    ensures BuiltOne(g, group, palette, first)
  {
    var pairs, pairRanks := BuildPairPool(g, index, palette.modifiers, palette.subjects);
    var triples: seq<string>, tripleRanks: map<string, nat> := [], map[];
    if first {
      triples, tripleRanks := BuildTriplePool(g, index, palette.modifiers, palette.subjects);
    }
    group := Group(pairs, triples, pairRanks, tripleRanks);
  }

  /** These are the groups of the first palettes. */
  ghost predicate Built(g: Grammar, groups: seq<Group>, palettes: seq<Palette>)
    requires Valid(g)
  {
    |groups| <= |palettes| && forall k :: 0 <= k < |groups| ==> BuiltOne(g, groups[k], palettes[k], k == 0)
  }

  ghost predicate BuiltOne(g: Grammar, group: Group, palette: Palette, first: bool)
    requires Valid(g)
  {
    GroupOk(group) && FromPalette(g, group, palette, first)
  }

  lemma BuiltMore(g: Grammar, groups: seq<Group>, palettes: seq<Palette>, group: Group)
    requires Valid(g) && Built(g, groups, palettes) && |groups| < |palettes|
    requires BuiltOne(g, group, palettes[|groups|], |groups| == 0)
    ensures Built(g, groups + [group], palettes)
  {
    var more := groups + [group];
    forall k | 0 <= k < |more|
      ensures BuiltOne(g, more[k], palettes[k], k == 0)
    {
      if k < |groups| {
        assert BuiltOne(g, groups[k], palettes[k], k == 0);
      }
    }
  }

  /** One group per palette. */
  method BuildGroups(g: Grammar, index: map<string, nat>, palettes: seq<Palette>) returns (groups: seq<Group>)
    requires ShortVocabulary(g) && IndexOf(g, index) && |palettes| == GROUPS
    requires forall i :: 0 <= i < GROUPS ==> WordList(palettes[i].modifiers) && WordList(palettes[i].subjects)
    ensures GroupsOk(groups) && FromPalettes(g, groups, palettes)
  {
    groups := [];
    for i := 0 to GROUPS
      invariant |groups| == i && Built(g, groups, palettes)
    {
      var group := BuildGroup(g, index, palettes[i], i == 0);
      BuiltMore(g, groups, palettes, group);
      groups := groups + [group];
    }
    BuiltAll(g, groups, palettes);
  }

  lemma BuiltAll(g: Grammar, groups: seq<Group>, palettes: seq<Palette>)
    requires Valid(g) && Built(g, groups, palettes) && |groups| == |palettes| == GROUPS
    ensures GroupsOk(groups) && FromPalettes(g, groups, palettes)
  {
    forall k | 0 <= k < GROUPS
      ensures GroupOk(groups[k]) && FromPalette(g, groups[k], palettes[k], k == 0)
    {
      assert BuiltOne(g, groups[k], palettes[k], k == 0);
    }
  }

  // ------------------------------------------------------------- mixed-radix numbers

  predicate Long(count: nat) {
    4 <= count <= MAX_WORD_COUNT
  }

  predicate Tripled(count: nat, i: nat) {
    i == 0 && count % 2 == 1
  }

  function Pool(groups: seq<Group>, count: nat, i: nat): seq<string>
    requires i < |groups|
  {
    if Tripled(count, i) then groups[i].triples else groups[i].pairs
  }

  function Ranks(groups: seq<Group>, count: nat, i: nat): map<string, nat>
    requires i < |groups|
  {
    if Tripled(count, i) then groups[i].tripleRanks else groups[i].pairRanks
  }

  function Width(count: nat, i: nat): nat {
    if Tripled(count, i) then 3 else 2
  }

  /** Where the `i`-th group's words begin. */
  function Offset(count: nat, i: nat): nat {
    if i == 0 then 0 else 2 * i + count % 2
  }

  function Sizes(groups: seq<Group>, count: nat): (sizes: seq<nat>)
    ensures |sizes| == |groups| && forall i :: 0 <= i < |groups| ==> sizes[i] == |Pool(groups, count, i)|
  {
    seq(|groups|, i requires 0 <= i < |groups| => |Pool(groups, count, i)|)
  }

  /** The group texts that these digits select. */
  function TextsOf(groups: seq<Group>, count: nat, digits: seq<nat>): (texts: seq<string>)
    requires DigitsFit(Sizes(groups, count), digits)
    ensures |texts| == |digits| && forall i :: 0 <= i < |digits| ==> texts[i] == Pool(groups, count, i)[digits[i]]
  {
    seq(|digits|, i requires 0 <= i < |digits| => Pool(groups, count, i)[digits[i]])
  }

  /** Every text is in its group. */
  predicate InGroups(groups: seq<Group>, count: nat, texts: seq<string>) {
    |texts| <= |groups| && forall i :: 0 <= i < |texts| ==> texts[i] in Ranks(groups, count, i)
  }

  function DigitsOf(groups: seq<Group>, count: nat, texts: seq<string>): (digits: seq<nat>)
    requires InGroups(groups, count, texts)
    ensures |digits| == |texts| && forall i :: 0 <= i < |texts| ==> digits[i] == Ranks(groups, count, i)[texts[i]]
  {
    seq(|texts|, i requires 0 <= i < |texts| => Ranks(groups, count, i)[texts[i]])
  }

  lemma TextsAndDigits(groups: seq<Group>, count: nat, digits: seq<nat>)
    requires GroupsOk(groups) && DigitsFit(Sizes(groups, count), digits)
    ensures InGroups(groups, count, TextsOf(groups, count, digits))
    ensures DigitsOf(groups, count, TextsOf(groups, count, digits)) == digits
  {
  }

  // ------------------------------------------------------------ texts and their words

  /** The words of the `i`-th group are those of this text. */
  predicate GroupAt(parts: seq<string>, count: nat, i: nat, text: string) {
    Offset(count, i + 1) <= |parts| && parts[Offset(count, i)..Offset(count, i + 1)] == Split(text)
  }

  predicate GroupsAt(parts: seq<string>, count: nat, texts: seq<string>) {
    forall i :: 0 <= i < |texts| ==> GroupAt(parts, count, i, texts[i])
  }

  lemma GroupAppended(parts: seq<string>, count: nat, i: nat, text: string)
    requires |parts| == Offset(count, i) && |Split(text)| == Width(count, i)
    ensures |parts + Split(text)| == Offset(count, i + 1) && GroupAt(parts + Split(text), count, i, text)
  {
  }

  /** Each text has as many words as its group should. */
  predicate TextsFit(count: nat, texts: seq<string>) {
    forall i :: 0 <= i < |texts| ==> |Split(texts[i])| == Width(count, i) && AllShort(Split(texts[i]))
  }

  lemma GroupTextsFit(groups: seq<Group>, count: nat, texts: seq<string>)
    requires GroupsOk(groups) && InGroups(groups, count, texts)
    ensures TextsFit(count, texts)
  {
  }

  /** A name from group texts splits into the words of its groups, each at its offset. */
  lemma {:induction false} NameSplits(count: nat, texts: seq<string>)
    requires TextsFit(count, texts) && |texts| > 0
    ensures |Split(Join(texts))| == Offset(count, |texts|) && AllShort(Split(Join(texts)))
    ensures GroupsAt(Split(Join(texts)), count, texts)
  {
    var n := |texts| - 1;
    var last, front := texts[n], texts[..n];
    assert texts == front + [last];
    if n == 0 {
      GroupAppended([], count, 0, last);
      assert [] + Split(last) == Split(last);
    } else {
      JoinTwo(front, [last]);
      SplitAtHyphen(Join(front), last);
      NameSplits(count, front);
      GroupsAppended(count, Split(Join(front)), front, last);
    }
  }

  lemma GroupsAppended(count: nat, parts: seq<string>, front: seq<string>, last: string)
    requires |parts| == Offset(count, |front|) && GroupsAt(parts, count, front) && |Split(last)| == Width(count, |front|)
    ensures |parts + Split(last)| == Offset(count, |front| + 1) && GroupsAt(parts + Split(last), count, front + [last])
  {
    var texts := front + [last];
    GroupAppended(parts, count, |front|, last);
    forall i | 0 <= i < |front|
      ensures GroupAt(parts + Split(last), count, i, texts[i])
    {
      assert GroupAt(parts, count, i, front[i]);
    }
  }

  /** Joining group by group, or all words at once, gives the same text. */
  lemma {:induction false} GroupsJoin(parts: seq<string>, count: nat, texts: seq<string>)
    requires |texts| > 0 && Offset(count, |texts|) <= |parts| && GroupsAt(parts, count, texts)
    ensures Join(texts) == Join(parts[..Offset(count, |texts|)])
  {
    var n := |texts| - 1;
    var a, b := Offset(count, n), Offset(count, n + 1);
    JoinSplit(texts[n]);
    assert GroupAt(parts, count, n, texts[n]);
    if n == 0 {
      assert parts[0..b] == parts[..b];
    } else {
      var front := texts[..n];
      assert forall i :: 0 <= i < n ==> front[i] == texts[i];
      GroupsJoin(parts, count, front);
      assert texts == front + [texts[n]];
      JoinTwo(front, [texts[n]]);
      JoinTwo(parts[..a], parts[a..b]);
      assert parts[..b] == parts[..a] + parts[a..b];
    }
  }
}
