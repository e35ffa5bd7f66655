/** Words joined by hyphens, and taken apart again. */
module NameText {

  function Join(parts: seq<string>): string
    requires |parts| > 0
  {
    if |parts| == 1 then parts[0] else parts[0] + "-" + Join(parts[1..])
  }

  function Split(text: string): (parts: seq<string>)
    ensures |parts| > 0
  {
    if text == "" then [""] else Prepend(text[0], Split(text[1..]))
  }

  /** A character in front of a text that is already split. */
  function Prepend(c: char, parts: seq<string>): (longer: seq<string>)
    requires |parts| > 0
    ensures |longer| > 0
  {
    if c == '-' then [""] + parts else [[c] + parts[0]] + parts[1..]
  }

  predicate HyphenFree(word: string) {
    '-' !in word
  }

  predicate AllHyphenFree(parts: seq<string>) {
    forall i :: 0 <= i < |parts| ==> HyphenFree(parts[i])
  }

  /** Splitting at a hyphen splits both sides. */
  lemma {:induction false} SplitAtHyphen(x: string, y: string)
    ensures Split(x + "-" + y) == Split(x) + Split(y)
  {
    var all := x + "-" + y;
    if x == "" {
      assert all == ['-'] + y && all[1..] == y;
      assert Split(x) == [""];
    } else {
      assert all[0] == x[0] && all[1..] == x[1..] + "-" + y;
      SplitAtHyphen(x[1..], y);
    }
  }

  lemma {:induction false} SplitWord(word: string)
    requires HyphenFree(word)
    ensures Split(word) == [word]
  {
    if word != "" {
      assert forall c :: c in word[1..] ==> c in word;
      SplitWord(word[1..]);
      assert [word[0]] + word[1..] == word;
    }
  }

  /** Splitting what was joined from plain words gives the words back. */
  lemma {:induction false} SplitJoin(parts: seq<string>)
    requires |parts| > 0 && AllHyphenFree(parts)
    ensures Split(Join(parts)) == parts
  {
    SplitWord(parts[0]);
    if |parts| > 1 {
      SplitAtHyphen(parts[0], Join(parts[1..]));
      SplitJoin(parts[1..]);
      assert [parts[0]] + parts[1..] == parts;
    }
  }

  /** Joining what was split gives the text back, and the parts are plain. */
  lemma {:induction false} JoinSplit(text: string)
    ensures Join(Split(text)) == text && AllHyphenFree(Split(text))
  {
    if text != "" {
      JoinSplit(text[1..]);
      var rest := Split(text[1..]);
      if text[0] == '-' {
        assert ([""] + rest)[1..] == rest;
        assert text == "" + "-" + Join(rest);
      } else {
        var word := [text[0]] + rest[0];
        var parts := [word] + rest[1..];
        assert HyphenFree(rest[0]);
        assert parts[1..] == rest[1..];
        assert text == [text[0]] + Join(rest);
        if |rest| > 1 {
          assert Join(rest) == rest[0] + "-" + Join(rest[1..]);
          assert text == word + "-" + Join(rest[1..]);
        }
      }
    }
  }

  lemma {:induction false} JoinTwo(a: seq<string>, b: seq<string>)
    requires |a| > 0 && |b| > 0
    ensures Join(a + b) == Join(a) + "-" + Join(b)
  {
    if |a| > 1 {
      assert (a + b)[1..] == a[1..] + b;
      JoinTwo(a[1..], b);
      assert a[0] + "-" + (Join(a[1..]) + "-" + Join(b)) == (a[0] + "-" + Join(a[1..])) + "-" + Join(b);
    } else {
      assert (a + b)[1..] == b;
    }
  }
}
