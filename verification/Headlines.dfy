/** Headline normalisation and the token 3-gram similarity of two headlines. */
module Headlines {
  import opened Common
  import opened Text

  /** Lower case, as far as it decides what is kept: ASCII capitals and the two letters that fold into ASCII. */
  function Lower(c: char): char {
    if 'A' <= c <= 'Z' then (c as int + 32) as char
    else if c == '\U{212A}' then 'k'
    else if c == '\U{0130}' then 'i'
    else c
  }

  predicate IsWordChar(c: char) {
    'a' <= c <= 'z' || '0' <= c <= '9'
  }

  /** The words of a text: its maximal runs of kept characters, `current` being the run under way. */
  function WordsFrom(s: string, current: string): seq<string> {
    if s == [] then (if current == [] then [] else [current])
    else if IsWordChar(Lower(s[0])) then WordsFrom(s[1..], current + [Lower(s[0])])
    else (if current == [] then [] else [current]) + WordsFrom(s[1..], [])
  }

  function Words(s: string): seq<string> {
    WordsFrom(s, [])
  }

  /** Words with a space after each. */
  function Spaced(words: seq<string>): string {
    if words == [] then [] else Spaced(words[..|words| - 1]) + words[|words| - 1] + [' ']
  }

  /** Words joined by single spaces. */
  function Joined(words: seq<string>): string {
    if words == [] then [] else Spaced(words[..|words| - 1]) + words[|words| - 1]
  }

  predicate IsWord(w: string) {
    w != [] && forall c | c in w :: IsWordChar(c)
  }

  ghost predicate AllWords(words: seq<string>) {
    forall w | w in words :: IsWord(w)
  }

  method NormalizeHeadline(title: string) returns (norm: string)
    ensures norm == Joined(Words(title))
  {
    hide Spaced, AllWords, Joined, Trim;
    var b, prevSpace := [], true;
    ghost var done: seq<string>, current: string := [], [];
    NoWords();
    for i := 0 to |title|
      invariant b == Spaced(done) + current && (prevSpace <==> current == [])
      invariant AllWords(done) && (current != [] ==> IsWord(current))
      invariant done + WordsFrom(title[i..], current) == Words(title)
    {
      assert title[i..][1..] == title[i + 1..];
      var r := Lower(title[i]);
      if IsWordChar(r) {
        b := b + [r];
        current := current + [r];
        prevSpace := false;
      } else if !prevSpace {
        b := b + [' '];
        OneMoreWord(done, current);
        done, current := done + [current], [];
        prevSpace := true;
      }
    }
    TrimmedBuilder(done, current);
    norm := Trim(b);
  }

  lemma NoWords()
    ensures Spaced([]) == [] && AllWords([])
  {
  }

  lemma OneMoreWord(done: seq<string>, current: string)
    requires AllWords(done) && IsWord(current)
    ensures Spaced(done + [current]) == Spaced(done) + current + [' '] && AllWords(done + [current])
  {
    assert (done + [current])[..|done|] == done;
  }

  lemma TrimmedBuilder(done: seq<string>, current: string)
    requires AllWords(done) && (current != [] ==> IsWord(current))
    ensures Trim(Spaced(done) + current) == Joined(done + if current == [] then [] else [current])
  {
    if current != [] {
      JoinedIsTrimmed(done + [current]);
      JoinedOneMore(done, current);
    } else {
      assert done + [] == done && Spaced(done) + [] == Spaced(done);
      SpacedTrimmed(done);
    }
    hide *;
  }

  lemma JoinedOneMore(done: seq<string>, current: string)
    ensures Joined(done + [current]) == Spaced(done) + current
  {
    assert (done + [current])[..|done|] == done;
  }

  lemma SpacedTrimmed(words: seq<string>)
    requires AllWords(words)
    ensures Trim(Spaced(words)) == Joined(words)
  {
    if words != [] {
      JoinedIsTrimmed(words);
      TrimPad([], Joined(words), [' ']);
      assert [] + Joined(words) + [' '] == Spaced(words);
      hide Trim, AllWords;
    }
  }

  lemma {:induction false} JoinedStarts(words: seq<string>)
    requires AllWords(words) && words != []
    ensures words[0] != [] && Joined(words) != [] && Joined(words)[0] == words[0][0]
    ensures Spaced(words) == Joined(words) + [' ']
    decreases |words|
  {
    var init := words[..|words| - 1];
    assert words[|words| - 1] in words && words[0] in words;
    if init != [] {
      assert AllWords(init);
      JoinedStarts(init);
      assert Spaced(init)[0] == Joined(init)[0];
    }
  }

  lemma JoinedNothing()
    ensures Joined([]) == []
  {
  }

  lemma JoinedEnds(words: seq<string>)
    requires words != [] && IsWord(words[|words| - 1])
    ensures var last := words[|words| - 1];
            last != [] && Joined(words) != [] && Joined(words)[|Joined(words)| - 1] == last[|last| - 1]
  {
  }

  lemma WordEnds(w: string)
    requires IsWord(w)
    ensures w != []
    ensures !IsSpace(w[0]) && !IsSpace(w[|w| - 1])
  {
    assert w[0] in w && w[|w| - 1] in w;
  }

  lemma JoinedIsTrimmed(words: seq<string>)
    requires AllWords(words)
    ensures Trim(Joined(words)) == Joined(words)
  {
    hide Trim, Joined, Spaced, IsWord, IsSpace;
    if words == [] {
      JoinedNothing();
      TrimFixed([]);
    } else {
      var last := words[|words| - 1];
      assert last in words && words[0] in words;
      JoinedStarts(words);
      JoinedEnds(words);
      WordEnds(words[0]);
      WordEnds(last);
      TrimFixed(Joined(words));
    }
  }

  // ------------------------------------------------------------- idempotence

  lemma {:induction false} WordsAreWords(s: string, current: string)
    requires current != [] ==> IsWord(current)
    ensures AllWords(WordsFrom(s, current))
    decreases |s|
  {
    if s != [] {
      if IsWordChar(Lower(s[0])) {
        WordsAreWords(s[1..], current + [Lower(s[0])]);
      } else {
        WordsAreWords(s[1..], []);
      }
    }
  }

  /** A word, then a rest that does not continue it, is read off whole. */
  lemma {:induction false} WordReadOff(w: string, rest: string, current: string)
    requires forall c | c in w :: IsWordChar(c)
    ensures WordsFrom(w + rest, current) == WordsFrom(rest, current + w)
    decreases |w|
  {
    if w == [] {
      assert w + rest == rest && current + w == current;
    } else {
      assert w[0] in w && Lower(w[0]) == w[0];
      assert (w + rest)[1..] == w[1..] + rest && (w + rest)[0] == w[0];
      forall c | c in w[1..]
        ensures IsWordChar(c)
      {
        assert c in w;
      }
      WordReadOff(w[1..], rest, current + [w[0]]);
      assert current + [w[0]] + w[1..] == current + w;
    }
  }

  lemma {:induction false} WordsOfSpaced(words: seq<string>, rest: string)
    requires AllWords(words)
    ensures Words(Spaced(words) + rest) == words + Words(rest)
    decreases |words|
  {
    if words == [] {
      assert Spaced(words) + rest == rest;
    } else {
      var init, last := words[..|words| - 1], words[|words| - 1];
      assert last in words && AllWords(init);
      WordsOfSpaced(init, last + ([' '] + rest));
      assert Spaced(words) + rest == Spaced(init) + (last + ([' '] + rest));
      WordReadOff(last, [' '] + rest, []);
      assert [] + last == last && ([' '] + rest)[1..] == rest;
      assert Words(last + ([' '] + rest)) == [last] + Words(rest);
      assert words == init + [last];
    }
  }

  /** The words of joined words are those words. */
  lemma WordsOfJoined(words: seq<string>)
    requires AllWords(words)
    ensures Words(Joined(words)) == words
  {
    if words != [] {
      var init, last := words[..|words| - 1], words[|words| - 1];
      assert last in words && AllWords(init);
      WordsOfSpaced(init, last);
      WordReadOff(last, [], []);
      assert last + [] == last && [] + last == last;
      assert words == init + [last];
    }
  }

  /** Normalising twice is normalising once. */
  lemma NormalizeIdempotent(title: string)
    ensures Joined(Words(Joined(Words(title)))) == Joined(Words(title))
    ensures Words(Joined(Words(title))) == Words(title)
  {
    WordsAreWords(title, []);
    WordsOfJoined(Words(title));
  }

  // -------------------------------------------------------------- similarity

  /** Token trigrams of a normal form; the tokens themselves when there are fewer than three. */
  function TokenTrigrams(tokens: seq<string>): set<string> {
    if |tokens| >= 3 then set i | 0 <= i < |tokens| - 2 :: tokens[i] + [' '] + tokens[i + 1] + [' '] + tokens[i + 2]
    else set t | t in tokens
  }

  function TrigramJaccard(a: string, b: string): real {
    var ta, tb := TokenTrigrams(Words(a)), TokenTrigrams(Words(b));
    Jaccard(ta, tb)
  }

  function Jaccard(ta: set<string>, tb: set<string>): real {
    if ta == {} && tb == {} then 1.0
    else
      var inter := |ta * tb|;
      var union := |ta| + |tb| - inter;
      if union == 0 then 1.0 else inter as real / union as real
  }

  lemma SetSizes(a: set<string>, b: set<string>)
    ensures |a + b| == |a| + |b| - |a * b| && |a * b| <= |a + b|
  {
    assert a + b == a + (b - a) && b == (b - a) + a * b;
    assert |a + b| == |a| + |b - a| && |b| == |b - a| + |a * b|;
  }

  /** Intersection over union: between zero and one, symmetric, and one exactly on equal sets. */
  lemma JaccardMeaning(a: set<string>, b: set<string>)
    ensures Jaccard(a, b) == Jaccard(b, a)
    ensures 0.0 <= Jaccard(a, b) <= 1.0
    ensures Jaccard(a, b) == 1.0 <==> a == b
  {
    SetSizes(a, b);
    assert a * b == b * a;
    if a + b != {} {
      var i, u := |a * b|, |a + b|;
      assert u > 0;
      UnitQuotient(i as real, u as real);
      if a == b { assert a * b == a && a + b == a; }
      if i == u { EqualWhenMeetIsJoin(a, b); }
    }
  }

  lemma EqualWhenMeetIsJoin(a: set<string>, b: set<string>)
    requires |a * b| == |a + b|
    ensures a == b
  {
    var rest := (a + b) - a * b;
    assert a + b == a * b + rest;
    assert |rest| == 0;
  }

  /** Similarity is that of the normal forms: normalising either side first changes nothing. */
  lemma SimilarityOfNormalForms(a: string, b: string)
    ensures TrigramJaccard(Joined(Words(a)), b) == TrigramJaccard(a, b) == TrigramJaccard(a, Joined(Words(b)))
    ensures TrigramJaccard(a, b) == TrigramJaccard(b, a)
  {
    NormalizeIdempotent(a);
    NormalizeIdempotent(b);
    JaccardMeaning(TokenTrigrams(Words(a)), TokenTrigrams(Words(b)));
  }

  // ----------------------------------------------------------- in plain counts

  /** Similarity is shared trigrams over all of them. */
  lemma JaccardIs(a: set<string>, b: set<string>)
    requires a != {} || b != {}
    ensures |a + b| > 0 && Jaccard(a, b) * |a + b| as real == |a * b| as real
  {
    SetSizes(a, b);
    assert a + b != {};
    DivMulCancel(|a * b| as real, |a + b| as real);
  }

  /** Three neighbouring tokens, joined. */
  function Triple(tokens: seq<string>, i: nat): string
    requires i + 3 <= |tokens|
  {
    Joined([tokens[i], tokens[i + 1], tokens[i + 2]])
  }

  lemma TripleIs(tokens: seq<string>, i: nat)
    requires i + 3 <= |tokens|
    ensures Triple(tokens, i) == tokens[i] + [' '] + tokens[i + 1] + [' '] + tokens[i + 2]
  {
    var w := [tokens[i], tokens[i + 1], tokens[i + 2]];
    assert w[..2][..1] == w[..1] && w[..1][..0] == [];
    assert Spaced(w[..1]) == w[0] + [' '];
    assert Spaced(w[..2]) == w[0] + [' '] + w[1] + [' '];
  }

  /** Every three neighbouring tokens, joined; with fewer than three tokens each of them; and nothing else. */
  lemma TrigramsAre(tokens: seq<string>, t: string)
    ensures |tokens| < 3 ==> (t in TokenTrigrams(tokens) <==> t in tokens)
    ensures |tokens| >= 3 ==>
              (t in TokenTrigrams(tokens) <==> exists i | 0 <= i < |tokens| - 2 :: t == Triple(tokens, i))
  {
    if |tokens| >= 3 {
      forall i | 0 <= i < |tokens| - 2
        ensures Triple(tokens, i) == tokens[i] + [' '] + tokens[i + 1] + [' '] + tokens[i + 2]
      {
        TripleIs(tokens, i);
      }
      hide Triple;
      if t in TokenTrigrams(tokens) {
        var i :| 0 <= i < |tokens| - 2 && t == tokens[i] + [' '] + tokens[i + 1] + [' '] + tokens[i + 2];
        assert t == Triple(tokens, i);
      }
    }
  }

  /** A pair reaches the threshold exactly when 82 hundredths of all its trigrams are shared. */
  lemma ThresholdIs(a: string, b: string)
    ensures var ta, tb := TokenTrigrams(Words(a)), TokenTrigrams(Words(b));
            TrigramJaccard(a, b) >= 0.82 <==> 100 * |ta * tb| >= 82 * |ta + tb|
  {
    var ta, tb := TokenTrigrams(Words(a)), TokenTrigrams(Words(b));
    hide TokenTrigrams, Words;
    if ta == {} && tb == {} {
      assert |ta * tb| == 0 && |ta + tb| == 0;
    } else {
      JaccardIs(ta, tb);
      hide Jaccard;
      var j, u, i := Jaccard(ta, tb), |ta + tb| as real, |ta * tb| as real;
      AtLeastTimes(j, 0.82, u);
      assert 0.82 * u == (82 * |ta + tb|) as real / 100.0;
    }
  }

  lemma AtLeastTimes(x: real, k: real, u: real)
    requires u > 0.0
    ensures x >= k <==> x * u >= k * u
  {
    if x >= k { MulMonotone(k, x, u); } else { assert (k - x) * u > 0.0; }
  }

  /** The letters and digits of a text, in lower case. */
  function Kept(s: string): string {
    if s == [] then []
    else
      var c := if 'A' <= s[0] <= 'Z' then (s[0] as int + 32) as char else s[0];
      (if 'a' <= c <= 'z' || '0' <= c <= '9' then [c] else if c == '\U{212A}' then ['k']
       else if c == '\U{0130}' then ['i'] else []) + Kept(s[1..])
  }

  function Flat(words: seq<string>): string {
    if words == [] then [] else words[0] + Flat(words[1..])
  }

  lemma {:induction false} FlatJoin(a: seq<string>, b: seq<string>)
    ensures Flat(a + b) == Flat(a) + Flat(b)
    decreases |a|
  {
    if a == [] {
      assert a + b == b;
    } else {
      FlatJoin(a[1..], b);
      assert (a + b)[1..] == a[1..] + b;
    }
  }

  lemma KeptStep(s: string)
    requires s != []
    ensures Kept([s[0]]) == if IsWordChar(Lower(s[0])) then [Lower(s[0])] else []
    ensures Kept(s) == Kept([s[0]]) + Kept(s[1..])
  {
    assert Kept([s[0]][1..]) == [];
  }

  lemma {:induction false} WordsFromKeep(s: string, current: string)
    ensures Flat(WordsFrom(s, current)) == current + Kept(s)
    decreases |s|
  {
    assert Flat([current]) == current;
    if s == [] {
      assert current + Kept(s) == current;
    } else {
      KeptStep(s);
      if IsWordChar(Lower(s[0])) {
        WordsFromKeep(s[1..], current + [Lower(s[0])]);
      } else {
        WordsFromKeep(s[1..], []);
        FlatJoin(if current == [] then [] else [current], WordsFrom(s[1..], []));
      }
      hide Kept, Lower, IsWordChar;
    }
  }

  /** The words of a text spell its letters and digits, in lower case and in order, and nothing else. */
  lemma WordsKeep(s: string)
    ensures Flat(Words(s)) == Kept(s)
  {
    WordsFromKeep(s, []);
  }

  lemma {:induction false} WordsFromSplit(a: string, sep: char, b: string, current: string)
    requires Kept([sep]) == []
    ensures WordsFrom(a + [sep] + b, current) == WordsFrom(a, current) + Words(b)
    decreases |a|
  {
    if a == [] {
      KeptStep([sep]);
      assert (a + [sep] + b)[1..] == b;
    } else {
      assert (a + [sep] + b)[1..] == a[1..] + [sep] + b;
      WordsFromSplit(a[1..], sep, b, if IsWordChar(Lower(a[0])) then current + [Lower(a[0])] else []);
    }
  }

  lemma {:induction false} UnbrokenFrom(s: string, current: string)
    requires forall i | 0 <= i < |s| :: Kept([s[i]]) != []
    ensures s != [] ==> Kept(s) != []
    ensures WordsFrom(s, current) == if current + Kept(s) == [] then [] else [current + Kept(s)]
    decreases |s|
  {
    if s == [] {
      assert current + Kept(s) == current;
    } else {
      KeptStep(s);
      assert Kept([s[0]]) != [];
      UnbrokenFrom(s[1..], current + [Lower(s[0])]);
      assert WordsFrom(s, current) == WordsFrom(s[1..], current + [Lower(s[0])]);
      OneWord(current, [Lower(s[0])], Kept(s[1..]));
      hide *;
    }
  }

  lemma OneWord(a: string, b: string, c: string)
    requires b != []
    ensures a + (b + c) == a + b + c && a + b + c != [] && b + c != []
  {
    assert |a + b + c| > 0 && |b + c| > 0;
  }

  /** Letters and digits in a row are one word, and anything else ends it. */
  lemma WordsSplit(a: string, sep: char, b: string)
    requires Kept([sep]) == []
    ensures Words(a + [sep] + b) == Words(a) + Words(b)
    ensures a != [] && (forall i | 0 <= i < |a| :: Kept([a[i]]) != []) ==> Words(a) == [Kept(a)]
  {
    WordsFromSplit(a, sep, b, []);
    if forall i | 0 <= i < |a| :: Kept([a[i]]) != [] {
      UnbrokenFrom(a, []);
      assert [] + Kept(a) == Kept(a);
    }
    hide Kept;
  }
}
