/** White space trimming and character search, as the Go string library does them. */
module Text {

  /** Unicode white space, as `strings.TrimSpace` sees it. */
  predicate IsSpace(c: char) {
    c in {'\t', '\n', '\U{0B}', '\U{0C}', '\r', ' ', '\U{85}', '\U{A0}', '\U{1680}',
          '\U{2028}', '\U{2029}', '\U{202F}', '\U{205F}', '\U{3000}'} || '\U{2000}' <= c <= '\U{200A}'
  }

  function TrimLeft(s: string): string {
    if s != [] && IsSpace(s[0]) then TrimLeft(s[1..]) else s
  }

  function TrimRight(s: string): string {
    if s != [] && IsSpace(s[|s| - 1]) then TrimRight(s[..|s| - 1]) else s
  }

  function Trim(s: string): string {
    TrimRight(TrimLeft(s))
  }

  function Index(s: string, c: char): (i: int)
    ensures -1 <= i < |s|
    ensures i == -1 <==> c !in s
    ensures i >= 0 ==> s[i] == c && c !in s[..i]
  {
    if s == [] then -1
    else if s[0] == c then 0
    else
      var i := Index(s[1..], c);
      assert i >= 0 ==> s[..i + 1] == [s[0]] + s[1..][..i];
      assert s == [s[0]] + s[1..];
      if i == -1 then -1 else i + 1
  }

  lemma {:induction false} IndexUnique(s: string, c: char, n: nat)
    requires n < |s| && s[n] == c && c !in s[..n]
    ensures Index(s, c) == n
    decreases n
  {
    if n > 0 {
      assert s[0] in s[..n];
      assert s[..n] == [s[0]] + s[1..][..n - 1];
      IndexUnique(s[1..], c, n - 1);
    }
  }

  /** Text that lacks the character, appended, does not move its first occurrence. */
  lemma IndexAppend(s: string, tail: string, c: char)
    requires c !in tail
    ensures Index(s + tail, c) == Index(s, c)
    ensures c in s ==> (s + tail)[..Index(s, c)] == s[..Index(s, c)]
  {
    if c in s {
      var i := Index(s, c);
      assert (s + tail)[..i] == s[..i];
      IndexUnique(s + tail, c, i);
    } else {
      assert c !in s + tail;
    }
  }

  ghost predicate AllSpace(s: string) {
    forall c | c in s :: IsSpace(c)
  }

  lemma {:induction false} TrimLeftPad(lead: string, x: string)
    requires AllSpace(lead)
    ensures TrimLeft(lead + x) == TrimLeft(x)
    decreases |lead|
  {
    if lead == [] {
      assert lead + x == x;
    } else {
      assert lead[0] in lead && (lead + x)[1..] == lead[1..] + x;
      TrimLeftPad(lead[1..], x);
    }
  }

  lemma {:induction false} TrimRightPad(x: string, tail: string)
    requires AllSpace(tail)
    ensures TrimRight(x + tail) == TrimRight(x)
    decreases |tail|
  {
    if tail == [] {
      assert x + tail == x;
    } else {
      var n := |tail| - 1;
      assert tail[n] in tail && (x + tail)[..|x + tail| - 1] == x + tail[..n];
      TrimRightPad(x, tail[..n]);
    }
  }

  lemma {:induction false} TrimLeftSplit(s: string) returns (lead: string)
    ensures s == lead + TrimLeft(s) && AllSpace(lead)
    ensures TrimLeft(s) != [] ==> !IsSpace(TrimLeft(s)[0])
    decreases |s|
  {
    if s != [] && IsSpace(s[0]) {
      var rest := TrimLeftSplit(s[1..]);
      lead := [s[0]] + rest;
      assert s == [s[0]] + s[1..];
    } else {
      lead := [];
    }
  }

  lemma {:induction false} TrimRightSplit(s: string) returns (tail: string)
    ensures s == TrimRight(s) + tail && AllSpace(tail)
    ensures TrimRight(s) != [] ==> !IsSpace(TrimRight(s)[|TrimRight(s)| - 1])
    decreases |s|
  {
    if s != [] && IsSpace(s[|s| - 1]) {
      var rest := TrimRightSplit(s[..|s| - 1]);
      tail := rest + [s[|s| - 1]];
      assert s == s[..|s| - 1] + [s[|s| - 1]];
    } else {
      tail := [];
    }
  }

  lemma TrimSplit(s: string) returns (lead: string, tail: string)
    ensures s == lead + Trim(s) + tail && AllSpace(lead) && AllSpace(tail)
    ensures Trim(s) != [] ==> !IsSpace(Trim(s)[0]) && !IsSpace(Trim(s)[|Trim(s)| - 1])
  {
    lead := TrimLeftSplit(s);
    tail := TrimRightSplit(TrimLeft(s));
  }

  /** Text that begins and ends with something visible is its own trim. */
  lemma TrimFixed(s: string)
    requires s == [] || (!IsSpace(s[0]) && !IsSpace(s[|s| - 1]))
    ensures Trim(s) == s
  {
  }

  lemma TrimmedEnds(s: string)
    requires Trim(s) == s && s != []
    ensures !IsSpace(s[0]) && !IsSpace(s[|s| - 1])
  {
    var lead, tail := TrimSplit(s);
  }

  /** Surrounding white space never matters. */
  lemma TrimPad(lead: string, x: string, tail: string)
    requires AllSpace(lead) && AllSpace(tail)
    ensures Trim(lead + x + tail) == Trim(x)
  {
    var padding := TrimLeftSplit(x);
    var core := TrimLeft(x);
    assert lead + x + tail == (lead + padding) + (core + tail);
    TrimLeftPad(lead + padding, core + tail);
    if core == [] {
      assert core + tail == tail + [];
      TrimLeftPad(tail, []);
    } else {
      assert TrimLeft(core + tail) == core + tail;
      TrimRightPad(core, tail);
    }
  }
}
