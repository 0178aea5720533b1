/** Telegram MarkdownV2 escaping and stripping: sequential replace-all passes over a reserved list. */
module Markdown {
  import opened Common

  const RESERVED: seq<char> :=
    ['\\', '_', '*', '[', ']', '(', ')', '~', '`', '>', '#', '+', '-', '=', '|', '{', '}', '.', '!']

  const STYLING: seq<char> := ['*', '_', '`', '~']

  /** `strings.ReplaceAll` for a non-empty pattern: non-overlapping matches, left to right. */
  function ReplaceAll(s: string, old_: string, new_: string): string
    requires old_ != []
    decreases |s|
  {
    if s == [] then []
    else if old_ <= s then new_ + ReplaceAll(s[|old_|..], old_, new_)
    else [s[0]] + ReplaceAll(s[1..], old_, new_)
  }

  // ------------------------------------------------ simultaneous meanings

  /** Every character of `marked` gets a backslash, at once. */
  function Escaped(s: string, marked: set<char>): string {
    if s == [] then []
    else (if s[0] in marked then ['\\', s[0]] else [s[0]]) + Escaped(s[1..], marked)
  }

  function Without(s: string, dropped: set<char>): string {
    if s == [] then []
    else (if s[0] in dropped then [] else [s[0]]) + Without(s[1..], dropped)
  }

  function ToSet(cs: seq<char>): set<char> {
    set c | c in cs
  }

  // ------------------------------------------------------------ the passes

  method EscapeMarkdownV2(text: string) returns (result: string)
    ensures result == Escaped(text, ToSet(RESERVED))
  {
    result := text;
    EscapedNone(text);
    for i := 0 to |RESERVED|
      invariant result == Escaped(text, ToSet(RESERVED[..i]))
    {
      EscapePass(text, ToSet(RESERVED[..i]), RESERVED[i]);
      assert ToSet(RESERVED[..i + 1]) == ToSet(RESERVED[..i]) + {RESERVED[i]};
      result := ReplaceAll(result, [RESERVED[i]], ['\\', RESERVED[i]]);
    }
    assert RESERVED[..|RESERVED|] == RESERVED;
  }

  /** What the unescaping passes make of any text: defined pass by pass, in list order. */
  function Unescaped(s: string, marks: seq<char>): string
    decreases |marks|
  {
    if marks == [] then s
    else Unescaped(ReplaceAll(s, ['\\', marks[0]], [marks[0]]), marks[1..])
  }

  method StripMarkdownV2(s: string) returns (result: string)
    ensures result == Without(Unescaped(s, RESERVED), ToSet(STYLING))
  {
    result := UnescapeEach(s, RESERVED);
    result := DropEach(result, STYLING);
  }

  method UnescapeEach(s: string, reserved: seq<char>) returns (result: string)
    ensures result == Unescaped(s, reserved)
  {
    result := s;
    for i := 0 to |reserved|
      invariant Unescaped(result, reserved[i..]) == Unescaped(s, reserved)
    {
      result := ReplaceAll(result, ['\\', reserved[i]], [reserved[i]]);
      assert reserved[i..][1..] == reserved[i + 1..];
    }
  }

  method DropEach(s: string, styling: seq<char>) returns (result: string)
    ensures result == Without(s, ToSet(styling))
  {
    result := s;
    WithoutNone(s);
    for i := 0 to |styling|
      invariant result == Without(s, ToSet(styling[..i]))
    {
      DropPass(s, ToSet(styling[..i]), styling[i]);
      assert ToSet(styling[..i + 1]) == ToSet(styling[..i]) + {styling[i]};
      result := ReplaceAll(result, [styling[i]], []);
    }
    assert styling[..|styling|] == styling;
  }

  lemma EscapedNone(s: string)
    ensures Escaped(s, ToSet([])) == s
  {
  }

  lemma WithoutNone(s: string)
    ensures Without(s, ToSet([])) == s
  {
  }

  /** A one-character pattern is replaced character by character. */
  lemma ReplaceStep(s: string, c: char, with: string)
    requires s != []
    ensures ReplaceAll(s, [c], with) == (if s[0] == c then with else [s[0]]) + ReplaceAll(s[1..], [c], with)
  {
    assert [c] <= s <==> s[0] == c;
  }

  lemma {:induction false} ReplaceAllAppend(c: char, with: string, a: string, b: string)
    ensures ReplaceAll(a + b, [c], with) == ReplaceAll(a, [c], with) + ReplaceAll(b, [c], with)
    decreases |a|
  {
    hide ReplaceAll;
    if a == [] {
      assert a + b == b;
      ReplaceNothing(c, with);
    } else {
      var head := if a[0] == c then with else [a[0]];
      var ra, rb := ReplaceAll(a[1..], [c], with), ReplaceAll(b, [c], with);
      calc {
        ReplaceAll(a + b, [c], with);
        { ReplaceStep(a + b, c, with); assert (a + b)[1..] == a[1..] + b; }
        head + ReplaceAll(a[1..] + b, [c], with);
        { ReplaceAllAppend(c, with, a[1..], b); }
        head + (ra + rb);
        (head + ra) + rb;
        { ReplaceStep(a, c, with); }
        ReplaceAll(a, [c], with) + rb;
      }
    }
  }

  lemma ReplaceNothing(c: char, with: string)
    ensures ReplaceAll([], [c], with) == []
  {
  }

  /** One pass adds one character to those escaped, provided the backslash came first. */
  lemma {:induction false} EscapePass(s: string, marked: set<char>, c: char)
    requires c !in marked && (c == '\\' ==> marked == {})
    ensures ReplaceAll(Escaped(s, marked), [c], ['\\', c]) == Escaped(s, marked + {c})
    decreases |s|
  {
    if s != [] {
      var head := if s[0] in marked then ['\\', s[0]] else [s[0]];
      EscapePass(s[1..], marked, c);
      ReplaceAllAppend(c, ['\\', c], head, Escaped(s[1..], marked));
      assert head[1..] == if s[0] in marked then [s[0]] else [];
    }
  }

  lemma {:induction false} DropPass(s: string, dropped: set<char>, c: char)
    ensures ReplaceAll(Without(s, dropped), [c], []) == Without(s, dropped + {c})
    decreases |s|
  {
    if s != [] {
      var head := if s[0] in dropped then [] else [s[0]];
      DropPass(s[1..], dropped, c);
      ReplaceAllAppend(c, [], head, Without(s[1..], dropped));
    }
  }

  // ------------------------------------------------------- the round trip

  /** Text whose escapes of `marked` remain, and of nothing else, begins with a backslash or an unmarked character. */
  lemma EscapedHead(s: string, marked: set<char>)
    ensures s == [] <==> Escaped(s, marked) == []
    ensures s != [] ==> Escaped(s, marked)[0] == '\\' || Escaped(s, marked)[0] !in marked
  {
  }

  /**
   * One unescaping pass removes exactly the escapes of its own character. Once the backslash is
   * done raw backslashes stand next to escapes, yet no match ever starts at the wrong one.
   */
  lemma {:induction false} UnescapePass(s: string, marked: set<char>, c: char)
    requires c in marked && ('\\' in marked ==> c == '\\')
    ensures ReplaceAll(Escaped(s, marked), ['\\', c], [c]) == Escaped(s, marked - {c})
    decreases |s|
  {
    hide ReplaceAll, Escaped;
    if s == [] {
      NothingToReplace(marked, c);
    } else {
      var rest, done, x := Escaped(s[1..], marked), Escaped(s[1..], marked - {c}), s[0];
      UnescapePass(s[1..], marked, c);
      EscapedHead(s[1..], marked);
      EscapedStep(s, marked);
      EscapedStep(s, marked - {c});
      if x == c {
        ReplaceHit(c, rest);
      } else if x in marked {
        MissTwice(x, rest, c);
        assert Escaped(s, marked - {c}) == ['\\', x] + done;
      } else {
        ReplaceMiss(x, rest, c);
      }
    }
  }

  lemma NothingToReplace(marked: set<char>, c: char)
    ensures ReplaceAll(Escaped([], marked), ['\\', c], [c]) == Escaped([], marked - {c})
  {
  }

  lemma MissTwice(x: char, rest: string, c: char)
    requires x != c && (x != '\\' || rest == [] || rest[0] != c)
    ensures ReplaceAll(['\\', x] + rest, ['\\', c], [c]) == ['\\', x] + ReplaceAll(rest, ['\\', c], [c])
  {
    hide ReplaceAll;
    assert ['\\', x] + rest == ['\\'] + ([x] + rest);
    ReplaceMiss(x, rest, c);
    ReplaceMiss('\\', [x] + rest, c);
  }

  lemma EscapedStep(s: string, marked: set<char>)
    requires s != []
    ensures Escaped(s, marked) == (if s[0] in marked then ['\\', s[0]] else [s[0]]) + Escaped(s[1..], marked)
  {
  }

  lemma ReplaceHit(c: char, rest: string)
    ensures ReplaceAll(['\\', c] + rest, ['\\', c], [c]) == [c] + ReplaceAll(rest, ['\\', c], [c])
  {
    var t := ['\\', c] + rest;
    assert ['\\', c] <= t && t[2..] == rest;
  }

  /** No match starts here: the character is no backslash, or not followed by `c`. */
  lemma ReplaceMiss(x: char, rest: string, c: char)
    requires x != '\\' || rest == [] || rest[0] != c
    ensures ReplaceAll([x] + rest, ['\\', c], [c]) == [x] + ReplaceAll(rest, ['\\', c], [c])
  {
    var t := [x] + rest;
    assert t[1..] == rest;
    assert rest != [] ==> t[1] == rest[0];
    assert !(['\\', c] <= t);
  }

  /** The passes undo a simultaneous escape of any duplicate-free list that has the backslash first, if at all. */
  lemma {:induction false} UnescapeAll(s: string, marks: seq<char>)
    requires forall i, j | 0 <= i < j < |marks| :: marks[i] != marks[j]
    requires forall i | 0 < i < |marks| :: marks[i] != '\\'
    ensures Unescaped(Escaped(s, ToSet(marks)), marks) == s
    decreases |marks|
  {
    if marks == [] {
      EscapedNone(s);
    } else {
      UnescapePass(s, ToSet(marks), marks[0]);
      assert ToSet(marks) - {marks[0]} == ToSet(marks[1..]);
      UnescapeAll(s, marks[1..]);
    }
  }

  /** Stripping an escaped text gives the text back, less its styling characters. */
  lemma StripUndoesEscape(s: string)
    ensures Without(Unescaped(Escaped(s, ToSet(RESERVED)), RESERVED), ToSet(STYLING)) == Without(s, ToSet(STYLING))
  {
    UnescapeAll(s, RESERVED);
  }

  lemma {:induction false} WithoutKeepsIff(s: string, dropped: set<char>)
    ensures Without(s, dropped) == s <==> forall c | c in s :: c !in dropped
    ensures |Without(s, dropped)| <= |s|
    decreases |s|
  {
    if s != [] {
      WithoutKeepsIff(s[1..], dropped);
      assert s == [s[0]] + s[1..];
      if s[0] !in dropped && Without(s, dropped) == s {
        assert Without(s[1..], dropped) == Without(s, dropped)[1..] == s[1..];
      }
    }
  }

  /** Both calls in sequence: the text comes back whole exactly when it has no styling character. */
  method RoundTrip(text: string) returns (back: string)
    ensures back == Without(text, {'*', '_', '`', '~'})
    ensures back == text <==> forall c | c in text :: c !in {'*', '_', '`', '~'}
  {
    var escaped := EscapeMarkdownV2(text);
    back := StripMarkdownV2(escaped);
    StripUndoesEscape(text);
    StylingIs();
    WithoutKeepsIff(text, {'*', '_', '`', '~'});
    hide *;
  }

  lemma StylingIs()
    ensures ToSet(STYLING) == {'*', '_', '`', '~'}
  {
    forall c: char
      ensures c in ToSet(STYLING) <==> c in {'*', '_', '`', '~'}
    {
    }
  }

  // ------------------------------------------- what the other side reads

  /** Punctuation that MarkdownV2 keeps for itself. */
  predicate Markup(c: char) {
    c == '\\' || c in "_*[]()~`>#+-=|{}.!"
  }

  /**
   * How MarkdownV2 reads plain text: a backslash makes the markup character after it literal,
   * and any other markup character is not text.
   */
  function ReadLiteral(s: string): Option<string>
    decreases |s|
  {
    if s == [] then Some([])
    else if s[0] == '\\' then
      if |s| >= 2 && Markup(s[1]) then Prepend(s[1], ReadLiteral(s[2..])) else None
    else if Markup(s[0]) then None
    else Prepend(s[0], ReadLiteral(s[1..]))
  }

  function Prepend(c: char, rest: Option<string>): Option<string> {
    if rest.Some? then Some([c] + rest.value) else None
  }

  lemma ReservedIsMarkup(c: char)
    ensures Markup(c) <==> c in RESERVED
  {
  }

  /** An escaped text is read back as exactly the original, and never as markup. */
  lemma {:induction false} EscapedReadsAsText(s: string)
    ensures ReadLiteral(Escaped(s, ToSet(RESERVED))) == Some(s)
    decreases |s|
  {
    if s != [] {
      var t, rest := Escaped(s, ToSet(RESERVED)), Escaped(s[1..], ToSet(RESERVED));
      EscapedReadsAsText(s[1..]);
      ReservedIsMarkup(s[0]);
      assert s == [s[0]] + s[1..];
      if s[0] in RESERVED {
        assert t == ['\\', s[0]] + rest && t[2..] == rest;
      } else {
        assert t == [s[0]] + rest && t[1..] == rest;
      }
    }
  }
}
