/** What an upserted file means to the reader, and that upserting again changes nothing. */
module EnvLaws {
  import opened Common
  import opened Text
  import opened EnvFile

  // ------------------------------------------------ writer and reader agree

  /** Both sides read the same key from a line; the reader alone skips an empty one. */
  lemma KeyOfEntry(text: string)
    ensures Entry(text).Some? <==> KeyOf(text).Some? && KeyOf(text).value != []
    ensures Entry(text).Some? ==> Entry(text).value.0 == KeyOf(text).value
  {
    var lead, tail := TrimSplit(text);
    var line := Trim(text);
    if '=' in line {
      var eq := Index(line, '=');
      assert text[..|lead| + eq] == lead + line[..eq];
      assert '=' !in lead;
      IndexUnique(text, '=', |lead| + eq);
      TrimPad(lead, line[..eq], []);
      assert lead + line[..eq] + [] == lead + line[..eq];
    } else {
      assert '=' !in text;
    }
  }

  lemma AssignmentIsTrimmed(k: string, v: string)
    requires WellFormedKey(k) && Trim(v) == v
    ensures Trim(Assignment(k, v)) == Assignment(k, v)
    ensures !EndsInCR(Assignment(k, v))
  {
    var line := Assignment(k, v);
    TrimmedEnds(k);
    assert line[0] == k[0];
    if v != [] {
      TrimmedEnds(v);
      assert line[|line| - 1] == v[|v| - 1];
    } else {
      assert line[|line| - 1] == '=';
    }
    TrimFixed(line);
  }

  /** A well-formed assignment is read back as itself. */
  lemma AssignmentMeans(k: string, v: string)
    requires WellFormedKey(k) && WellFormedValue(v)
    ensures KeyOf(Assignment(k, v)) == Some(k)
    ensures Entry(Assignment(k, v)) == Some((k, v))
  {
    AssignmentIsTrimmed(k, v);
    IndexOfAssignment(k, v);
    assert Assignment(k, v)[0] == k[0];
  }

  predicate EndsInCR(line: string) {
    line != [] && line[|line| - 1] == '\r'
  }

  lemma CRIsSpace()
    ensures AllSpace([]) && AllSpace(['\r'])
  {
  }

  /** A carriage return at the end is trimmed, and hides no `=`. */
  lemma AppendedCR(d: string)
    ensures Trim(d + ['\r']) == Trim(d)
    ensures Index(d + ['\r'], '=') == Index(d, '=')
    ensures '=' in d ==> (d + ['\r'])[..Index(d, '=')] == d[..Index(d, '=')]
  {
    CRIsSpace();
    hide *;
    assert [] + d + ['\r'] == d + ['\r'];
    TrimPad([], d, ['\r']);
    IndexAppend(d, ['\r'], '=');
  }

  lemma DropCRKeepsMeaning(line: string)
    ensures KeyOf(DropCR(line)) == KeyOf(line) && Entry(DropCR(line)) == Entry(line)
  {
    if EndsInCR(line) {
      hide Trim, Index, Unquote;
      AppendedCR(DropCR(line));
      assert line == DropCR(line) + ['\r'];
    }
  }

  // ------------------------------------------------------- reading as lookup

  /** The first assignment of `k`, if any. */
  function Lookup(lines: seq<string>, k: string): Option<string> {
    if lines == [] then None
    else if Entry(lines[0]).Some? && Entry(lines[0]).value.0 == k then Some(Entry(lines[0]).value.1)
    else Lookup(lines[1..], k)
  }

  function Get(m: map<string, string>, k: string): Option<string> {
    if k in m then Some(m[k]) else None
  }

  /** The reader's loop is a lookup: the environment first, then the first assignment in the file. */
  lemma {:induction false} ApplyIsLookup(env: map<string, string>, lines: seq<string>, k: string)
    ensures Get(Apply(env, lines), k) == if k in env then Some(env[k]) else Lookup(lines, k)
    decreases |lines|
  {
    if lines != [] {
      ApplyIsLookup(ApplyLine(env, lines[0]), lines[1..], k);
    }
  }

  lemma {:induction false} LookupConcat(a: seq<string>, b: seq<string>, k: string)
    ensures Lookup(a + b, k) == if Lookup(a, k).Some? then Lookup(a, k) else Lookup(b, k)
    decreases |a|
  {
    if a == [] {
      assert a + b == b;
    } else {
      assert (a + b)[1..] == a[1..] + b;
      LookupConcat(a[1..], b, k);
    }
  }

  ghost predicate Assigns(lines: seq<string>, k: string) {
    exists i | 0 <= i < |lines| :: KeyOf(lines[i]) == Some(k)
  }

  lemma SeenIsAssigns(kv: map<string, string>, lines: seq<string>, k: string)
    requires k in kv
    ensures k in Seen(kv, lines) <==> Assigns(lines, k)
  {
    var keys := seq(|lines|, i requires 0 <= i < |lines| => KeyOf(lines[i]));
    if Assigns(lines, k) {
      var i :| 0 <= i < |lines| && KeyOf(lines[i]) == Some(k);
      assert keys[i] == Some(k);
    }
  }

  /** Rewriting in place changes what the given keys mean and nothing else. */
  lemma {:induction false} LookupRewritten(kv: map<string, string>, lines: seq<string>, k: string)
    requires WellFormed(kv)
    ensures Lookup(RewriteAll(kv, lines), k) ==
            if k in kv then (if Assigns(lines, k) then Some(kv[k]) else None) else Lookup(lines, k)
    decreases |lines|
  {
    hide Trim, Index, Ignored, Unquote, WellFormedValue;
    if lines != [] {
      LookupRewritten(kv, lines[1..], k);
      assert RewriteAll(kv, lines)[1..] == RewriteAll(kv, lines[1..]);
      assert RewriteAll(kv, lines)[0] == Rewrite(kv, lines[0]);
      KeyOfEntry(lines[0]);
      if KeyOf(lines[0]).Some? && KeyOf(lines[0]).value in kv {
        AssignmentMeans(KeyOf(lines[0]).value, kv[KeyOf(lines[0]).value]);
      }
      AssignsUnfold(lines, k);
    }
  }

  lemma AssignsUnfold(lines: seq<string>, k: string)
    requires lines != []
    ensures Assigns(lines, k) <==> KeyOf(lines[0]) == Some(k) || Assigns(lines[1..], k)
  {
    if Assigns(lines[1..], k) {
      var i :| 0 <= i < |lines[1..]| && KeyOf(lines[1..][i]) == Some(k);
      assert KeyOf(lines[i + 1]) == Some(k);
    }
    if Assigns(lines, k) {
      var i :| 0 <= i < |lines| && KeyOf(lines[i]) == Some(k);
      assert i > 0 ==> lines[1..][i - 1] == lines[i];
    }
  }

  /** Lines that are all assignments of missing keys, and of every one of them. */
  ghost predicate OnlyAssignments(kv: map<string, string>, missing: set<string>, tail: seq<string>) {
    && missing <= kv.Keys
    && forall l | l in tail :: exists k :: k in missing && l == Assignment(k, kv[k])
  }

  lemma {:induction false} EnumerationSize(keys: seq<string>, ks: set<string>)
    requires Enumerates(keys, ks)
    ensures |keys| == |ks|
    decreases |keys|
  {
    if keys == [] {
      assert ks == {};
    } else {
      var n := |keys| - 1;
      assert Enumerates(keys[..n], ks - {keys[n]}) by {
        assert keys == keys[..n] + [keys[n]];
      }
      EnumerationSize(keys[..n], ks - {keys[n]});
      assert keys[n] in ks;
    }
  }

  lemma AppendixAssigns(kv: map<string, string>, missing: set<string>, tail: seq<string>)
    requires Appendix(kv, missing, tail)
    ensures OnlyAssignments(kv, missing, tail)
    ensures forall k | k in missing :: Assignment(k, kv[k]) in tail
    ensures missing == {} ==> tail == []
  {
    var keys :| Enumerates(keys, missing) && (forall k | k in keys :: k in kv)
                && multiset(tail) == multiset(Assignments(kv, keys));
    var lines := Assignments(kv, keys);
    forall l
      ensures l in tail <==> l in lines
    {
      assert l in multiset(tail) <==> l in multiset(lines);
    }
    forall l | l in tail
      ensures exists k :: k in missing && l == Assignment(k, kv[k])
    {
      var i :| 0 <= i < |lines| && lines[i] == l;
      assert keys[i] in missing && l == Assignment(keys[i], kv[keys[i]]);
    }
    forall k | k in missing
      ensures Assignment(k, kv[k]) in tail
    {
      var i :| 0 <= i < |keys| && keys[i] == k;
      assert lines[i] == Assignment(k, kv[k]);
    }
    EnumerationSize(keys, missing);
    if missing == {} {
      assert |tail| == |multiset(tail)| == |multiset(lines)| == 0;
    }
  }

  lemma {:induction false} LookupAppendix(kv: map<string, string>, missing: set<string>, tail: seq<string>, k: string)
    requires WellFormed(kv) && OnlyAssignments(kv, missing, tail)
    ensures Lookup(tail, k) == if k in missing && Assignment(k, kv[k]) in tail then Some(kv[k]) else None
    decreases |tail|
  {
    hide Entry, KeyOf, Assignment, WellFormedKey, WellFormedValue;
    if tail != [] {
      assert tail[0] in tail;
      var k0 :| k0 in missing && tail[0] == Assignment(k0, kv[k0]);
      AssignmentMeans(k0, kv[k0]);
      assert forall l | l in tail[1..] :: l in tail;
      LookupAppendix(kv, missing, tail[1..], k);
      assert tail == [tail[0]] + tail[1..];
      if k in missing && k != k0 {
        AssignmentMeans(k, kv[k]);
      }
    }
  }

  // ------------------------------------------------------ through the bytes

  ghost predicate NewlineFree(lines: seq<string>) {
    forall l | l in lines :: '\n' !in l
  }

  function Undelimited(lines: seq<string>): seq<string> {
    seq(|lines|, i requires 0 <= i < |lines| => DropCR(lines[i]))
  }

  lemma {:induction false} LinesOfJoin(lines: seq<string>)
    requires NewlineFree(lines)
    ensures Lines(Join(lines)) == Undelimited(lines)
    decreases |lines|
  {
    if lines == [] {
      assert Join(lines) == [] && Lines([]) == [];
    } else {
      hide *;
      var head, rest := lines[0], lines[1..];
      TailNewlineFree(lines);
      LinesOfJoin(rest);
      JoinStep(lines);
      FirstLine(head, Join(rest));
      assert head + ['\n'] + Join(rest) == head + (['\n'] + Join(rest));
      UndelimitedStep(lines);
    }
  }

  lemma TailNewlineFree(lines: seq<string>)
    requires NewlineFree(lines) && lines != []
    ensures '\n' !in lines[0] && NewlineFree(lines[1..])
  {
    assert lines[0] in lines && forall l | l in lines[1..] :: l in lines;
  }

  lemma UndelimitedStep(lines: seq<string>)
    requires lines != []
    ensures Undelimited(lines) == [DropCR(lines[0])] + Undelimited(lines[1..])
  {
  }

  lemma FirstLine(head: string, rest: string)
    requires '\n' !in head
    ensures Lines(head + ['\n'] + rest) == [DropCR(head)] + Lines(rest)
  {
    hide Index;
    var text := head + ['\n'] + rest;
    assert text[|head|] == '\n' && text[..|head|] == head && text[|head| + 1..] == rest;
    IndexUnique(text, '\n', |head|);
  }

  lemma {:induction false} LinesAreNewlineFree(content: string)
    ensures NewlineFree(Lines(content))
    decreases |content|
  {
    if content != [] && '\n' in content {
      LinesAreNewlineFree(content[Index(content, '\n') + 1..]);
    }
  }

  lemma {:induction false} LookupUndelimited(lines: seq<string>, k: string)
    ensures Lookup(Undelimited(lines), k) == Lookup(lines, k)
    decreases |lines|
  {
    hide Trim, Index, Ignored, Unquote, DropCR, KeyOf, Entry;
    if lines != [] {
      DropCRKeepsMeaning(lines[0]);
      LookupUndelimited(lines[1..], k);
      assert Undelimited(lines)[1..] == Undelimited(lines[1..]);
    }
  }

  /** Each upserted line is a given key's own assignment, or an old line that assigns none of them. */
  lemma UpsertedLine(kv: map<string, string>, old_: seq<string>, new_: seq<string>, i: nat)
    requires WellFormed(kv) && Upserted(kv, old_, new_) && i < |new_|
    requires OnlyAssignments(kv, kv.Keys - Seen(kv, old_), new_[|old_|..])
    ensures (exists k :: k in kv && new_[i] == Assignment(k, kv[k]) && KeyOf(new_[i]) == Some(k) && !EndsInCR(new_[i]))
            || (new_[i] in old_ && !(KeyOf(new_[i]).Some? && KeyOf(new_[i]).value in kv))
  {
    if i < |old_| {
      assert new_[i] == new_[..|old_|][i] == Rewrite(kv, old_[i]);
      if KeyOf(old_[i]).Some? && KeyOf(old_[i]).value in kv {
        var k := KeyOf(old_[i]).value;
        AssignmentMeans(k, kv[k]);
        AssignmentIsTrimmed(k, kv[k]);
      }
    } else {
      assert new_[i] == new_[|old_|..][i - |old_|] && new_[i] in new_[|old_|..];
      var k :| k in kv.Keys - Seen(kv, old_) && new_[i] == Assignment(k, kv[k]);
      AssignmentMeans(k, kv[k]);
      AssignmentIsTrimmed(k, kv[k]);
    }
  }

  lemma UpsertedNewlineFree(kv: map<string, string>, old_: seq<string>, new_: seq<string>)
    requires WellFormed(kv) && NewlineFree(old_) && Upserted(kv, old_, new_)
    ensures NewlineFree(new_)
  {
    AppendixAssigns(kv, kv.Keys - Seen(kv, old_), new_[|old_|..]);
    hide Trim, Index, Ignored, KeyOf, Before, EndsInCR, Upserted;
    forall i | 0 <= i < |new_|
      ensures '\n' !in new_[i]
    {
      UpsertedLine(kv, old_, new_, i);
      if !(new_[i] in old_) {
        var k :| k in kv && new_[i] == Assignment(k, kv[k]);
        assert WellFormedKey(k) && WellFormedValue(kv[k]);
      }
    }
  }

  /** The meaning of one key in the upserted lines. */
  lemma LookupUpserted(kv: map<string, string>, old_: seq<string>, new_: seq<string>, k: string)
    requires WellFormed(kv) && Upserted(kv, old_, new_)
    ensures Lookup(new_, k) == if k in kv then Some(kv[k]) else Lookup(old_, k)
  {
    var missing, tail := kv.Keys - Seen(kv, old_), new_[|old_|..];
    assert new_ == new_[..|old_|] + tail;
    LookupConcat(new_[..|old_|], tail, k);
    LookupRewritten(kv, old_, k);
    AppendixAssigns(kv, missing, tail);
    LookupAppendix(kv, missing, tail, k);
    if k in kv { SeenIsAssigns(kv, old_, k); }
  }

  /**
   * Reading the upserted file gives every given key its new value and every other key its old one;
   * as before, whatever the process environment already holds wins.
   */
  lemma UpsertThenApply(env: map<string, string>, kv: map<string, string>, before: string, after: string)
    requires WellFormed(kv) && UpsertedFile(kv, before, after)
    ensures Apply(env, Lines(after)) == Apply(env, Lines(before)) + (map k | k in kv && k !in env :: kv[k])
  {
    var new_ :| after == Join(new_) && Upserted(kv, Lines(before), new_);
    hide *;
    LinesAreNewlineFree(before);
    UpsertedNewlineFree(kv, Lines(before), new_);
    LinesOfJoin(new_);
    forall k
      ensures Get(Apply(env, Lines(after)), k) == Upd(env, kv, Get(Apply(env, Lines(before)), k), k)
    {
      ApplyIsLookup(env, Lines(after), k);
      ApplyIsLookup(env, Lines(before), k);
      LookupUndelimited(new_, k);
      LookupUpserted(kv, Lines(before), new_, k);
      UpdMeans(env, kv, Lookup(Lines(before), k), k);
    }
    SameGets(env, kv, Apply(env, Lines(before)), Apply(env, Lines(after)));
  }

  /** What becomes of one key whose old reading was `was`. */
  function Upd(env: map<string, string>, kv: map<string, string>, was: Option<string>, k: string): Option<string> {
    if k in kv && k !in env then Some(kv[k]) else was
  }

  lemma UpdMeans(env: map<string, string>, kv: map<string, string>, found: Option<string>, k: string)
    ensures Upd(env, kv, if k in env then Some(env[k]) else found, k)
         == if k in env then Some(env[k]) else if k in kv then Some(kv[k]) else found
  {
  }

  lemma SameGets(env: map<string, string>, kv: map<string, string>, was: map<string, string>, now: map<string, string>)
    requires forall k :: Get(now, k) == Upd(env, kv, Get(was, k), k)
    ensures now == was + (map k | k in kv && k !in env :: kv[k])
  {
    var expected := was + (map k | k in kv && k !in env :: kv[k]);
    forall k
      ensures k in now <==> k in expected
      ensures k in now ==> now[k] == expected[k]
    {
      assert Get(now, k) == Upd(env, kv, Get(was, k), k);
    }
  }

  /** Every line that assigns none of the given keys - comments, blanks, the rest - keeps its text and its place. */
  lemma OtherLinesKeepTheirPlace(kv: map<string, string>, before: string, after: string, i: nat)
    requires WellFormed(kv) && UpsertedFile(kv, before, after) && i < |Lines(before)|
    requires KeyOf(Lines(before)[i]).None? || KeyOf(Lines(before)[i]).value !in kv
    ensures i < |Lines(after)| && Lines(after)[i] == DropCR(Lines(before)[i])
  {
    var new_ :| after == Join(new_) && Upserted(kv, Lines(before), new_);
    LinesAreNewlineFree(before);
    UpsertedNewlineFree(kv, Lines(before), new_);
    LinesOfJoin(new_);
    assert new_[i] == new_[..|Lines(before)|][i];
  }

  // -------------------------------------------------------------- idempotence

  lemma {:induction false} JoinUndelimited(lines: seq<string>)
    ensures |Join(Undelimited(lines))| <= |Join(lines)|
    ensures Join(Undelimited(lines)) == Join(lines) <==> forall l | l in lines :: !EndsInCR(l)
    decreases |lines|
  {
    if lines != [] {
      var rest := lines[1..];
      JoinUndelimited(rest);
      assert Undelimited(lines)[1..] == Undelimited(rest);
      assert lines == [lines[0]] + rest;
      if !EndsInCR(lines[0]) {
        var pre := lines[0] + ['\n'];
        assert Join(lines) == pre + Join(rest) && Join(Undelimited(lines)) == pre + Join(Undelimited(rest));
        assert Join(lines)[|pre|..] == Join(rest) && Join(Undelimited(lines))[|pre|..] == Join(Undelimited(rest));
      } else {
        assert lines[0] in lines && |Join(Undelimited(lines))| < |Join(lines)|;
      }
    }
  }

  /** In upserted lines a given key is assigned by its own assignment only, and by at least one. */
  lemma UpsertedAssigns(kv: map<string, string>, old_: seq<string>, new_: seq<string>)
    requires WellFormed(kv) && Upserted(kv, old_, new_)
    ensures forall i | 0 <= i < |new_| && KeyOf(new_[i]).Some? && KeyOf(new_[i]).value in kv ::
              new_[i] == Assignment(KeyOf(new_[i]).value, kv[KeyOf(new_[i]).value])
    ensures forall k | k in kv :: Assigns(new_, k)
    ensures forall l | l in new_ && EndsInCR(l) :: l in old_ && !(KeyOf(l).Some? && KeyOf(l).value in kv)
    ensures forall l | l in old_ && !(KeyOf(l).Some? && KeyOf(l).value in kv) :: l in new_
  {
    hide Trim, Index, Ignored, KeyOf, Before, WellFormedKey, WellFormedValue, EndsInCR, Assignment;
    var tail := new_[|old_|..];
    AppendixAssigns(kv, kv.Keys - Seen(kv, old_), tail);
    forall i | 0 <= i < |new_|
      ensures KeyOf(new_[i]).Some? && KeyOf(new_[i]).value in kv
              ==> new_[i] == Assignment(KeyOf(new_[i]).value, kv[KeyOf(new_[i]).value])
      ensures EndsInCR(new_[i]) ==> new_[i] in old_ && !(KeyOf(new_[i]).Some? && KeyOf(new_[i]).value in kv)
    {
      UpsertedLine(kv, old_, new_, i);
    }
    forall k | k in kv
      ensures Assigns(new_, k)
    {
      AssignmentMeans(k, kv[k]);
      SeenIsAssigns(kv, old_, k);
      if Assigns(old_, k) {
        var i :| 0 <= i < |old_| && KeyOf(old_[i]) == Some(k);
        assert new_[i] == new_[..|old_|][i] == Assignment(k, kv[k]);
      } else {
        var i :| 0 <= i < |tail| && tail[i] == Assignment(k, kv[k]);
        assert new_[|old_| + i] == tail[i];
      }
    }
    forall l | l in old_ && !(KeyOf(l).Some? && KeyOf(l).value in kv)
      ensures l in new_
    {
      var i :| 0 <= i < |old_| && old_[i] == l;
      assert new_[i] == new_[..|old_|][i] == l;
    }
  }

  /**
   * A second upsert of the same keys leaves the file as it is exactly when no kept line of the
   * original ends in a carriage return (two before its newline): each pass strips one of those.
   */
  lemma SecondUpsertIffNoCR(kv: map<string, string>, before: string, after: string, again: string)
    requires WellFormed(kv) && UpsertedFile(kv, before, after) && UpsertedFile(kv, after, again)
    ensures again == after <==>
            forall l | l in Lines(before) && EndsInCR(l) :: KeyOf(l).Some? && KeyOf(l).value in kv
  {
    var old_ := Lines(before);
    var new_ :| after == Join(new_) && Upserted(kv, old_, new_);
    LinesAreNewlineFree(before);
    UpsertedNewlineFree(kv, old_, new_);
    LinesOfJoin(new_);
    UpsertedAssigns(kv, old_, new_);
    var third :| again == Join(third) && Upserted(kv, Undelimited(new_), third);
    SecondRewrite(kv, new_, third);
    JoinUndelimited(new_);
  }

  lemma SecondRewrite(kv: map<string, string>, new_: seq<string>, third: seq<string>)
    requires WellFormed(kv) && Upserted(kv, Undelimited(new_), third)
    requires forall i | 0 <= i < |new_| && KeyOf(new_[i]).Some? && KeyOf(new_[i]).value in kv ::
               new_[i] == Assignment(KeyOf(new_[i]).value, kv[KeyOf(new_[i]).value])
    requires forall k | k in kv :: Assigns(new_, k)
    ensures third == Undelimited(new_)
  {
    hide Trim, Index, Ignored, KeyOf, Before, Entry;
    var d := Undelimited(new_);
    forall k | k in kv
      ensures k in Seen(kv, d)
    {
      var i :| 0 <= i < |new_| && KeyOf(new_[i]) == Some(k);
      DropCRKeepsMeaning(new_[i]);
      assert KeyOf(d[i]) == Some(k);
      SeenIsAssigns(kv, d, k);
    }
    AppendixAssigns(kv, kv.Keys - Seen(kv, d), third[|d|..]);
    assert kv.Keys - Seen(kv, d) == {};
    forall i | 0 <= i < |d|
      ensures third[i] == d[i]
    {
      assert third[i] == third[..|d|][i] == Rewrite(kv, d[i]);
      DropCRKeepsMeaning(new_[i]);
      if KeyOf(new_[i]).Some? && KeyOf(new_[i]).value in kv {
        AssignmentIsTrimmed(KeyOf(new_[i]).value, kv[KeyOf(new_[i]).value]);
      }
    }
  }

  // ------------------------------------------------- which values survive

  /** For a well-formed key in a fresh file, a value is read back as written exactly when it is well formed. */
  lemma ValueSurvivesIff(k: string, v: string)
    requires WellFormedKey(k)
    ensures Lookup(Lines(Assignment(k, v) + ['\n']), k) == Some(v) <==> WellFormedValue(v)
  {
    if WellFormedValue(v) {
      OneLine(Assignment(k, v));
      AssignmentIsTrimmed(k, v);
      AssignmentMeans(k, v);
    } else if '\n' in v {
      BrokenValue(k, v);
    } else {
      OneLine(Assignment(k, v));
      DropCRKeepsMeaning(Assignment(k, v));
      ValueRead(k, v);
    }
  }

  lemma OneLine(line: string)
    requires '\n' !in line
    ensures Lines(line + ['\n']) == [DropCR(line)]
  {
    LinesOfJoin([line]);
    assert Join([line]) == line + ['\n'] by { assert [line][1..] == []; assert line + ['\n'] + [] == line + ['\n']; }
  }

  /** Any assignment of a well-formed key is read as the trimmed value, less its quotes. */
  lemma ValueRead(k: string, v: string)
    requires WellFormedKey(k)
    ensures Entry(Assignment(k, v)) == Some((k, Unquote(Trim(v))))
    ensures |Trim(v)| <= |v|
  {
    hide Trim, Entry, Unquote, WellFormedKey;
    var lead, tail := TrimSplit(v);
    if Trim(v) == [] {
      BlankValueTrimmed(k, v, lead + tail);
      EntryOfTrimmed(k, v, []);
      TrimFixed([]);
    } else {
      PaddedValueTrimmed(k, lead, Trim(v), tail);
      EntryOfTrimmed(k, v, lead + Trim(v));
    }
  }

  lemma BlankValueTrimmed(k: string, v: string, space: string)
    requires WellFormedKey(k) && v == space && AllSpace(space)
    ensures Trim(Assignment(k, v)) == Assignment(k, [])
  {
    TrimFixed([]);
    AssignmentIsTrimmed(k, []);
    hide Trim, WellFormedKey;
    var core := Assignment(k, []);
    assert [] + core + space == Assignment(k, v);
    TrimPad([], core, space);
  }

  lemma PaddedValueTrimmed(k: string, lead: string, core: string, tail: string)
    requires WellFormedKey(k) && AllSpace(lead) && AllSpace(tail)
    requires core != [] && !IsSpace(core[0]) && !IsSpace(core[|core| - 1])
    ensures Trim(Assignment(k, lead + core + tail)) == Assignment(k, lead + core)
    ensures Trim(lead + core) == Trim(core) == core
  {
    TrimmedEnds(k);
    hide Trim, AllSpace, WellFormedKey, IsSpace;
    var middle := Assignment(k, lead + core);
    assert middle[0] == k[0] && middle[|middle| - 1] == core[|core| - 1];
    TrimFixed(middle);
    TrimFixed(core);
    assert [] + middle + tail == Assignment(k, lead + core + tail);
    TrimNothing();
    TrimPad([], middle, tail);
    TrimPad(lead, core, []);
    assert lead + core + [] == lead + core;
  }

  lemma TrimNothing()
    ensures AllSpace([])
  {
  }

  lemma EntryOfTrimmed(k: string, v: string, w: string)
    requires WellFormedKey(k) && Trim(Assignment(k, v)) == Assignment(k, w)
    ensures Entry(Assignment(k, v)) == Some((k, Unquote(Trim(w))))
  {
    IndexOfAssignment(k, w);
    assert Assignment(k, w)[0] == k[0];
  }

  /** A newline inside the value ends the line: what is read cannot contain it. */
  lemma BrokenValue(k: string, v: string)
    requires WellFormedKey(k) && '\n' in v
    ensures Lookup(Lines(Assignment(k, v) + ['\n']), k) != Some(v)
  {
    var n := Index(v, '\n');
    var text, line := Assignment(k, v) + ['\n'], Assignment(k, v[..n]);
    assert text[..|line|] == line && text[|line|] == '\n';
    assert '\n' !in line;
    IndexUnique(text, '\n', |line|);
    DropCRKeepsMeaning(line);
    ValueRead(k, v[..n]);
    assert Lookup(Lines(text), k) == Some(Unquote(Trim(v[..n])));
    assert |Unquote(Trim(v[..n]))| <= n < |v|;
  }
}
