/** The `.env` file: upserting keys line by line, and hydrating the process environment from it. */
module EnvFile {
  import opened Common
  import opened Text

  // ---------------------------------------------------------- lines of text

  function DropCR(s: string): string {
    if s != [] && s[|s| - 1] == '\r' then s[..|s| - 1] else s
  }

  /** `bufio.ScanLines`: split at newlines, each line less one trailing carriage return. */
  function Lines(content: string): seq<string>
    decreases |content|
  {
    if content == [] then []
    else
      var i := Index(content, '\n');
      if i == -1 then [DropCR(content)] else [DropCR(content[..i])] + Lines(content[i + 1..])
  }

  function Join(lines: seq<string>): string {
    if lines == [] then [] else lines[0] + ['\n'] + Join(lines[1..])
  }

  // ------------------------------------------------------------ line meaning

  predicate Ignored(line: string) {
    var t := Trim(line);
    t == [] || t[0] == '#'
  }

  /** The key a line assigns, for the writer. */
  function KeyOf(line: string): Option<string> {
    var eq := Index(line, '=');
    if Ignored(line) || eq == -1 then None else Some(Trim(line[..eq]))
  }

  predicate QuoteWrapped(v: string) {
    |v| >= 2 && v[0] == v[|v| - 1] && (v[0] == '"' || v[0] == '\'')
  }

  function Unquote(v: string): string {
    if QuoteWrapped(v) then v[1..|v| - 1] else v
  }

  /** The assignment a line makes, for the reader. */
  function Entry(text: string): Option<(string, string)> {
    var line := Trim(text);
    var eq := Index(line, '=');
    if Ignored(text) || eq == -1 || Trim(line[..eq]) == [] then None
    else Some((Trim(line[..eq]), Unquote(Trim(line[eq + 1..]))))
  }

  function Assignment(key: string, value: string): string {
    key + ['='] + value
  }

  // ------------------------------------------------------------ reading

  /** One line: a key already in the environment keeps its value. */
  function ApplyLine(env: map<string, string>, text: string): map<string, string> {
    match Entry(text)
    case None => env
    case Some((k, v)) => if k in env then env else env[k := v]
  }

  function Apply(env: map<string, string>, lines: seq<string>): map<string, string>
    decreases |lines|
  {
    if lines == [] then env else Apply(ApplyLine(env, lines[0]), lines[1..])
  }

  method ApplyEnvFile(env: map<string, string>, file: Option<string>) returns (hydrated: map<string, string>)
    ensures hydrated == if file.Some? then Apply(env, Lines(file.value)) else env
  {
    hydrated := env;
    if file.None? {
      return;
    }
    var lines := Lines(file.value);
    for i := 0 to |lines|
      invariant Apply(hydrated, lines[i..]) == Apply(env, lines)
    {
      assert lines[i..][1..] == lines[i + 1..];
      hydrated := SetFromLine(hydrated, lines[i]);
    }
  }

  /** One iteration of the reader's loop. */
  method SetFromLine(env: map<string, string>, text: string) returns (hydrated: map<string, string>)
    ensures hydrated == ApplyLine(env, text)
  {
    hide Trim, Index;
    var line := Trim(text);
    if line == [] || line[0] == '#' {
      return env;
    }
    var eq := Index(line, '=');
    if eq == -1 {
      return env;
    }
    var key := Trim(line[..eq]);
    if key == [] || key in env {
      return env;
    }
    var val := Trim(line[eq + 1..]);
    if |val| >= 2 && ((val[0] == '"' && val[|val| - 1] == '"') || (val[0] == '\'' && val[|val| - 1] == '\'')) {
      val := val[1..|val| - 1];
    }
    hydrated := env[key := val];
  }

  // ------------------------------------------------------------ writing

  function Rewrite(kv: map<string, string>, line: string): string {
    var k := KeyOf(line);
    if k.Some? && k.value in kv then Assignment(k.value, kv[k.value]) else line
  }

  function RewriteAll(kv: map<string, string>, lines: seq<string>): seq<string> {
    seq(|lines|, i requires 0 <= i < |lines| => Rewrite(kv, lines[i]))
  }

  /** Keys of `kv` that some line already assigns. */
  ghost function Seen(kv: map<string, string>, lines: seq<string>): set<string> {
    set k | k in kv && Some(k) in seq(|lines|, i requires 0 <= i < |lines| => KeyOf(lines[i]))
  }

  /** Byte order of strings, code point by code point. */
  predicate Before(a: string, b: string) {
    a == [] || (b != [] && (a[0] < b[0] || (a[0] == b[0] && Before(a[1..], b[1..]))))
  }

  ghost predicate Sorted(lines: seq<string>) {
    forall i | 0 < i < |lines| :: Before(lines[i - 1], lines[i])
  }

  ghost predicate Enumerates(keys: seq<string>, ks: set<string>) {
    (forall i, j | 0 <= i < j < |keys| :: keys[i] != keys[j]) && forall k :: k in keys <==> k in ks
  }

  function Assignments(kv: map<string, string>, keys: seq<string>): seq<string>
    requires forall k | k in keys :: k in kv
  {
    seq(|keys|, i requires 0 <= i < |keys| => Assignment(keys[i], kv[keys[i]]))
  }

  /** Exactly one assignment per missing key, sorted. */
  ghost predicate Appendix(kv: map<string, string>, missing: set<string>, tail: seq<string>) {
    && Sorted(tail)
    && exists keys :: Enumerates(keys, missing) && (forall k | k in keys :: k in kv)
                      && multiset(tail) == multiset(Assignments(kv, keys))
  }

  /**
   * The lines an upsert leaves: the old ones in place, rewritten where they assign a given key, then the missing
   * keys.
   */
  ghost predicate Upserted(kv: map<string, string>, old_: seq<string>, new_: seq<string>) {
    && |new_| >= |old_|
    && new_[..|old_|] == RewriteAll(kv, old_)
    && Appendix(kv, kv.Keys - Seen(kv, old_), new_[|old_|..])
  }

  lemma BeforeTotal(a: string, b: string)
    ensures Before(a, b) || Before(b, a)
  {
  }

  /** `sort.Strings`, by insertion. */
  method SortStrings(lines: seq<string>) returns (r: seq<string>)
    ensures Sorted(r) && multiset(r) == multiset(lines)
  {
    r := [];
    for i := 0 to |lines|
      invariant Sorted(r) && multiset(r) == multiset(lines[..i])
    {
      r := InsertSorted(r, lines[i]);
      assert lines[..i + 1] == lines[..i] + [lines[i]];
    }
    assert lines[..|lines|] == lines;
  }

  method InsertSorted(sorted: seq<string>, x: string) returns (r: seq<string>)
    requires Sorted(sorted)
    ensures Sorted(r) && multiset(r) == multiset(sorted) + multiset{x}
  {
    var j := |sorted|;
    while j > 0 && !Before(sorted[j - 1], x)
      invariant 0 <= j <= |sorted|
      invariant j < |sorted| ==> Before(x, sorted[j])
    {
      BeforeTotal(sorted[j - 1], x);
      j := j - 1;
    }
    SplicedSorted(sorted, j, x);
    r := sorted[..j] + [x] + sorted[j..];
  }

  lemma SplicedSorted(sorted: seq<string>, j: nat, x: string)
    requires Sorted(sorted) && j <= |sorted|
    requires j > 0 ==> Before(sorted[j - 1], x)
    requires j < |sorted| ==> Before(x, sorted[j])
    ensures Sorted(sorted[..j] + [x] + sorted[j..])
    ensures multiset(sorted[..j] + [x] + sorted[j..]) == multiset(sorted) + multiset{x}
  {
    hide *;
    SplicedMultiset(sorted, j, x);
    SplicedOrder(sorted, j, x, sorted[..j] + [x] + sorted[j..]);
  }

  lemma SplicedMultiset(sorted: seq<string>, j: nat, x: string)
    requires j <= |sorted|
    ensures multiset(sorted[..j] + [x] + sorted[j..]) == multiset(sorted) + multiset{x}
  {
    assert sorted == sorted[..j] + sorted[j..];
  }

  lemma SplicedOrder(sorted: seq<string>, j: nat, x: string, r: seq<string>)
    requires Sorted(sorted) && j <= |sorted| && r == sorted[..j] + [x] + sorted[j..]
    requires j > 0 ==> Before(sorted[j - 1], x)
    requires j < |sorted| ==> Before(x, sorted[j])
    ensures Sorted(r)
  {
    hide Before;
    assert r[j] == x && |r| == |sorted| + 1;
    assert forall i | 0 <= i < j :: r[i] == sorted[i];
    assert forall i | j < i < |r| :: r[i] == sorted[i - 1];
  }

  /** The assignments of the keys not seen, gathered from the map in any order and sorted. */
  method MissingAssignments(kv: map<string, string>, seen: set<string>) returns (tail: seq<string>)
    ensures Appendix(kv, kv.Keys - seen, tail)
  {
    var toAppend: seq<string> := [];
    var left := kv.Keys;
    ghost var keys: seq<string> := [];
    while left != {}
      invariant left <= kv.Keys && Enumerates(keys, kv.Keys - seen - left)
      invariant forall k | k in keys :: k in kv
      invariant toAppend == Assignments(kv, keys)
      decreases left
    {
      var k :| k in left;
      left := left - {k};
      if k !in seen {
        toAppend := toAppend + [Assignment(k, kv[k])];
        keys := keys + [k];
      }
    }
    tail := SortStrings(toAppend);
  }

  method RewriteLines(lines: seq<string>, kv: map<string, string>)
    returns (existingLines: seq<string>, seen: set<string>)
    ensures existingLines == RewriteAll(kv, lines) && seen == Seen(kv, lines)
  {
    existingLines, seen := [], {};
    for i := 0 to |lines|
      invariant existingLines == RewriteAll(kv, lines[..i]) && seen == Seen(kv, lines[..i])
    {
      var line := lines[i];
      SeenOneMore(kv, lines, i);
      var trimmed := Trim(line);
      if trimmed == [] || trimmed[0] == '#' {
        existingLines := existingLines + [line];
        continue;
      }
      var eqIdx := Index(line, '=');
      if eqIdx == -1 {
        existingLines := existingLines + [line];
        continue;
      }
      var key := Trim(line[..eqIdx]);
      if key in kv {
        existingLines := existingLines + [Assignment(key, kv[key])];
        seen := seen + {key};
      } else {
        existingLines := existingLines + [line];
      }
    }
    assert lines[..|lines|] == lines;
  }

  method WriteLines(lines: seq<string>) returns (content: string)
    ensures content == Join(lines)
  {
    content := [];
    for i := 0 to |lines|
      invariant content == Join(lines[..i])
    {
      JoinSnoc(lines[..i], lines[i]);
      assert lines[..i + 1] == lines[..i] + [lines[i]];
      content := content + lines[i] + ['\n'];
    }
    assert lines[..|lines|] == lines;
  }

  method UpsertEnv(file: Option<string>, kv: map<string, string>) returns (content: string)
    ensures UpsertedFile(kv, if file.Some? then file.value else [], content)
  {
    var lines := if file.Some? then Lines(file.value) else [];
    var existingLines, seen := RewriteLines(lines, kv);
    var tail := MissingAssignments(kv, seen);
    content := WriteLines(existingLines + tail);
    assert (existingLines + tail)[..|lines|] == existingLines && (existingLines + tail)[|lines|..] == tail;
    assert Upserted(kv, lines, existingLines + tail);
  }

  /** Contents before and after an upsert; a missing file reads as an empty one. */
  ghost predicate UpsertedFile(kv: map<string, string>, before: string, after: string) {
    exists new_ :: after == Join(new_) && Upserted(kv, Lines(before), new_)
  }

  lemma SeenOneMore(kv: map<string, string>, lines: seq<string>, i: nat)
    requires i < |lines|
    ensures Seen(kv, lines[..i + 1]) == Seen(kv, lines[..i]) + (set k | k in kv && KeyOf(lines[i]) == Some(k))
    ensures RewriteAll(kv, lines[..i + 1]) == RewriteAll(kv, lines[..i]) + [Rewrite(kv, lines[i])]
  {
    var a := seq(i, j requires 0 <= j < |lines[..i]| => KeyOf(lines[..i][j]));
    var b := seq(i + 1, j requires 0 <= j < |lines[..i + 1]| => KeyOf(lines[..i + 1][j]));
    assert b == a + [KeyOf(lines[i])];
  }

  lemma JoinStep(lines: seq<string>)
    requires lines != []
    ensures Join(lines) == lines[0] + (['\n'] + Join(lines[1..]))
  {
  }

  lemma {:induction false} JoinSnoc(lines: seq<string>, line: string)
    ensures Join(lines + [line]) == Join(lines) + line + ['\n']
    decreases |lines|
  {
    var all := lines + [line];
    if lines == [] {
      assert all == [line] && all[1..] == [] && Join([]) == [];
    } else {
      assert all[0] == lines[0] && all[1..] == lines[1..] + [line];
      JoinSnoc(lines[1..], line);
      JoinStep(all);
      JoinStep(lines);
      hide Join;
    }
  }

  // ----------------------------------------------------------- well-formedness

  predicate WellFormedKey(k: string) {
    k != [] && Trim(k) == k && k[0] != '#' && '=' !in k && '\n' !in k
  }

  predicate WellFormedValue(v: string) {
    Trim(v) == v && '\n' !in v && !QuoteWrapped(v)
  }

  ghost predicate WellFormed(kv: map<string, string>) {
    forall k | k in kv :: WellFormedKey(k) && WellFormedValue(kv[k])
  }

  lemma IndexOfAssignment(k: string, v: string)
    requires '=' !in k
    ensures Index(Assignment(k, v), '=') == |k|
    ensures Assignment(k, v)[..|k|] == k && Assignment(k, v)[|k| + 1..] == v
  {
    IndexUnique(Assignment(k, v), '=', |k|);
  }
}
