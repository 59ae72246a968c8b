/** Two ways of loading one secret map into an environment: in the process (ApplyMap), and
    through a shell that sources the file `loadsecret` prints. */
module Secrets {
  import opened Text
  import opened Wrappers

  type Env = map<string, string>

  const LOADED := "KALKE_SECRETS_LOADED"

  datatype Fetched = Fetched(data: map<string, string>) | FetchFailed

  predicate Pinned(env: Env, k: string) {
    k in env && env[k] != ""
  }

  // What a load may write: not the sentinel, and no key that already has a value.
  function WithoutExisting(env: Env, data: map<string, string>): map<string, string> {
    map k | k in data && k != LOADED && !Pinned(env, k) :: data[k]
  }

  predicate Settable(k: string, v: string) {
    k != "" && '=' !in k && '\0' !in k && '\0' !in v
  }

  function Lookup(env: Env, k: string): string {
    if k in env then env[k] else ""
  }

  // The sentinel as LoadIntoEnv tests it.
  predicate AlreadyLoaded(env: Env) {
    Trim(Lookup(env, LOADED)) != ""
  }

  // env after trying to set the keys in `done` from m.
  function Written(env: Env, m: map<string, string>, done: set<string>): Env {
    env + map k | k in m && k in done && Settable(k, m[k]) :: m[k]
  }

  lemma WrittenStep(env: Env, m: map<string, string>, done: set<string>, k: string)
    requires k in m
    ensures Written(env, m, done + {k})
            == if Settable(k, m[k]) then Written(env, m, done)[k := m[k]] else Written(env, m, done)
  {
  }

  lemma WrittenEnds(env: Env, m: map<string, string>)
    ensures Written(env, m, {}) == env
    ensures (forall k :: k in m ==> Settable(k, m[k])) ==> Written(env, m, m.Keys) == env + m
  {
    if forall k :: k in m ==> Settable(k, m[k]) {
      assert (map k | k in m && k in m.Keys && Settable(k, m[k]) :: m[k]) == m;
    }
  }

  function Applied(env: Env, data: map<string, string>): Env {
    var missing := WithoutExisting(env, data);
    Written(env, missing, missing.Keys)
  }

  function AfterLoad(env: Env, fetched: Fetched): Env {
    if AlreadyLoaded(env) || fetched.FetchFailed? || fetched.data == map[] then env
    else Applied(env, fetched.data)[LOADED := "1"]
  }

  // What loading a secret into the environment comes to: a name that has a value keeps it; one that has
  // none, or an empty one, gets the secret's, if it and its value can be set at all; nothing else changes.
  lemma AppliedMeans(env: Env, data: map<string, string>, k: string)
    ensures var after := Applied(env, data);
            if k in data && k != "KALKE_SECRETS_LOADED" && !(k in env && env[k] != "")
               && k != "" && '=' !in k && '\0' !in k && '\0' !in data[k]
            then k in after && after[k] == data[k]
            else (k in after <==> k in env) && (k in env ==> after[k] == env[k])
  {
  }

  // LoadIntoEnv does nothing when the sentinel is set to anything visible, when nothing could be fetched
  // and for an empty secret; otherwise it applies the secret and sets the sentinel.
  lemma AfterLoadMeans(env: Env, fetched: Fetched)
    ensures var name := "KALKE_SECRETS_LOADED";
            AfterLoad(env, fetched) ==
            if (name in env && Trim(env[name]) != "") || fetched.FetchFailed? || fetched.data == map[] then env
            else Applied(env, fetched.data)[name := "1"]
  {
    TrimFixed("");
  }

  method CopyWithoutExisting(env: Env, data: map<string, string>) returns (out: map<string, string>)
    ensures out == WithoutExisting(env, data)
    ensures forall k :: k in out <==> k in data && k != "KALKE_SECRETS_LOADED" && !(k in env && env[k] != "")
    ensures forall k :: k in out ==> out[k] == data[k]
  {
    out := map[];
    var todo := data.Keys;
    while todo != {}
      invariant todo <= data.Keys
      invariant out == map k | k in data && k !in todo && k != LOADED && !Pinned(env, k) :: data[k]
      decreases |todo|
    {
      var k :| k in todo;
      todo := todo - {k};
      if k == LOADED {
        continue;
      }
      if k in env && env[k] != "" {
        continue;
      }
      out := out[k := data[k]];
    }
  }

  // The process whose environment os.Setenv changes.
  class Process {
    var env: Env

    constructor (env: Env)
      ensures this.env == env
    {
      this.env := env;
    }

    // os.Setenv: names that are empty or hold '=' or NUL, and values holding NUL, are refused.
    method Setenv(k: string, v: string) returns (ok: bool)
      modifies this
      ensures ok <==> k != "" && '=' !in k && '\0' !in k && '\0' !in v
      ensures env == if ok then old(env)[k := v] else old(env)
    {
      ok := Settable(k, v);
      if ok {
        env := env[k := v];
      }
    }

    method ApplyMap(data: map<string, string>)
      modifies this
      ensures env == Applied(old(env), data)
    {
      var missing := CopyWithoutExisting(env, data);
      var todo := missing.Keys;
      assert missing.Keys - todo == {};
      WrittenEnds(env, missing);
      while todo != {}
        invariant todo <= missing.Keys
        invariant env == Written(old(env), missing, missing.Keys - todo)
        decreases |todo|
      {
        var k :| k in todo;
        WrittenStep(old(env), missing, missing.Keys - todo, k);
        assert missing.Keys - (todo - {k}) == missing.Keys - todo + {k};
        todo := todo - {k};
        var _ := Setenv(k, missing[k]);
      }
      assert missing.Keys - todo == missing.Keys;
    }

    method LoadIntoEnv(fetched: Fetched) returns (ok: bool)
      modifies this
      ensures env == AfterLoad(old(env), fetched)
      ensures ok == (AlreadyLoaded(old(env)) || fetched.Fetched?)
    {
      if Trim(Lookup(env, LOADED)) != "" {
        return true;
      }
      if fetched.FetchFailed? {
        return false;
      }
      if |fetched.data| == 0 {
        return true;
      }
      ApplyMap(fetched.data);
      var _ := Setenv(LOADED, "1");
      return true;
    }
  }

  // ---- The printer

  // strings.ReplaceAll(v, `'`, `'"'"'`)
  function Escape(v: string): string {
    if v == "" then ""
    else (if v[0] == '\'' then "'\"'\"'" else [v[0]]) + Escape(v[1..])
  }

  function Quote(v: string): string {
    "'" + Escape(v) + "'"
  }

  function Line(k: string, v: string): string {
    k + "=" + (Quote(v) + "\n")
  }

  function Lines(order: seq<string>, m: map<string, string>): string
    requires forall i :: 0 <= i < |order| ==> order[i] in m
  {
    if order == [] then "" else Line(order[0], m[order[0]]) + Lines(order[1..], m)
  }

  // The file for the keys taken in this order, the sentinel's line last.
  function FileText(order: seq<string>, m: map<string, string>): string
    requires forall i :: 0 <= i < |order| ==> order[i] in m
  {
    Lines(order, m) + Line(LOADED, "1")
  }

  // An order in which a loop over the map may visit it.
  ghost predicate Enumerates(order: seq<string>, m: map<string, string>) {
    && (forall i :: 0 <= i < |order| ==> order[i] in m)
    && (forall k :: k in m ==> k in order)
    && (forall i, j :: 0 <= i < j < |order| ==> order[i] != order[j])
  }

  lemma {:induction false} LinesAppend(order: seq<string>, k: string, m: map<string, string>)
    requires k in m && forall i :: 0 <= i < |order| ==> order[i] in m
    ensures Lines(order + [k], m) == Lines(order, m) + Line(k, m[k])
  {
    if order == [] {
      assert [k][1..] == [];
    } else {
      assert (order + [k])[1..] == order[1..] + [k];
      LinesAppend(order[1..], k, m);
      var head := Line(order[0], m[order[0]]);
      assert head + (Lines(order[1..], m) + Line(k, m[k])) == (head + Lines(order[1..], m)) + Line(k, m[k]);
    }
  }

  // cmd/loadsecret: one line a key in the map's own order, then the sentinel.
  method PrintFile(env: Env, data: map<string, string>) returns (file: string)
    ensures exists order :: && Enumerates(order, WithoutExisting(env, data))
                            && file == FileText(order, WithoutExisting(env, data))
  {
    var m := CopyWithoutExisting(env, data);
    file := "";
    ghost var order: seq<string> := [];
    var todo := m.Keys;
    while todo != {}
      invariant todo <= m.Keys
      invariant forall i :: 0 <= i < |order| ==> order[i] in m && order[i] !in todo
      invariant forall i, j :: 0 <= i < j < |order| ==> order[i] != order[j]
      invariant forall k :: k in m && k !in todo ==> k in order
      invariant file == Lines(order, m)
      decreases |todo|
    {
      var k :| k in todo;
      todo := todo - {k};
      LinesAppend(order, k, m);
      file := file + Line(k, m[k]);
      order := order + [k];
    }
    file := file + Line(LOADED, "1");
    assert Enumerates(order, m);
  }

  // ---- The reader: section 2.2 of the POSIX Shell Command Language (IEEE Std 1003.1)

  datatype Mode = Plain | Single | Double

  // Unread says that the text is outside the subset: an expansion, an operator, an open quote, a NUL,
  // which no text file holds.
  datatype Read = Word(value: string, rest: string) | Unread

  function Cons(c: char, r: Read): Read {
    if r.Word? then Word([c] + r.value, r.rest) else Unread
  }

  predicate Special(c: char) {
    c in "|&;<>()$`~ \t"
  }

  // Reads one word up to its newline, removing quotes. Backslash follows section 2.2.1, single
  // quotes 2.2.2 (every character is literal), double quotes 2.2.3 ($, ` and \ stay special).
  function ReadWord(s: string, mode: Mode): (r: Read)
    ensures r.Word? ==> |r.rest| <= |s| && '\0' !in r.value
    decreases |s|
  {
    if s == "" then (if mode == Plain then Word("", "") else Unread)
    else if s[0] == '\0' then Unread
    else
      var c := s[0];
      match mode
      case Plain =>
        if c == '\n' then Word("", s[1..])
        else if c == '\'' then ReadWord(s[1..], Single)
        else if c == '"' then ReadWord(s[1..], Double)
        else if c == '\\' then
          if |s| == 1 || s[1] == '\0' then Unread
          else if s[1] == '\n' then ReadWord(s[2..], Plain)
          else Cons(s[1], ReadWord(s[2..], Plain))
        else if Special(c) then Unread
        else Cons(c, ReadWord(s[1..], Plain))
      case Single =>
        if c == '\'' then ReadWord(s[1..], Plain) else Cons(c, ReadWord(s[1..], Single))
      case Double =>
        if c == '"' then ReadWord(s[1..], Plain)
        else if c == '$' || c == '`' then Unread
        else if c == '\\' && |s| > 1 && s[1] in "$`\"\\" then Cons(s[1], ReadWord(s[2..], Double))
        else if c == '\\' && |s| > 1 && s[1] == '\n' then ReadWord(s[2..], Double)
        else Cons(c, ReadWord(s[1..], Double))
  }

  predicate NameChar(c: char) {
    'a' <= c <= 'z' || 'A' <= c <= 'Z' || '0' <= c <= '9' || c == '_'
  }

  predicate Identifier(k: string) {
    k != "" && !('0' <= k[0] <= '9') && forall i :: 0 <= i < |k| ==> NameChar(k[i])
  }

  // A name and a value that an assignment in a text file can give.
  predicate Exportable(k: string, v: string) {
    Identifier(k) && '\0' !in v
  }

  function NameLength(s: string): nat {
    if s == "" || !NameChar(s[0]) then 0 else 1 + NameLength(s[1..])
  }

  datatype Script = Script(assignments: seq<(string, string)>) | NotAScript

  // A file of assignments, one a line.
  function ReadFile(s: string): (r: Script)
    ensures r.Script? ==> forall i :: 0 <= i < |r.assignments| ==> Exportable(r.assignments[i].0, r.assignments[i].1)
    decreases |s|
  {
    if s == "" then Script([])
    else
      var n := NameLength(s);
      if n < |s| && s[n] == '=' && Identifier(s[..n]) then
        var w := ReadWord(s[n + 1..], Plain);
        if w.Unread? then NotAScript
        else
          var more := ReadFile(w.rest);
          if more.NotAScript? then NotAScript else Script([(s[..n], w.value)] + more.assignments)
      else NotAScript
  }

  function Assign(env: Env, assignments: seq<(string, string)>): Env
    decreases |assignments|
  {
    if assignments == [] then env
    else Assign(env[assignments[0].0 := assignments[0].1], assignments[1..])
  }

  // `set -a; . file; set +a`
  function Sourced(env: Env, file: string): Option<Env> {
    match ReadFile(file)
    case Script(assignments) => Some(Assign(env, assignments))
    case NotAScript => None
  }

  lemma ReadEscapedQuote(t: string)
    ensures ReadWord("'\"'\"'" + t, Single) == Cons('\'', ReadWord(t, Single))
  {
    var s := "'\"'\"'" + t;
    assert s[1..] == "\"'\"'" + t;
    assert s[1..][1..] == "'\"'" + t;
    assert s[1..][1..][1..] == "\"'" + t;
    assert s[1..][1..][1..][1..] == "'" + t;
    assert s[1..][1..][1..][1..][1..] == t;
    calc {
      ReadWord(s, Single);
      ReadWord("\"'\"'" + t, Plain);
      ReadWord("'\"'" + t, Double);
      Cons('\'', ReadWord("\"'" + t, Double));
      { assert ReadWord("\"'" + t, Double) == ReadWord("'" + t, Plain); }
      Cons('\'', ReadWord("'" + t, Plain));
      Cons('\'', ReadWord(t, Single));
    }
  }

  lemma {:induction false} ReadEscaped(v: string, rest: string)
    requires '\0' !in v
    ensures ReadWord(Escape(v) + ("'\n" + rest), Single) == Word(v, rest)
  {
    var tail := "'\n" + rest;
    if v == "" {
      assert Escape(v) + tail == tail;
      assert tail[1..] == "\n" + rest;
      assert tail[1..][1..] == rest;
    } else {
      ReadEscaped(v[1..], rest);
      assert [v[0]] + v[1..] == v;
      if v[0] == '\'' {
        assert Escape(v) + tail == "'\"'\"'" + (Escape(v[1..]) + tail);
        ReadEscapedQuote(Escape(v[1..]) + tail);
      } else {
        assert (Escape(v) + tail)[1..] == Escape(v[1..]) + tail;
      }
    }
  }

  // Quoting loses nothing, for every value a text file can hold: quotes, newlines, dollars and
  // backslashes included.
  lemma QuoteRoundTrip(v: string, rest: string)
    ensures ReadWord(Quote(v) + ("\n" + rest), Plain) == Word(v, rest) <==> '\0' !in v
  {
    var s := Quote(v) + ("\n" + rest);
    assert s[1..] == Escape(v) + ("'\n" + rest);
    if '\0' !in v {
      ReadEscaped(v, rest);
    }
  }

  lemma {:induction false} NameLengthOf(k: string, t: string)
    requires (forall i :: 0 <= i < |k| ==> NameChar(k[i])) && t != "" && !NameChar(t[0])
    ensures NameLength(k + t) == |k|
  {
    if k == "" {
      assert k + t == t;
    } else {
      assert (k + t)[1..] == k[1..] + t;
      NameLengthOf(k[1..], t);
    }
  }

  lemma AssignmentReads(k: string, value: string, s: string)
    requires Identifier(k) && s == k + ("=" + value)
    requires ReadWord(value, Plain).Word? && ReadFile(ReadWord(value, Plain).rest).Script?
    ensures var w := ReadWord(value, Plain); ReadFile(s) == Script([(k, w.value)] + ReadFile(w.rest).assignments)
  {
    NameLengthOf(k, "=" + value);
    assert s[..|k|] == k && s[|k|] == '=' && s[|k| + 1..] == value;
  }

  lemma LineReads(k: string, v: string, rest: string)
    requires Exportable(k, v) && ReadFile(rest).Script?
    ensures ReadFile(Line(k, v) + rest) == Script([(k, v)] + ReadFile(rest).assignments)
  {
    var value := Quote(v) + ("\n" + rest);
    assert Line(k, v) + rest == k + ("=" + value);
    QuoteRoundTrip(v, rest);
    AssignmentReads(k, value, Line(k, v) + rest);
  }

  function Pairs(order: seq<string>, m: map<string, string>): seq<(string, string)>
    requires forall i :: 0 <= i < |order| ==> order[i] in m
  {
    if order == [] then [(LOADED, "1")] else [(order[0], m[order[0]])] + Pairs(order[1..], m)
  }

  lemma FileParts(order: seq<string>, m: map<string, string>)
    requires forall i :: 0 <= i < |order| ==> order[i] in m
    ensures FileText(order, m)
            == if order == [] then Line(LOADED, "1") else Line(order[0], m[order[0]]) + FileText(order[1..], m)
  {
    var sentinel := Line(LOADED, "1");
    if order == [] {
      assert "" + sentinel == sentinel;
    } else {
      var head, tail := Line(order[0], m[order[0]]), Lines(order[1..], m);
      assert (head + tail) + sentinel == head + (tail + sentinel);
    }
  }

  lemma SentinelReads()
    ensures ReadFile(Line(LOADED, "1")) == Script([(LOADED, "1")])
  {
    assert Identifier(LOADED) by { LoadedIsIdentifier(); }
    LineReads(LOADED, "1", "");
    assert Line(LOADED, "1") + "" == Line(LOADED, "1");
  }

  lemma {:induction false} FileReads(order: seq<string>, m: map<string, string>)
    requires forall i :: 0 <= i < |order| ==> order[i] in m && Exportable(order[i], m[order[i]])
    ensures ReadFile(FileText(order, m)) == Script(Pairs(order, m))
  {
    FileParts(order, m);
    if order == [] {
      SentinelReads();
    } else {
      FileReads(order[1..], m);
      LineReads(order[0], m[order[0]], FileText(order[1..], m));
    }
  }

  lemma LoadedIsIdentifier()
    ensures Identifier(LOADED) && Settable(LOADED, "1")
  {
    var l := LOADED;
    assert l == ['K', 'A', 'L', 'K', 'E', '_', 'S', 'E', 'C', 'R', 'E', 'T', 'S', '_', 'L', 'O', 'A', 'D', 'E', 'D'];
  }

  lemma {:induction false} AssignPairs(env: Env, order: seq<string>, m: map<string, string>)
    requires forall i :: 0 <= i < |order| ==> order[i] in m
    decreases |order|
    ensures Assign(env, Pairs(order, m)) == (env + map k | k in order :: m[k])[LOADED := "1"]
  {
    var ps := Pairs(order, m);
    if order == [] {
      assert ps[1..] == [];
    } else {
      assert ps[1..] == Pairs(order[1..], m);
      AssignPairs(env[order[0] := m[order[0]]], order[1..], m);
      assert forall k :: k in order <==> k == order[0] || k in order[1..];
    }
  }

  // Every key is a name and every value a text.
  ghost predicate ShellSafe(m: map<string, string>) {
    forall k :: k in m ==> Exportable(k, m[k])
  }

  lemma {:induction false} PairAt(order: seq<string>, m: map<string, string>, i: nat)
    requires i < |order| && forall j :: 0 <= j < |order| ==> order[j] in m
    ensures i < |Pairs(order, m)| && Pairs(order, m)[i] == (order[i], m[order[i]])
    decreases i
  {
    if i > 0 {
      PairAt(order[1..], m, i - 1);
    }
  }

  // The file means what was printed exactly when every key is a name and every value a text.
  lemma FileReadsBack(order: seq<string>, m: map<string, string>)
    requires Enumerates(order, m)
    ensures ReadFile(FileText(order, m)) == Script(Pairs(order, m)) <==> ShellSafe(m)
  {
    if ShellSafe(m) {
      FileReads(order, m);
    }
    if ReadFile(FileText(order, m)) == Script(Pairs(order, m)) {
      forall k | k in m ensures Exportable(k, m[k]) {
        var i :| 0 <= i < |order| && order[i] == k;
        PairAt(order, m, i);
      }
    }
  }

  lemma PairsMerge(env: Env, order: seq<string>, m: map<string, string>)
    requires Enumerates(order, m)
    ensures Assign(env, Pairs(order, m)) == (env + m)[LOADED := "1"]
  {
    AssignPairs(env, order, m);
    assert (map k | k in order :: m[k]) == m;
  }

  lemma IdentifierSettable(k: string)
    requires Identifier(k)
    ensures '=' !in k && '\0' !in k
  {
    forall i | 0 <= i < |k| ensures k[i] != '=' && k[i] != '\0' {
      assert NameChar(k[i]);
    }
  }

  lemma AppliedIsMerge(env: Env, data: map<string, string>)
    requires ShellSafe(WithoutExisting(env, data))
    ensures Applied(env, data) == env + WithoutExisting(env, data)
  {
    var m := WithoutExisting(env, data);
    forall k | k in m ensures Settable(k, m[k]) {
      IdentifierSettable(k);
    }
    WrittenEnds(env, m);
  }

  // The file loadsecret writes for this environment and secret, its keys taken in this order.
  function Printed(env: Env, data: map<string, string>, order: seq<string>): string
    requires forall i :: 0 <= i < |order| ==> order[i] in WithoutExisting(env, data)
  {
    FileText(order, WithoutExisting(env, data))
  }

  // Whatever order the map was visited in, sourcing a file that means what was printed adds the
  // missing keys, as ApplyMap does, and the sentinel.
  lemma FileSources(env: Env, data: map<string, string>, order: seq<string>)
    requires Enumerates(order, WithoutExisting(env, data))
    ensures ReadFile(Printed(env, data, order)) == Script(Pairs(order, WithoutExisting(env, data)))
            <==> ShellSafe(WithoutExisting(env, data))
    ensures ShellSafe(WithoutExisting(env, data)) ==>
              Sourced(env, Printed(env, data, order)) == Some(Applied(env, data)[LOADED := "1"])
  {
    var m := WithoutExisting(env, data);
    FileReadsBack(order, m);
    if ShellSafe(m) {
      PairsMerge(env, order, m);
      AppliedIsMerge(env, data);
    }
  }

  // When the two paths meet. Once the sentinel is set the in-process load does nothing, while the
  // shell still sources the file: then it must find only empty variables to set to nothing. Before,
  // the secret must not be empty: the file sets the sentinel even then.
  predicate PathsMeet(env: Env, data: map<string, string>) {
    if AlreadyLoaded(env) then
      env[LOADED] == "1" && forall k :: k in WithoutExisting(env, data) ==> k in env && data[k] == ""
    else data != map[]
  }

  lemma LoadedMeet(env: Env, data: map<string, string>)
    requires AlreadyLoaded(env)
    ensures (env + WithoutExisting(env, data))[LOADED := "1"] == env <==> PathsMeet(env, data)
  {
    var m := WithoutExisting(env, data);
    var shell := (env + m)[LOADED := "1"];
    if shell == env {
      forall k | k in m ensures k in env && data[k] == "" {
        assert shell[k] == m[k] == data[k];
      }
    }
    if PathsMeet(env, data) {
      assert shell == env;
    }
  }

  lemma UnloadedMeet(env: Env, data: map<string, string>)
    requires !AlreadyLoaded(env) && ShellSafe(WithoutExisting(env, data))
    ensures (env + WithoutExisting(env, data))[LOADED := "1"] == AfterLoad(env, Fetched(data)) <==> PathsMeet(env, data)
  {
    AppliedIsMerge(env, data);
    if data == map[] {
      TrimFixed("1");
      assert AlreadyLoaded((env + WithoutExisting(env, data))[LOADED := "1"]);
    }
  }

  lemma PathsAgree(env: Env, data: map<string, string>, order: seq<string>)
    requires Enumerates(order, WithoutExisting(env, data))
    ensures ShellSafe(WithoutExisting(env, data)) ==>
              (Sourced(env, Printed(env, data, order)) == Some(AfterLoad(env, Fetched(data))) <==> PathsMeet(env, data))
  {
    if ShellSafe(WithoutExisting(env, data)) {
      FileSources(env, data, order);
      AppliedIsMerge(env, data);
      if AlreadyLoaded(env) {
        LoadedMeet(env, data);
      } else {
        UnloadedMeet(env, data);
      }
    }
  }

  ghost predicate Part(env: Env, data: map<string, string>, order: seq<string>) {
    && Enumerates(order, WithoutExisting(env, data))
    && Sourced(env, Printed(env, data, order)) != Some(AfterLoad(env, Fetched(data)))
  }

  // They part on a secret with something to load, when the sentinel is set already ...
  lemma LoadedPathsPart()
    ensures Part(map[LOADED := "1"], map["A" := "x"], ["A"])
  {
    TrimFixed("1");
    var env, data := map[LOADED := "1"], map["A" := "x"];
    assert |"A"| != |LOADED| && NameChar('A');
    assert WithoutExisting(env, data) == data;
    assert Lookup(env, LOADED) == "1";
    PathsAgree(env, data, ["A"]);
  }

  // ... and on an empty one, when it is not.
  lemma EmptyPathsPart()
    ensures Part(map[], map[], [])
  {
    TrimFixed("");
    var none: map<string, string> := map[];
    assert WithoutExisting(none, none) == none;
    PathsAgree(none, none, []);
  }

  // After either path a later load, whatever it would fetch, changes nothing.
  lemma LaterLoadIsNoOp(env: Env, data: map<string, string>, order: seq<string>, later: Fetched)
    requires Enumerates(order, WithoutExisting(env, data))
    ensures ShellSafe(WithoutExisting(env, data)) ==>
              var shell := Sourced(env, Printed(env, data, order));
              shell.Some? && AfterLoad(shell.value, later) == shell.value
    ensures var inProcess := AfterLoad(env, Fetched(data));
            data != map[] ==> AfterLoad(inProcess, later) == inProcess
  {
    if ShellSafe(WithoutExisting(env, data)) {
      FileSources(env, data, order);
    }
    TrimFixed("1");
  }
}
