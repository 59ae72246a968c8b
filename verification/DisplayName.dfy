/** Profile names: SplitDisplayName puts one name into Keycloak's first and last fields,
    RealmUser.DisplayName puts it back together. */
module DisplayName {
  import opened Text

  datatype RealmName = RealmName(first: string, last: string)

  // The length of the leading run of characters that are not white space.
  function WordLength(s: string): (n: nat)
    ensures n <= |s|
    ensures forall i :: 0 <= i < n ==> !IsSpace(s[i])
    ensures n < |s| ==> IsSpace(s[n])
  {
    if s == "" || IsSpace(s[0]) then 0
    else
      var m := WordLength(s[1..]);
      assert forall i :: 1 <= i < m + 1 ==> s[i] == s[1..][i - 1];
      assert m + 1 < |s| ==> s[m + 1] == s[1..][m];
      1 + m
  }

  // strings.Fields: the maximal runs of characters that are not white space.
  function Fields(s: string): seq<string>
    decreases |s|
  {
    if s == "" then []
    else if IsSpace(s[0]) then Fields(s[1..])
    else [s[..WordLength(s)]] + Fields(s[WordLength(s)..])
  }

  // strings.Join(words, " ")
  function Join(words: seq<string>): string {
    if words == [] then ""
    else if |words| == 1 then words[0]
    else words[0] + " " + Join(words[1..])
  }

  function SplitDisplayName(name: string): RealmName {
    var fields := Fields(Trim(name));
    if |fields| == 0 then RealmName("", "")
    else if |fields| == 1 then RealmName(fields[0], "")
    else RealmName(fields[0], Join(fields[1..]))
  }

  function Display(u: RealmName): string {
    var first, last := Trim(u.first), Trim(u.last);
    if first != "" && last != "" then first + " " + last
    else if first != "" then first
    else last
  }

  // The reference: one pass over the characters, with no notion of a word. `started` says that
  // something was written, `gap` that white space was seen since.
  function Collapse(s: string, started: bool, gap: bool): string {
    if s == "" then ""
    else if IsSpace(s[0]) then Collapse(s[1..], started, true)
    else (if started && gap then [' ', s[0]] else [s[0]]) + Collapse(s[1..], true, false)
  }

  function Collapsed(s: string): string {
    Collapse(s, false, false)
  }

  ghost predicate Word(w: string) {
    w != "" && forall i :: 0 <= i < |w| ==> !IsSpace(w[i])
  }

  ghost predicate Words(ws: seq<string>) {
    forall i :: 0 <= i < |ws| ==> Word(ws[i])
  }

  lemma {:induction false} FieldsAreWords(s: string)
    ensures Words(Fields(s))
    decreases |s|
  {
    if s != "" {
      if IsSpace(s[0]) {
        FieldsAreWords(s[1..]);
      } else {
        FieldsAreWords(s[WordLength(s)..]);
      }
    }
  }

  // A word copies through the pass unchanged.
  lemma {:induction false} CollapseWord(w: string, rest: string)
    requires forall i :: 0 <= i < |w| ==> !IsSpace(w[i])
    ensures Collapse(w + rest, true, false) == w + Collapse(rest, true, false)
  {
    if w == "" {
      assert w + rest == rest;
    } else {
      assert (w + rest)[1..] == w[1..] + rest;
      CollapseWord(w[1..], rest);
      assert [w[0]] + (w[1..] + Collapse(rest, true, false)) == w + Collapse(rest, true, false);
    }
  }

  function Spaced(words: seq<string>): string {
    if words == [] then "" else " " + Join(words)
  }

  lemma JoinFirst(w: string, words: seq<string>)
    ensures Join([w] + words) == w + Spaced(words)
  {
    assert ([w] + words)[1..] == words;
    assert w + " " + Join(words) == w + (" " + Join(words));
  }

  // A pass at the beginning of a word, no gap or one to fill behind it.
  lemma CollapseFirstWord(s: string, started: bool)
    requires s != "" && !IsSpace(s[0])
    ensures var n := WordLength(s);
            Collapse(s, started, started) == (if started then " " else "") + (s[..n] + Collapse(s[n..], true, false))
  {
    var n := WordLength(s);
    var w, rest := s[1..n], s[n..];
    assert s[1..] == w + rest;
    forall i | 0 <= i < |w| ensures !IsSpace(w[i]) {
      assert w[i] == s[i + 1];
    }
    CollapseWord(w, rest);
    var tail := Collapse(rest, true, false);
    assert [s[0]] + w == s[..n];
    assert [s[0]] + (w + tail) == s[..n] + tail;
    assert [' ', s[0]] + (w + tail) == " " + (s[..n] + tail);
    assert "" + (s[..n] + tail) == s[..n] + tail;
  }

  // After a word: the rest of the output is each further word behind one blank, whatever the gap.
  lemma {:induction false} CollapseIsJoin(s: string, started: bool, gap: bool)
    requires s != "" && !IsSpace(s[0]) ==> started == gap
    ensures Collapse(s, started, gap) == if started then Spaced(Fields(s)) else Join(Fields(s))
    decreases |s|
  {
    if s != "" {
      if IsSpace(s[0]) {
        if started || s[1..] == "" || IsSpace(s[1..][0]) {
          CollapseIsJoin(s[1..], started, true);
        } else {
          CollapseIsJoin(s[1..], false, false);
          GapIrrelevant(s[1..]);
        }
      } else {
        CollapseFirstWord(s, started);
        CollapseIsJoin(s[WordLength(s)..], true, false);
        JoinFirst(s[..WordLength(s)], Fields(s[WordLength(s)..]));
      }
    }
  }

  lemma {:induction false} GapIrrelevant(s: string)
    ensures Collapse(s, false, true) == Collapse(s, false, false)
  {
    if s != "" && IsSpace(s[0]) {
      GapIrrelevant(s[1..]);
    }
  }

  lemma {:induction false} CollapseTrimLeft(s: string)
    ensures Collapsed(TrimLeft(s)) == Collapsed(s)
  {
    if s != "" && IsSpace(s[0]) {
      CollapseTrimLeft(s[1..]);
      GapIrrelevant(s[1..]);
    }
  }

  lemma {:induction false} CollapseDropLast(s: string, c: char, started: bool, gap: bool)
    requires IsSpace(c)
    ensures Collapse(s + [c], started, gap) == Collapse(s, started, gap)
  {
    if s == "" {
      assert (s + [c])[1..] == "";
    } else {
      assert (s + [c])[1..] == s[1..] + [c];
      CollapseDropLast(s[1..], c, if IsSpace(s[0]) then started else true, IsSpace(s[0]));
    }
  }

  lemma {:induction false} CollapseTrimRight(s: string)
    ensures Collapsed(TrimRight(s)) == Collapsed(s)
  {
    if s != "" && IsSpace(s[|s| - 1]) {
      var front := s[..|s| - 1];
      CollapseTrimRight(front);
      assert s == front + [s[|s| - 1]];
      CollapseDropLast(front, s[|s| - 1], false, false);
    }
  }

  lemma {:induction false} JoinedWordsTrimmed(ws: seq<string>)
    requires Words(ws)
    ensures Trimmed(Join(ws))
    ensures ws != [] ==> Join(ws) != ""
  {
    if |ws| > 1 {
      JoinedWordsTrimmed(ws[1..]);
      var t := Join(ws[1..]);
      assert Join(ws)[|Join(ws)| - 1] == t[|t| - 1];
      assert Join(ws)[0] == ws[0][0];
    }
  }

  lemma DisplayOfFields(ws: seq<string>)
    requires Words(ws)
    ensures Display(if |ws| == 0 then RealmName("", "") else if |ws| == 1 then RealmName(ws[0], "")
                    else RealmName(ws[0], Join(ws[1..])))
            == Join(ws)
  {
    TrimFixed("");
    if |ws| > 0 {
      TrimFixed(ws[0]);
      JoinedWordsTrimmed(ws[1..]);
      TrimFixed(Join(ws[1..]));
    }
  }

  // Splitting a name and displaying it again collapses its white space and changes nothing else.
  lemma DisplayOfSplit(name: string)
    ensures Display(SplitDisplayName(name)) == Collapsed(name)
  {
    var t := Trim(name);
    FieldsAreWords(t);
    DisplayOfFields(Fields(t));
    CollapseTrimLeft(name);
    CollapseTrimRight(TrimLeft(name));
    CollapseIsJoin(t, false, false);
  }

  lemma WordLengthIs(s: string, k: nat)
    requires k <= |s| && (k < |s| ==> IsSpace(s[k]))
    requires forall i :: 0 <= i < k ==> !IsSpace(s[i])
    ensures WordLength(s) == k
  {
    var n := WordLength(s);
    assert n == |s| || IsSpace(s[n]);
  }

  lemma {:induction false} FieldsOfWord(w: string, rest: string)
    requires Word(w) && (rest == "" || IsSpace(rest[0]))
    ensures Fields(w + rest) == [w] + Fields(rest)
  {
    var s := w + rest;
    var n := WordLength(s);
    WordLengthIs(s, |w|);
    assert s[..n] == w && s[n..] == rest;
  }

  lemma FieldsOfSpaced(words: seq<string>)
    ensures Fields(Spaced(words)) == Fields(Join(words))
  {
    if words != [] {
      assert Spaced(words)[1..] == Join(words);
    }
  }

  // Words survive being joined and read back.
  lemma {:induction false} FieldsOfJoin(ws: seq<string>)
    requires Words(ws)
    ensures Fields(Join(ws)) == ws
  {
    if ws != [] {
      var more := ws[1..];
      FieldsOfJoin(more);
      FieldsOfSpaced(more);
      FieldsOfWord(ws[0], Spaced(more));
      assert ws == [ws[0]] + more;
      JoinFirst(ws[0], more);
    }
  }

  lemma JoinIsCollapsed(ws: seq<string>)
    requires Words(ws)
    ensures Collapsed(Join(ws)) == Join(ws) && SingleBlanks(Join(ws))
  {
    JoinedWordsTrimmed(ws);
    CollapseIsJoin(Join(ws), false, false);
    FieldsOfJoin(ws);
    CollapsedShape(Join(ws));
  }

  lemma PartsOfWords(ws: seq<string>)
    requires Words(ws) && ws != []
    ensures Join(ws) == ws[0] + Spaced(ws[1..]) && Trimmed(Join(ws[1..])) && SingleBlanks(Join(ws[1..]))
    ensures Join(ws[1..]) == "" <==> ws[1..] == []
  {
    JoinFirst(ws[0], ws[1..]);
    assert ws == [ws[0]] + ws[1..];
    JoinedWordsTrimmed(ws[1..]);
    JoinIsCollapsed(ws[1..]);
  }

  // The first name is the first word, the last name the other words with single blanks between them.
  lemma SplitParts(name: string)
    ensures var u := SplitDisplayName(name);
            && (forall i :: 0 <= i < |u.first| ==> !IsSpace(u.first[i]))
            && (u.first == "" ==> u.last == "")
            && Collapsed(name) == u.first + (if u.last == "" then "" else " " + u.last)
            && Trimmed(u.last) && SingleBlanks(u.last)
  {
    var ws := Fields(Trim(name));
    FieldsAreWords(Trim(name));
    DisplayOfSplit(name);
    DisplayOfFields(ws);
    if ws != [] {
      PartsOfWords(ws);
    }
  }

  lemma ShowParts(first: string, last: string)
    requires Trimmed(first) && Trimmed(last)
    ensures var d := if first != "" && last != "" then first + " " + last else if first != "" then first else last;
            Trimmed(d) && Visible(d) == Visible(first) + Visible(last)
  {
    VisibleAppend(first, " " + last);
    VisibleAppend(" ", last);
    assert first + " " + last == first + (" " + last);
    assert Visible(" ") == "";
  }

  // Whatever is stored, the displayed name is trimmed and shows both parts' characters, in order.
  lemma DisplayShows(u: RealmName)
    ensures Trimmed(Display(u)) && Visible(Display(u)) == Visible(u.first) + Visible(u.last)
  {
    var _, _ := TrimIsWindow(u.first);
    var _, _ := TrimIsWindow(u.last);
    TrimKeepsVisible(u.first);
    TrimKeepsVisible(u.last);
    ShowParts(Trim(u.first), Trim(u.last));
  }

  lemma {:induction false} VisibleAppend(a: string, b: string)
    ensures Visible(a + b) == Visible(a) + Visible(b)
  {
    if a == "" {
      assert a + b == b;
    } else {
      assert (a + b)[1..] == a[1..] + b;
      VisibleAppend(a[1..], b);
    }
  }

  lemma {:induction false} SpaceInvisible(s: string)
    requires AllSpace(s)
    ensures Visible(s) == ""
  {
    if s != "" {
      SpaceInvisible(s[1..]);
    }
  }

  lemma TrimKeepsVisible(s: string)
    ensures Visible(Trim(s)) == Visible(s)
  {
    var i, j := TrimIsWindow(s);
    assert s == s[..i] + s[i..j] + s[j..];
    VisibleAppend(s[..i] + s[i..j], s[j..]);
    VisibleAppend(s[..i], s[i..j]);
    SpaceInvisible(s[..i]);
    SpaceInvisible(s[j..]);
  }

  // A stored name is stable: splitting what is displayed gives the same two fields again.
  lemma SplitOfDisplay(name: string)
    ensures SplitDisplayName(Display(SplitDisplayName(name))) == SplitDisplayName(name)
  {
    var ws := Fields(Trim(name));
    FieldsAreWords(Trim(name));
    DisplayOfFields(ws);
    JoinedWordsTrimmed(ws);
    TrimFixed(Join(ws));
    FieldsOfJoin(ws);
  }

  // What collapsing means: no white space at the ends, blanks only, never two together, and
  // every other character kept in order.
  function Visible(s: string): string {
    if s == "" then "" else (if IsSpace(s[0]) then "" else [s[0]]) + Visible(s[1..])
  }

  lemma {:induction false} CollapseKeepsVisible(s: string, started: bool, gap: bool)
    ensures Visible(Collapse(s, started, gap)) == Visible(s)
  {
    if s != "" {
      CollapseKeepsVisible(s[1..], if IsSpace(s[0]) then started else true, IsSpace(s[0]));
      if !IsSpace(s[0]) {
        var tail := Collapse(s[1..], true, false);
        assert ([s[0]] + tail)[1..] == tail;
        assert ([' ', s[0]] + tail)[1..] == [s[0]] + tail;
      }
    }
  }

  predicate SingleBlanks(s: string) {
    forall i :: 0 <= i < |s| && IsSpace(s[i]) ==> s[i] == ' ' && (i + 1 < |s| ==> !IsSpace(s[i + 1]))
  }

  lemma {:induction false} CollapseShape(s: string, started: bool, gap: bool)
    ensures SingleBlanks(Collapse(s, started, gap))
    ensures Collapse(s, started, gap) != "" ==> !IsSpace(Collapse(s, started, gap)[|Collapse(s, started, gap)| - 1])
    ensures !started ==> Trimmed(Collapse(s, started, gap))
  {
    if s != "" {
      CollapseShape(s[1..], if IsSpace(s[0]) then started else true, IsSpace(s[0]));
    }
  }

  lemma CollapsedShape(s: string)
    ensures Trimmed(Collapsed(s)) && SingleBlanks(Collapsed(s)) && Visible(Collapsed(s)) == Visible(s)
  {
    CollapseShape(s, false, false);
    CollapseKeepsVisible(s, false, false);
  }
}
