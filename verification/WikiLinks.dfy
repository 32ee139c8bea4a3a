/** Wikilinks in a document's text: the scanner that finds them and the rewriter that
    renames their titles (backend/apps/knowledge/links.py).

    The main results: the rewriter, two textual replacements in a row, is one pass that
    renames every reference and nothing else; scanning commutes with it; and renaming back
    restores the text exactly when the new title was not referenced before. */
module WikiLinks {
  import opened Options
  import opened PythonText

  // ---------- the scanner ----------

  /** Characters the pattern admits in a title (`bar` false) or in an alias (`bar` true). */
  predicate Plain(c: char, bar: bool) {
    c != '[' && c != ']' && (bar || c != '|')
  }

  predicate AllPlain(s: string, bar: bool) {
    forall i :: 0 <= i < |s| ==> Plain(s[i], bar)
  }

  predicate IsTitle(t: string) {
    1 <= |t| <= 255 && AllPlain(t, false)
  }

  predicate StartsWith(s: string, w: string) {
    w <= s
  }

  predicate Opens(s: string) {
    |s| >= 2 && s[0] == '[' && s[1] == '['
  }

  predicate Closes(u: string) {
    |u| >= 2 && u[0] == ']' && u[1] == ']'
  }

  predicate Bar(u: string) {
    u != "" && u[0] == '|'
  }

  /** Length of the longest plain prefix. */
  function Run(s: string, bar: bool): (n: nat)
    ensures n <= |s| && AllPlain(s[..n], bar)
    ensures n < |s| ==> !Plain(s[n], bar)
  {
    if s == "" || !Plain(s[0], bar) then 0
    else
      var n := Run(s[1..], bar);
      assert s[..n + 1] == [s[0]] + s[1..][..n];
      n + 1
  }

  datatype Ref = Ref(title: string, aliased: bool)
  datatype Found = Found(ref: Ref, end: nat)
  datatype Closing = Closing(aliased: bool, length: nat)

  /** What follows the title: `]]`, or `|alias]]`. */
  function ClosingAt(u: string): (r: Option<Closing>)
    ensures r.Some? ==> 0 < r.value.length <= |u|
    ensures r.Some? ==> forall i :: 0 <= i < r.value.length ==> u[i] != '['
  {
    if Closes(u) then Some(Closing(false, 2))
    else if Bar(u) then
      var m := Run(u[1..], true);
      if Closes(u[1..][m..]) then
        assert forall i :: 1 <= i < m + 1 ==> u[i] == u[1..][..m][i - 1];
        assert u[m + 1] == u[1..][m..][0] && u[m + 2] == u[1..][m..][1];
        Some(Closing(true, m + 3))
      else None
    else None
  }

  /** The pattern tried at the start of `s`. */
  function LinkAt(s: string): (r: Option<Found>)
    ensures r.Some? ==> 3 < r.value.end <= |s| && IsTitle(r.value.ref.title)
    ensures r.Some? ==> Opens(s) && StartsWith(s[2..], r.value.ref.title)
    ensures r.Some? ==> forall i :: 2 <= i < r.value.end ==> s[i] != '['
  {
    if !Opens(s) then None
    else
      var x := s[2..];
      var n := Run(x, false);
      if n == 0 || n > 255 then None
      else
        match ClosingAt(x[n..])
        case None => None
        case Some(c) =>
          assert forall i :: 2 <= i < 2 + n ==> s[i] == x[..n][i - 2];
          assert forall i :: 2 + n <= i < 2 + n + c.length ==> s[i] == x[n..][i - n - 2];
          Some(Found(Ref(x[..n], c.aliased), 2 + n + c.length))
  }

  /** Leftmost, non-overlapping matches in order. */
  function Links(s: string): seq<Ref>
    decreases |s|
  {
    if s == "" then []
    else match LinkAt(s)
      case Some(f) => [f.ref] + Links(s[f.end..])
      case None => Links(s[1..])
  }

  /** The language of the pattern, stated without a scanner. */
  ghost predicate Denotes(w: string, ref: Ref) {
    && IsTitle(ref.title)
    && if ref.aliased
       then exists alias :: AllPlain(alias, true) && w == "[[" + ref.title + "|" + alias + "]]"
       else w == "[[" + ref.title + "]]"
  }

  lemma {:induction false} RunOfPlain(a: string, b: string, bar: bool)
    requires AllPlain(a, bar) && (b == "" || !Plain(b[0], bar))
    ensures Run(a + b, bar) == |a|
  {
    if a != "" {
      assert (a + b)[1..] == a[1..] + b;
      RunOfPlain(a[1..], b, bar);
    } else {
      assert a + b == b;
    }
  }

  lemma {:induction false} ClosingOf(u: string, alias: string, rest: string)
    requires AllPlain(alias, true) && Bar(u) && u[1..] == alias + rest && Closes(rest)
    ensures ClosingAt(u) == Some(Closing(true, |alias| + 3))
  {
    RunOfPlain(alias, rest, true);
    assert u[1..][|alias|..] == rest;
  }

  /** Two brackets, a plain prefix, and what a title cannot continue with. */
  ghost predicate Split(s: string, a: string, u: string) {
    Opens(s) && s[2..] == a + u && AllPlain(a, false) && (u == "" || !Plain(u[0], false))
  }

  /** The link that a plain prefix and its continuation make. */
  ghost function LinkOf(a: string, u: string): Option<Found> {
    var c := ClosingAt(u);
    if IsTitle(a) && c.Some?
    then Some(Found(Ref(a, c.value.aliased), 2 + |a| + c.value.length))
    else None
  }

  lemma {:induction false} LinkAtSplit(s: string, a: string, u: string)
    requires Split(s, a, u)
    ensures LinkAt(s) == LinkOf(a, u)
  {
    RunOfPlain(a, u, false);
    assert (a + u)[..|a|] == a;
    assert (a + u)[|a|..] == u;
  }

  lemma {:induction false} SplitUnique(s: string, a: string, u: string, b: string, v: string)
    requires Split(s, a, u) && Split(s, b, v)
    ensures a == b && u == v
  {
    RunOfPlain(a, u, false);
    RunOfPlain(b, v, false);
    assert a == (a + u)[..|a|] && u == (a + u)[|a|..];
    assert b == (b + v)[..|b|] && v == (b + v)[|b|..];
  }

  /** Leftmost matching is deterministic: the scanner finds a prefix exactly when the
      pattern denotes it, with that title, so no backtracking could match otherwise. */
  lemma {:induction false} LinkAtIsPattern(s: string, n: nat, ref: Ref)
    requires n <= |s|
    ensures Denotes(s[..n], ref) <==> LinkAt(s) == Some(Found(ref, n))
  {
    if Denotes(s[..n], ref) {
      DenotedIsFound(s, n, ref);
    }
    if LinkAt(s) == Some(Found(ref, n)) {
      FoundIsDenoted(s, n, ref);
    }
  }

  lemma {:induction false} DenotedIsFound(s: string, n: nat, ref: Ref)
    requires n <= |s| && Denotes(s[..n], ref)
    ensures LinkAt(s) == Some(Found(ref, n))
  {
    var t := ref.title;
    assert s == s[..n] + s[n..];
    if ref.aliased {
      var alias :| AllPlain(alias, true) && s[..n] == "[[" + t + "|" + alias + "]]";
      AliasedIsFound(s, t, alias, s[n..]);
    } else {
      PlainIsFound(s, t, s[n..]);
    }
  }

  lemma {:induction false} PlainIsFound(s: string, t: string, rest: string)
    requires IsTitle(t) && s == "[[" + t + "]]" + rest
    ensures LinkAt(s) == Some(Found(Ref(t, false), |t| + 4))
  {
    var u := "]]" + rest;
    assert s[2..] == t + u;
    LinkAtSplit(s, t, u);
  }

  lemma {:induction false} AliasedIsFound(s: string, t: string, alias: string, rest: string)
    requires IsTitle(t) && AllPlain(alias, true) && s == "[[" + t + "|" + alias + "]]" + rest
    ensures LinkAt(s) == Some(Found(Ref(t, true), |t| + |alias| + 5))
  {
    var u := "|" + (alias + ("]]" + rest));
    assert s[2..] == t + u;
    assert ClosingAt(u) == Some(Closing(true, |alias| + 3)) by { ClosingOf(u, alias, "]]" + rest); }
    LinkAtSplit(s, t, u);
  }

  lemma {:induction false} FoundIsDenoted(s: string, n: nat, ref: Ref)
    requires n <= |s| && LinkAt(s) == Some(Found(ref, n))
    ensures Denotes(s[..n], ref)
  {
    LinkSplits(s);
    var t := ref.title;
    var u := s[2..][|t|..];
    LinkAtSplit(s, t, u);
    var w := u[..ClosingAt(u).value.length];
    assert s[..n] == "[[" + t + w;
    if ref.aliased {
      var alias := ClosedAlias(u);
      Regroup("[[" + t, "|", alias, "]]");
    } else {
      assert w == "]]";
    }
  }

  lemma {:induction false} ClosedAlias(u: string) returns (alias: string)
    requires ClosingAt(u).Some? && ClosingAt(u).value.aliased
    ensures AllPlain(alias, true) && u[..ClosingAt(u).value.length] == "|" + alias + "]]"
  {
    var m := Run(u[1..], true);
    alias := u[1..][..m];
    assert u[1..][m..][..2] == "]]";
    assert u[..m + 3] == u[..1] + alias + u[1..][m..][..2];
  }

  /** Text that starts no link can be skipped. */
  lemma {:induction false} LinksSkip(s: string, k: nat)
    requires k <= |s| && forall i :: 0 <= i < k ==> LinkAt(s[i..]) == None
    ensures Links(s) == Links(s[k..])
  {
    if k > 0 {
      assert s[0..] == s;
      forall i | 0 <= i < k - 1 ensures LinkAt(s[1..][i..]) == None {
        assert s[1..][i..] == s[i + 1..];
      }
      LinksSkip(s[1..], k - 1);
      assert s[1..][k - 1..] == s[k..];
    }
  }

  // ---------- the rewriter ----------

  /** Python's str.replace: every occurrence, left to right, without overlap. */
  function ReplaceAll(s: string, pat: string, rep: string): string
    requires pat != ""
    decreases |s|
  {
    if s == "" then ""
    else if StartsWith(s, pat) then rep + ReplaceAll(s[|pat|..], pat, rep)
    else [s[0]] + ReplaceAll(s[1..], pat, rep)
  }

  /** The text that a rename stores: plain references first, then aliased ones. */
  function Rewrite(s: string, oldTitle: string, newTitle: string): string {
    ReplaceAll(ReplaceAll(s, "[[" + oldTitle + "]]", "[[" + newTitle + "]]"),
               "[[" + oldTitle + "|", "[[" + newTitle + "|")
  }

  /** Which references a pass looks for. */
  datatype Kind = Plains | Aliases | Any

  predicate EndsTitle(u: string, k: Kind) {
    (!k.Aliases? && Closes(u)) || (!k.Plains? && Bar(u))
  }

  /** `s` starts with a reference to `t`, closed or not. */
  predicate RefAt(s: string, t: string, k: Kind) {
    Opens(s) && StartsWith(s[2..], t) && EndsTitle(s[2..][|t|..], k)
  }

  /** Some position of `s` starts a reference to `t`. */
  predicate Mentions(s: string, t: string) {
    s != "" && (RefAt(s, t, Any) || Mentions(s[1..], t))
  }

  /** Renaming, in one pass, the references of one kind. */
  function Rename(s: string, o: string, n: string, k: Kind): string
    decreases |s|
  {
    if s == "" then ""
    else if RefAt(s, o, k) then "[[" + (n + Rename(s[2..][|o|..], o, n, k))
    else [s[0]] + Rename(s[1..], o, n, k)
  }

  function Subst(ref: Ref, o: string, n: string): Ref {
    if ref.title == o then ref.(title := n) else ref
  }

  function SubstAll(refs: seq<Ref>, o: string, n: string): seq<Ref> {
    seq(|refs|, i requires 0 <= i < |refs| => Subst(refs[i], o, n))
  }

  lemma {:induction false} RenameFirst(s: string, o: string, n: string, k: Kind)
    ensures s == "" <==> Rename(s, o, n, k) == ""
    ensures s != "" ==> Rename(s, o, n, k)[0] == s[0]
  {
  }

  lemma {:induction false} RenameSkip(s: string, i: nat, o: string, n: string, k: Kind)
    requires i <= |s| && forall j :: 0 <= j < i ==> s[j] != '['
    ensures Rename(s, o, n, k) == s[..i] + Rename(s[i..], o, n, k)
  {
    if i == 0 {
      assert s[0..] == s;
    } else {
      RenameSkip(s[1..], i - 1, o, n, k);
      DropTwice(s, 1, i - 1, s[1..]);
      assert s[..i] == [s[0]] + s[1..][..i - 1];
    }
  }

  lemma {:induction false} DropTwice(s: string, i: nat, j: nat, u: string)
    requires i <= |s| && s[i..] == u && j <= |u|
    ensures s[i + j..] == u[j..]
  {
  }

  lemma {:induction false} RunParts(x: string, bar: bool, o: string, n: string, k: Kind) returns (i: nat)
    ensures i == Run(x, bar) == Run(Rename(x, o, n, k), bar) <= |Rename(x, o, n, k)|
    ensures Rename(x, o, n, k)[..i] == x[..i] && Rename(x, o, n, k)[i..] == Rename(x[i..], o, n, k)
  {
    i := Run(x, bar);
    forall j | 0 <= j < i ensures x[j] != '[' {
      assert Plain(x[..i][j], bar);
    }
    RenameSkip(x, i, o, n, k);
    RenameFirst(x[i..], o, n, k);
    RunOfPlain(x[..i], Rename(x[i..], o, n, k), bar);
  }

  lemma {:induction false} EndingRename(u: string, o: string, n: string, k: Kind)
    ensures Closes(Rename(u, o, n, k)) == Closes(u) && Bar(Rename(u, o, n, k)) == Bar(u)
    ensures Closes(u) || Bar(u) ==> Rename(u, o, n, k) == [u[0]] + Rename(u[1..], o, n, k)
  {
    RenameFirst(u, o, n, k);
    if u != "" && u[0] != '[' {
      RenameFirst(u[1..], o, n, k);
    }
  }

  lemma {:induction false} ClosingRename(u: string, o: string, n: string, k: Kind)
    ensures ClosingAt(Rename(u, o, n, k)) == ClosingAt(u)
    ensures forall e :: EndsTitle(Rename(u, o, n, k), e) == EndsTitle(u, e)
  {
    EndingRename(u, o, n, k);
    if Bar(u) {
      var m := RunParts(u[1..], true, o, n, k);
      EndingRename(u[1..][m..], o, n, k);
    }
  }

  /** A text that opens with two brackets still does, and what comes up to the first
      character a title cannot have stays. */
  lemma {:induction false} RenameSplit(s: string, o: string, n: string, k: Kind)
      returns (a: string, u: string, v: string)
    requires IsTitle(o) && Opens(s) && !RefAt(s, o, k)
    ensures Split(s, a, u) && Split(Rename(s, o, n, k), a, v)
    ensures a != "" ==> v == Rename(u, o, n, k)
  {
    var r := Rename(s, o, n, k);
    if RefAt(s[1..], o, k) {
      assert s[2] == s[1..][1] && r[1..] == Rename(s[1..], o, n, k);
      a, u, v := "", s[2..], r[2..];
    } else {
      RenamedOpen(s, o, n, k);
      a, u, v := RunSplit(s[2..], o, n, k);
    }
  }

  lemma {:induction false} RunSplit(x: string, o: string, n: string, k: Kind) returns (a: string, u: string, v: string)
    ensures x == a + u && AllPlain(a, false) && (u == "" || !Plain(u[0], false))
    ensures Rename(x, o, n, k) == a + v && (v == "" || !Plain(v[0], false))
    ensures v == Rename(u, o, n, k)
  {
    var i := RunParts(x, false, o, n, k);
    a, u, v := x[..i], x[i..], Rename(x[i..], o, n, k);
    RenameFirst(u, o, n, k);
  }

  lemma {:induction false} RenamedOpen(s: string, o: string, n: string, k: Kind)
    requires Opens(s) && !RefAt(s, o, k) && !RefAt(s[1..], o, k)
    ensures Opens(Rename(s, o, n, k)) && Rename(s, o, n, k)[2..] == Rename(s[2..], o, n, k)
  {
    assert s[1..][1..] == s[2..];
    assert Rename(s[1..], o, n, k)[1..] == Rename(s[2..], o, n, k);
  }

  lemma {:induction false} NoOpen(s: string, o: string, n: string, k: Kind)
    requires s != "" && !Opens(s)
    ensures !Opens(Rename(s, o, n, k))
  {
    RenameFirst(s[1..], o, n, k);
  }

  lemma {:induction false} LinkAtSame(s: string, r: string, a: string, u: string, v: string)
    requires Split(s, a, u) && Split(r, a, v)
    requires a != "" ==> ClosingAt(u) == ClosingAt(v)
    ensures LinkAt(s) == LinkAt(r)
  {
    LinkAtSplit(s, a, u);
    LinkAtSplit(r, a, v);
  }

  /** Where no reference to `o` starts, the rewriter neither makes nor breaks a link. */
  lemma {:induction false} LinkAtRename(s: string, o: string, n: string, k: Kind)
    requires IsTitle(o) && s != "" && !RefAt(s, o, k)
    ensures LinkAt(Rename(s, o, n, k)) == LinkAt(s)
  {
    if Opens(s) {
      var a, u, v := RenameSplit(s, o, n, k);
      if a != "" {
        ClosingRename(u, o, n, k);
      }
      LinkAtSame(s, Rename(s, o, n, k), a, u, v);
    } else {
      NoOpen(s, o, n, k);
    }
  }

  lemma {:induction false} RefAtSplit(s: string, a: string, u: string, t: string, k: Kind)
    requires Split(s, a, u) && IsTitle(t)
    ensures RefAt(s, t, k) <==> a == t && EndsTitle(u, k)
  {
    assert (a + u)[|a|..] == u;
    if RefAt(s, t, k) {
      SplitUnique(s, a, u, t, s[2..][|t|..]);
    }
  }

  lemma {:induction false} RefAtRename(s: string, o: string, n: string, k: Kind, t: string, e: Kind)
    requires IsTitle(o) && IsTitle(t) && s != "" && !RefAt(s, o, k)
    ensures RefAt(Rename(s, o, n, k), t, e) <==> RefAt(s, t, e)
  {
    if Opens(s) {
      var a, u, v := RenameSplit(s, o, n, k);
      RefAtSplit(s, a, u, t, e);
      RefAtSplit(Rename(s, o, n, k), a, v, t, e);
      ClosingRename(u, o, n, k);
    } else {
      NoOpen(s, o, n, k);
    }
  }

  /** Where a reference to `o` starts, with what follows its title. */
  lemma {:induction false} RenamedRef(s: string, o: string, n: string, k: Kind) returns (u: string)
    requires IsTitle(o) && IsTitle(n) && RefAt(s, o, k)
    ensures u == s[2..][|o|..] && |u| < |s|
    ensures Split(s, o, u) && Split(Rename(s, o, n, k), n, Rename(u, o, n, k))
    ensures ClosingAt(Rename(u, o, n, k)) == ClosingAt(u)
    ensures forall e :: EndsTitle(Rename(u, o, n, k), e) == EndsTitle(u, e)
  {
    u := s[2..][|o|..];
    ClosingRename(u, o, n, k);
    assert EndsTitle(Rename(u, o, n, k), k);
    assert Rename(s, o, n, k)[2..] == n + Rename(u, o, n, k);
  }

  /** Another title, or another kind of reference, is copied. */
  lemma {:induction false} CopiedRef(s: string, t: string, u: string, o: string, n: string, k: Kind)
    requires IsTitle(t) && IsTitle(o) && Split(s, t, u) && !RefAt(s, o, k)
    ensures Split(Rename(s, o, n, k), t, Rename(u, o, n, k))
  {
    assert s[1..][1] == s[2] == s[2..][0] == t[0];
    RenamedOpen(s, o, n, k);
    var x := s[2..];
    assert forall i :: 0 <= i < |t| ==> x[i] == t[i];
    RenameSkip(x, |t|, o, n, k);
    assert x[..|t|] == t && x[|t|..] == u;
    RenameFirst(u, o, n, k);
  }

  // ---------- the two replacements are the one pass ----------

  /** A replacement pattern is two brackets, a title and an ending. */
  lemma {:induction false} PatternAt(s: string, t: string, w: string)
    ensures StartsWith(s, "[[" + t + w) <==>
            Opens(s) && StartsWith(s[2..], t) && StartsWith(s[2..][|t|..], w)
  {
    var p := "[[" + t + w;
    if StartsWith(s, p) {
      assert s[2..][..|t|] == s[..|p|][2..2 + |t|] == t;
      assert s[2..][|t|..][..|w|] == s[..|p|][2 + |t|..] == w;
    }
    if Opens(s) && StartsWith(s[2..], t) && StartsWith(s[2..][|t|..], w) {
      assert s[..|p|] == "[[" + s[2..][..|t|] + s[2..][|t|..][..|w|];
    }
  }

  lemma {:induction false} ReplaceIsRename(s: string, o: string, n: string, w: string, k: Kind)
    requires IsTitle(o) && ((w == "]]" && k == Plains) || (w == "|" && k == Aliases))
    ensures ReplaceAll(s, "[[" + o + w, "[[" + n + w) == Rename(s, o, n, k)
    decreases |s|
  {
    PatternAt(s, o, w);
    if s == "" {
    } else if RefAt(s, o, k) {
      var v := s[2..][|o|..][|w|..];
      assert s[|"[[" + o + w|..] == v;
      RenameEnding(s, o, n, w, k, v);
      ReplaceIsRename(v, o, n, w, k);
    } else {
      ReplaceIsRename(s[1..], o, n, w, k);
    }
  }

  lemma {:induction false} RenameEnding(s: string, o: string, n: string, w: string, k: Kind, v: string)
    requires RefAt(s, o, k) && ((w == "]]" && k == Plains) || (w == "|" && k == Aliases))
    requires v == s[2..][|o|..][|w|..]
    ensures Rename(s, o, n, k) == "[[" + n + w + Rename(v, o, n, k)
  {
    var u := s[2..][|o|..];
    assert u[..|w|] == w;
    RenameSkip(u, |w|, o, n, k);
    Regroup("[[", n, w, Rename(v, o, n, k));
  }

  lemma {:induction false} Regroup(a: string, b: string, c: string, d: string)
    ensures a + (b + (c + d)) == a + b + c + d
  {
  }

  /** One pass for the plain references, then one for the aliased, is one for both. */
  lemma {:induction false} TwoPasses(s: string, o: string, n: string)
    requires IsTitle(o) && IsTitle(n)
    ensures Rename(Rename(s, o, n, Plains), o, n, Aliases) == Rename(s, o, n, Any)
    decreases |s|
  {
    var r := Rename(s, o, n, Plains);
    if s == "" {
    } else if RefAt(s, o, Plains) {
      var u := RenamedRef(s, o, n, Plains);
      var v := Rename(u, o, n, Plains);
      RefAtSplit(r, n, v, o, Aliases);
      CopiedRef(r, n, v, o, n, Aliases);
      TwoPasses(u, o, n);
      SplitJoin(Rename(r, o, n, Aliases), Rename(s, o, n, Any), n, Rename(u, o, n, Any));
    } else if RefAt(s, o, Aliases) {
      var u := s[2..][|o|..];
      CopiedRef(s, o, u, o, n, Plains);
      var v := Rename(u, o, n, Plains);
      ClosingRename(u, o, n, Plains);
      RefAtSplit(r, o, v, o, Aliases);
      assert r[2..][|o|..] == v;
      TwoPasses(u, o, n);
    } else {
      RefAtRename(s, o, n, Plains, o, Aliases);
      RenameFirst(s, o, n, Plains);
      assert r[1..] == Rename(s[1..], o, n, Plains);
      TwoPasses(s[1..], o, n);
    }
  }

  lemma {:induction false} SplitJoin(r: string, q: string, a: string, u: string)
    requires Split(r, a, u) && q == "[[" + (a + u)
    ensures r == q
  {
    assert r == r[..2] + r[2..];
  }

  /** Two replacements in a row rename every reference and nothing else. */
  lemma {:induction false} RewriteIsRename(s: string, o: string, n: string)
    requires IsTitle(o) && IsTitle(n)
    ensures Rewrite(s, o, n) == Rename(s, o, n, Any)
  {
    ReplaceIsRename(s, o, n, "]]", Plains);
    ReplaceIsRename(Rename(s, o, n, Plains), o, n, "|", Aliases);
    TwoPasses(s, o, n);
  }

  // ---------- renaming and scanning ----------

  /** Inside the two brackets and the title nothing opens. */
  lemma {:induction false} NoOpenInside(s: string, t: string, u: string, i: nat)
    requires Split(s, t, u) && IsTitle(t) && 0 < i < 2 + |t|
    ensures !Opens(s[i..])
  {
    var j := if i == 1 then 0 else i - 2;
    assert s[j + 2] == s[2..][j] == t[j];
  }

  /** A title that is not closed starts no link, and hides none. */
  lemma {:induction false} LinksOpen(s: string, t: string, u: string)
    requires Split(s, t, u) && IsTitle(t) && ClosingAt(u) == None
    ensures Links(s) == Links(u)
  {
    forall i | 0 <= i < 2 + |t| ensures LinkAt(s[i..]) == None {
      NoLinkInside(s, t, u, i);
    }
    LinksSkip(s, 2 + |t|);
    assert s[2 + |t|..] == u by { SplitDrop(s, t, u, 0); }
  }

  lemma {:induction false} NoLinkInside(s: string, t: string, u: string, i: nat)
    requires Split(s, t, u) && IsTitle(t) && ClosingAt(u) == None && i < 2 + |t|
    ensures i <= |s| && LinkAt(s[i..]) == None
  {
    if i == 0 {
      assert s[0..] == s;
      LinkAtSplit(s, t, u);
    } else {
      NoOpenInside(s, t, u, i);
    }
  }

  lemma {:induction false} LinksClosed(s: string, t: string, u: string, c: Closing, rest: string)
    requires Split(s, t, u) && IsTitle(t) && ClosingAt(u) == Some(c) && rest == u[c.length..]
    ensures Links(s) == [Ref(t, c.aliased)] + Links(rest)
  {
    var f := Found(Ref(t, c.aliased), 2 + |t| + c.length);
    assert LinkAt(s) == Some(f) by { LinkAtSplit(s, t, u); }
    assert s[f.end..] == rest by { SplitDrop(s, t, u, c.length); }
    LinksStep(s, f);
  }

  lemma {:induction false} LinksStep(s: string, f: Found)
    requires LinkAt(s) == Some(f)
    ensures Links(s) == [f.ref] + Links(s[f.end..])
  {
  }

  lemma {:induction false} SplitDrop(s: string, t: string, u: string, j: nat)
    requires Split(s, t, u) && j <= |u|
    ensures s[2 + |t| + j..] == u[j..]
  {
    assert (t + u)[|t|..] == u;
    DropTwice(t + u, |t|, j, u);
    DropTwice(s, 2, |t| + j, t + u);
  }

  /** Scanning commutes with renaming: the same references, in the same order and form,
      with the old title replaced. */
  lemma {:induction false} RenameCommutes(s: string, o: string, n: string)
    requires IsTitle(o) && IsTitle(n)
    ensures Links(Rename(s, o, n, Any)) == SubstAll(Links(s), o, n)
    decreases |s|, 1
  {
    if s == "" {
    } else if RefAt(s, o, Any) {
      var u := RenamedRef(s, o, n, Any);
      RenameCommutesAt(s, Rename(s, o, n, Any), o, n, u, n);
    } else {
      LinkAtRename(s, o, n, Any);
      RenameFirst(s, o, n, Any);
      match LinkAt(s) {
        case None =>
          assert Rename(s, o, n, Any)[1..] == Rename(s[1..], o, n, Any);
          RenameCommutes(s[1..], o, n);
        case Some(f) =>
          var t := f.ref.title;
          var u := s[2..][|t|..];
          LinkSplits(s);
          CopiedRef(s, t, u, o, n, Any);
          ClosingRename(u, o, n, Any);
          RefAtSplit(s, t, u, o, Any);
          RenameCommutesAt(s, Rename(s, o, n, Any), o, n, u, t);
      }
    }
  }

  lemma {:induction false} LinkSplits(s: string)
    requires LinkAt(s).Some?
    ensures var t := LinkAt(s).value.ref.title; Split(s, t, s[2..][|t|..]) && EndsTitle(s[2..][|t|..], Any)
  {
  }

  /** A title `t` becomes `m`; what follows is renamed. */
  lemma {:induction false} RenameCommutesAt(s: string, r: string, o: string, n: string, u: string, m: string)
    requires IsTitle(o) && IsTitle(n) && IsTitle(m) && |u| < |s| && |s| >= 2
    requires exists t :: IsTitle(t) && Split(s, t, u) && m == (if t == o then n else t)
    requires Split(r, m, Rename(u, o, n, Any)) && ClosingAt(Rename(u, o, n, Any)) == ClosingAt(u)
    ensures Links(r) == SubstAll(Links(s), o, n)
    decreases |s|, 0
  {
    var t :| IsTitle(t) && Split(s, t, u) && m == (if t == o then n else t);
    var v := Rename(u, o, n, Any);
    match ClosingAt(u) {
      case None =>
        LinksOpen(s, t, u);
        LinksOpen(r, m, v);
        RenameCommutes(u, o, n);
      case Some(c) =>
        LinksClosed(s, t, u, c, u[c.length..]);
        RenameSkip(u, c.length, o, n, Any);
        assert v[c.length..] == Rename(u[c.length..], o, n, Any);
        LinksClosed(r, m, v, c, v[c.length..]);
        RenameCommutes(u[c.length..], o, n);
        SubstCons(Ref(t, c.aliased), Links(u[c.length..]), o, n);
    }
  }

  lemma {:induction false} SubstCons(ref: Ref, refs: seq<Ref>, o: string, n: string)
    ensures SubstAll([ref] + refs, o, n) == [Subst(ref, o, n)] + SubstAll(refs, o, n)
  {
  }

  // ---------- renaming back ----------

  lemma {:induction false} MentionsSkip(s: string, i: nat, t: string)
    requires i <= |s| && forall j :: 0 <= j < i ==> !RefAt(s[j..], t, Any)
    ensures Mentions(s, t) <==> Mentions(s[i..], t)
  {
    assert s[0..] == s;
    if i > 0 {
      forall j | 0 <= j < i - 1 ensures !RefAt(s[1..][j..], t, Any) {
        assert s[1..][j..] == s[j + 1..];
      }
      MentionsSkip(s[1..], i - 1, t);
      assert s[1..][i - 1..] == s[i..];
    }
  }

  /** Inside the two brackets and the title no reference starts. */
  lemma {:induction false} MentionsPast(r: string, m: string, v: string, t: string)
    requires Split(r, m, v) && IsTitle(m) && IsTitle(t) && !RefAt(r, t, Any)
    ensures Mentions(r, t) <==> Mentions(v, t)
  {
    forall i | 0 <= i < 2 + |m| ensures !RefAt(r[i..], t, Any) {
      if i == 0 {
        assert r[0..] == r;
      } else {
        NoOpenInside(r, m, v, i);
      }
    }
    MentionsSkip(r, 2 + |m|, t);
    SplitDrop(r, m, v, 0);
    assert v[0..] == v;
  }

  /** A renamed title is gone. */
  lemma {:induction false} RenamedAway(s: string, o: string, n: string)
    requires IsTitle(o) && IsTitle(n) && o != n
    ensures !Mentions(Rename(s, o, n, Any), o)
    decreases |s|
  {
    var r := Rename(s, o, n, Any);
    if s == "" {
    } else if RefAt(s, o, Any) {
      var u := RenamedRef(s, o, n, Any);
      var v := Rename(u, o, n, Any);
      RefAtSplit(r, n, v, o, Any);
      MentionsPast(r, n, v, o);
      RenamedAway(u, o, n);
    } else {
      RefAtRename(s, o, n, Any, o, Any);
      RenameFirst(s, o, n, Any);
      assert r[1..] == Rename(s[1..], o, n, Any);
      RenamedAway(s[1..], o, n);
    }
  }

  lemma {:induction false} RenameBackRestores(s: string, o: string, n: string)
    requires IsTitle(o) && IsTitle(n) && !Mentions(s, n)
    ensures Rename(Rename(s, o, n, Any), n, o, Any) == s
    decreases |s|
  {
    var r := Rename(s, o, n, Any);
    if s == "" {
    } else if RefAt(s, o, Any) {
      var u := RenamedRef(s, o, n, Any);
      var v := Rename(u, o, n, Any);
      RefAtSplit(r, n, v, n, Any);
      assert r[2..][|n|..] == v;
      MentionsPast(s, o, u, n);
      RenameBackRestores(u, o, n);
      SplitJoin(s, Rename(r, n, o, Any), o, u);
    } else {
      RefAtRename(s, o, n, Any, n, Any);
      RenameFirst(s, o, n, Any);
      assert r[1..] == Rename(s[1..], o, n, Any);
      RenameBackRestores(s[1..], o, n);
    }
  }

  /** Renaming back restores the text exactly when nothing referred to the new title. */
  lemma {:induction false} RenameBackIff(s: string, o: string, n: string)
    requires IsTitle(o) && IsTitle(n) && o != n
    ensures Rewrite(Rewrite(s, o, n), n, o) == s <==> !Mentions(s, n)
  {
    RewriteIsRename(s, o, n);
    RewriteIsRename(Rename(s, o, n, Any), n, o);
    RenamedAway(Rename(s, o, n, Any), n, o);
    if !Mentions(s, n) {
      RenameBackRestores(s, o, n);
    }
  }

  // ---------- titles as the link table sees them ----------

  function TitleOf(ref: Ref): seq<string> {
    if Strip(ref.title) == "" then [] else [Strip(ref.title)]
  }

  /** The stripped, non-empty titles: what extraction returns. */
  function Titles(refs: seq<Ref>): seq<string> {
    if refs == [] then [] else TitleOf(refs[0]) + Titles(refs[1..])
  }

  function SubstTitles(ts: seq<string>, o: string, n: string): seq<string> {
    seq(|ts|, i requires 0 <= i < |ts| => if ts[i] == o then n else ts[i])
  }

  /** A reference on which extraction and the rename from `o` to `n` disagree: it is read as `o`
      without being written so, or it is written as `o` and spaces are stripped from `o` or `n`. */
  predicate Spoils(ref: Ref, o: string, n: string) {
    if ref.title != o then Strip(ref.title) == o
    else if Strip(o) == o then Strip(n) != n
    else Strip(n) != Strip(o)
  }

  predicate Spoiled(refs: seq<Ref>, o: string, n: string) {
    exists i :: 0 <= i < |refs| && Spoils(refs[i], o, n)
  }

  lemma {:induction false} TitleCommutes(ref: Ref, o: string, n: string)
    requires o != n && o != "" && n != ""
    ensures TitleOf(Subst(ref, o, n)) == SubstTitles(TitleOf(ref), o, n) <==> !Spoils(ref, o, n)
    ensures ref.title != o ==> |TitleOf(Subst(ref, o, n))| == |TitleOf(ref)|
    ensures ref.title == o ==> |TitleOf(Subst(ref, o, n))| - |TitleOf(ref)| == Kept(n) - Kept(o)
  {
    var after, before := TitleOf(Subst(ref, o, n)), SubstTitles(TitleOf(ref), o, n);
    assert after == before <==> |after| == |before| && (|after| == 1 ==> after[0] == before[0]);
  }

  /** Whether extraction keeps a title. */
  function Kept(t: string): int {
    if Strip(t) == "" then 0 else 1
  }

  function Uses(refs: seq<Ref>, o: string): nat {
    if refs == [] then 0 else (if refs[0].title == o then 1 else 0) + Uses(refs[1..], o)
  }

  lemma {:induction false} TitlesLength(refs: seq<Ref>, o: string, n: string)
    requires o != n && o != "" && n != ""
    ensures |Titles(SubstAll(refs, o, n))| - |Titles(refs)| == Uses(refs, o) * (Kept(n) - Kept(o))
  {
    if refs != [] {
      TitlesLength(refs[1..], o, n);
      TitleCommutes(refs[0], o, n);
      TitlesCons(refs, o, n);
    }
  }

  lemma {:induction false} UsesNone(refs: seq<Ref>, o: string)
    ensures Uses(refs, o) == 0 <==> forall i :: 0 <= i < |refs| ==> refs[i].title != o
  {
    if refs != [] {
      UsesNone(refs[1..], o);
      assert forall i :: 0 < i < |refs| ==> refs[i] == refs[1..][i - 1];
    }
  }

  lemma {:induction false} TitlesCommute(refs: seq<Ref>, o: string, n: string)
    requires o != n && o != "" && n != ""
    ensures Titles(SubstAll(refs, o, n)) == SubstTitles(Titles(refs), o, n) <==> !Spoiled(refs, o, n)
  {
    if Kept(n) != Kept(o) && Uses(refs, o) > 0 {
      TitlesLength(refs, o, n);
      UsesNone(refs, o);
      var i :| 0 <= i < |refs| && refs[i].title == o;
      assert Spoils(refs[i], o, n);
    } else {
      SameLengthsCommute(refs, o, n);
    }
  }

  lemma {:induction false} SameLengthsCommute(refs: seq<Ref>, o: string, n: string)
    requires o != n && o != "" && n != "" && (Kept(n) == Kept(o) || Uses(refs, o) == 0)
    ensures Titles(SubstAll(refs, o, n)) == SubstTitles(Titles(refs), o, n) <==> !Spoiled(refs, o, n)
  {
    if refs != [] {
      var rest := refs[1..];
      SameLengthsCommute(rest, o, n);
      TitleCommutes(refs[0], o, n);
      SpoiledCons(refs, o, n);
      TitlesCons(refs, o, n);
      ConcatEqual(TitleOf(Subst(refs[0], o, n)), SubstTitles(TitleOf(refs[0]), o, n),
                  Titles(SubstAll(rest, o, n)), SubstTitles(Titles(rest), o, n));
    }
  }

  lemma {:induction false} TitlesCons(refs: seq<Ref>, o: string, n: string)
    requires refs != []
    ensures Titles(SubstAll(refs, o, n)) == TitleOf(Subst(refs[0], o, n)) + Titles(SubstAll(refs[1..], o, n))
    ensures SubstTitles(Titles(refs), o, n) ==
            SubstTitles(TitleOf(refs[0]), o, n) + SubstTitles(Titles(refs[1..]), o, n)
  {
    assert SubstAll(refs, o, n)[1..] == SubstAll(refs[1..], o, n);
    SubstTitlesConcat(TitleOf(refs[0]), Titles(refs[1..]), o, n);
  }

  lemma {:induction false} SubstTitlesConcat(a: seq<string>, b: seq<string>, o: string, n: string)
    ensures SubstTitles(a + b, o, n) == SubstTitles(a, o, n) + SubstTitles(b, o, n)
  {
  }

  lemma {:induction false} ConcatEqual<T>(a: seq<T>, b: seq<T>, c: seq<T>, d: seq<T>)
    requires |a| == |b|
    ensures a + c == b + d <==> a == b && c == d
  {
    if a + c == b + d {
      assert a == (a + c)[..|a|] && c == (a + c)[|a|..];
      assert b == (b + d)[..|b|] && d == (b + d)[|b|..];
    }
  }

  lemma {:induction false} SpoiledCons(refs: seq<Ref>, o: string, n: string)
    requires refs != []
    ensures Spoiled(refs, o, n) <==> Spoils(refs[0], o, n) || Spoiled(refs[1..], o, n)
  {
    if Spoiled(refs, o, n) {
      var i :| 0 <= i < |refs| && Spoils(refs[i], o, n);
      assert i > 0 ==> refs[1..][i - 1] == refs[i];
    }
    if Spoiled(refs[1..], o, n) {
      var i :| 0 <= i < |refs[1..]| && Spoils(refs[1..][i], o, n);
      assert refs[i + 1] == refs[1..][i];
    }
  }

  /** The stripped titles follow the rename exactly when no reference is spoiled. */
  lemma {:induction false} ExtractionCommutesIff(s: string, o: string, n: string)
    requires IsTitle(o) && IsTitle(n) && o != n
    ensures Titles(Links(Rewrite(s, o, n))) == SubstTitles(Titles(Links(s)), o, n) <==> !Spoiled(Links(s), o, n)
  {
    RewriteIsRename(s, o, n);
    RenameCommutes(s, o, n);
    TitlesCommute(Links(s), o, n);
  }

  /** For titles without spaces around them: exactly when no reference to the old title is written
      with spaces around it; such a reference is linked, but the rewriter misses it. */
  lemma {:induction false} StrippedTitlesCommuteIff(s: string, o: string, n: string)
    requires IsTitle(o) && IsTitle(n) && o != n && Strip(o) == o && Strip(n) == n
    ensures Titles(Links(Rewrite(s, o, n))) == SubstTitles(Titles(Links(s)), o, n)
            <==> forall ref :: ref in Links(s) && Strip(ref.title) == o ==> ref.title == o
  {
    ExtractionCommutesIff(s, o, n);
    var refs := Links(s);
    assert forall i :: 0 <= i < |refs| ==> (Spoils(refs[i], o, n) <==> Strip(refs[i].title) == o && refs[i].title != o);
    assert forall ref :: ref in refs <==> exists i :: 0 <= i < |refs| && refs[i] == ref;
  }

  /** Such a text: ` a ` is linked to `a`, and renaming `a` leaves it alone. */
  lemma {:induction false} PaddedReferenceStays()
    ensures Titles(Links("[[ a ]]")) == ["a"] && Rewrite("[[ a ]]", "a", "b") == "[[ a ]]"
  {
    PaddedIsLinked("[[ a ]]");
    PaddedIsNotRenamed("[[ a ]]");
  }

  lemma {:induction false} PaddedIsLinked(s: string)
    requires s == "[[ a ]]"
    ensures Titles(Links(s)) == ["a"]
  {
    assert s[2..] == " a " + "]]";
    LinkAtSplit(s, " a ", "]]");
    LinksStep(s, Found(Ref(" a ", false), 7));
    assert StripLeft(" a ") == "a " by { assert " a "[1..] == "a "; }
    assert StripRight("a ") == "a" by { assert "a "[..1] == "a"; }
  }

  lemma {:induction false} PaddedIsNotRenamed(s: string)
    requires s == "[[ a ]]"
    ensures Rewrite(s, "a", "b") == s
  {
    assert s[2..] == " a " + "]]";
    RewriteIsRename(s, "a", "b");
    RefAtSplit(s, " a ", "]]", "a", Any);
    CopiedRef(s, " a ", "]]", "a", "b", Any);
    RenameSkip("]]", 2, "a", "b", Any);
    SplitJoin(Rename(s, "a", "b", Any), s, " a ", "]]");
  }

  // ---------- the filter of the rename ----------

  predicate Contains(s: string, w: string) {
    StartsWith(s, w) || (s != "" && Contains(s[1..], w))
  }

  lemma {:induction false} PrefixOfPrefix(s: string, w: string, pat: string)
    requires StartsWith(pat, w)
    ensures StartsWith(s, pat) ==> StartsWith(s, w)
  {
    if StartsWith(s, pat) {
      assert s[..|w|] == pat[..|w|];
    }
  }

  lemma {:induction false} ReplaceAbsent(s: string, w: string, pat: string, rep: string)
    requires !Contains(s, w) && StartsWith(pat, w) && pat != ""
    ensures ReplaceAll(s, pat, rep) == s
  {
    if s != "" {
      PrefixOfPrefix(s, w, pat);
      ReplaceAbsent(s[1..], w, pat, rep);
    }
  }

  /** The database filter loses no document that the rewriter would change. */
  lemma {:induction false} FilterIsExact(s: string, o: string, n: string)
    requires !Contains(s, "[[" + o)
    ensures Rewrite(s, o, n) == s
  {
    ReplaceAbsent(s, "[[" + o, "[[" + o + "]]", "[[" + n + "]]");
    ReplaceAbsent(s, "[[" + o, "[[" + o + "|", "[[" + n + "|");
  }
}
