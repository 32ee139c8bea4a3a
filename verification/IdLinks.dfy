/** References to documents by id in markdown links: the second pattern of
    backend/apps/knowledge/links.py and what extraction makes of it. */
module IdLinks {
  import opened Options
  import opened PythonText

  type Id = nat

  datatype IdRef = IdRef(anchor: string, target: Id)

  // ---------- the scanner ----------

  const ANCHOR_LIMIT: nat := 255
  const CODE_LENGTH: nat := 36
  const SCHEME: string := "(knowpilot://doc/"
  const PATH: string := "(/documents/"

  /** The position of the first c, or the length. */
  function Find(s: string, c: char): (k: nat)
    ensures k <= |s|
    ensures k < |s| ==> s[k] == c
    ensures forall i :: 0 <= i < k ==> s[i] != c
  {
    if s == "" || s[0] == c then 0 else 1 + Find(s[1..], c)
  }

  predicate IsCodeChar(c: char) {
    '0' <= c <= '9' || 'a' <= c <= 'f' || 'A' <= c <= 'F' || c == '-'
  }

  predicate IsCode(s: string) {
    |s| == CODE_LENGTH && forall i :: 0 <= i < |s| ==> IsCodeChar(s[i])
  }

  /** How much of t the opening of a link takes; zero if it is none. */
  function Opening(t: string): (n: nat)
    ensures n <= |t|
  {
    if SCHEME <= t then |SCHEME| else if PATH <= t then |PATH| else 0
  }

  /** What the text after the first closing parenthesis is. */
  function AfterParenthesis(t: string): (r: string)
    ensures |r| <= |t|
  {
    if t == "" then "" else if t[0] == ')' then t[1..] else AfterParenthesis(t[1..])
  }

  /** The end of the pattern: an optional parenthesis, everything up to the next one, and that. */
  function Remainder(t: string): (r: string)
    ensures |r| <= |t|
  {
    if t != "" && t[0] == ')' then AfterParenthesis(t[1..]) else AfterParenthesis(t)
  }

  datatype Found = Found(anchor: string, code: string, rest: string)

  /** The pattern tried at the start of s. */
  function LinkAt(s: string): (r: Option<Found>)
    ensures r.Some? ==> |r.value.rest| < |s| && IsCode(r.value.code)
  {
    if s == "" || s[0] != '[' then None
    else
      var k := Find(s[1..], ']');
      if k == |s[1..]| || k > ANCHOR_LIMIT then None
      else
        var t := s[1..][k + 1..];
        var n := Opening(t);
        if n == 0 || |t| < n + CODE_LENGTH || !IsCode(t[n..n + CODE_LENGTH]) then None
        else Some(Found(s[1..][..k], t[n..n + CODE_LENGTH], Remainder(t[n + CODE_LENGTH..])))
  }

  function WithoutDashes(s: string): string {
    if s == "" then "" else if s[0] == '-' then WithoutDashes(s[1..]) else [s[0]] + WithoutDashes(s[1..])
  }

  function HexDigit(c: char): nat {
    if '0' <= c <= '9' then c as int - '0' as int
    else if 'a' <= c <= 'f' then c as int - 'a' as int + 10
    else if 'A' <= c <= 'F' then c as int - 'A' as int + 10
    else 0
  }

  function HexValue(s: string): nat {
    if s == "" then 0 else 16 * HexValue(s[..|s| - 1]) + HexDigit(s[|s| - 1])
  }

  /** uuid.UUID: 32 digits, wherever the dashes are. */
  function IdOf(code: string): Option<Id> {
    var digits := WithoutDashes(code);
    if |digits| == 32 then Some(HexValue(digits)) else None
  }

  /** A code that is no id is passed over. */
  function RefOf(anchor: string, code: string): seq<IdRef> {
    match IdOf(code)
    case Some(id) => [IdRef(Strip(anchor), id)]
    case None => []
  }

  /** All references, leftmost first, without overlaps. */
  function IdRefs(s: string): seq<IdRef>
    decreases |s|
  {
    if s == "" then []
    else match LinkAt(s)
      case Some(f) => RefOf(f.anchor, f.code) + IdRefs(f.rest)
      case None => IdRefs(s[1..])
  }

  // ---------- the pattern ----------

  predicate IsAnchor(a: string) {
    |a| <= ANCHOR_LIMIT && forall i :: 0 <= i < |a| ==> a[i] != ']'
  }

  predicate IsOpening(o: string) {
    o == SCHEME || o == PATH
  }

  function Rendered(a: string, o: string, code: string): string {
    "[" + a + "]" + o + code
  }

  /** The scanner accepts exactly the strings that start with a rendered link. */
  lemma {:induction false} LinkAtIsPattern(s: string)
    ensures LinkAt(s).Some? <==> exists a, o, code, t :: Starts(s, a, o, code, t)
  {
    if LinkAt(s).Some? {
      var a, o, code, t := FoundStarts(s);
    }
    if exists a, o, code, t :: Starts(s, a, o, code, t) {
      var a, o, code, t :| Starts(s, a, o, code, t);
      RenderedIsFound(a, o, code, t);
    }
  }

  lemma FoundParts(s: string) returns (k: nat, n: nat)
    requires LinkAt(s).Some?
    ensures s != "" && s[0] == '['
    ensures k < |s[1..]| && s[1..][k] == ']' && IsAnchor(s[1..][..k])
    ensures n + CODE_LENGTH <= |s[1..][k + 1..]| && IsOpening(s[1..][k + 1..][..n])
    ensures IsCode(s[1..][k + 1..][n..n + CODE_LENGTH])
  {
    k := Find(s[1..], ']');
    n := Opening(s[1..][k + 1..]);
    OpeningIs(s[1..][k + 1..]);
  }

  lemma {:induction false} FoundStarts(s: string) returns (a: string, o: string, code: string, t: string)
    requires LinkAt(s).Some?
    ensures Starts(s, a, o, code, t)
  {
    var k, n := FoundParts(s);
    var rest := s[1..][k + 1..];
    a, o, code, t := s[1..][..k], rest[..n], rest[n..n + CODE_LENGTH], rest[n + CODE_LENGTH..];
    Reassembled(s, k, n);
  }

  lemma OpeningIs(t: string)
    ensures Opening(t) > 0 ==> IsOpening(t[..Opening(t)])
  {
  }

  lemma Reassembled(s: string, k: nat, n: nat)
    requires s != "" && s[0] == '[' && k < |s[1..]| && s[1..][k] == ']'
    requires n + CODE_LENGTH <= |s[1..][k + 1..]|
    ensures var u := s[1..]; var t := u[k + 1..];
      s == Rendered(u[..k], t[..n], t[n..n + CODE_LENGTH]) + t[n + CODE_LENGTH..]
  {
    var u := s[1..];
    var t := u[k + 1..];
    assert s == "[" + u;
    assert u == u[..k] + "]" + t;
    Regrouped(t, n);
    SameText(u[..k], t[..n], t[n..n + CODE_LENGTH], t[n + CODE_LENGTH..]);
  }

  lemma Regrouped(t: string, n: nat)
    requires n + CODE_LENGTH <= |t|
    ensures t == t[..n] + t[n..n + CODE_LENGTH] + t[n + CODE_LENGTH..]
  {
  }

  lemma SameText(a: string, o: string, code: string, t: string)
    ensures "[" + (a + "]" + (o + code + t)) == Rendered(a, o, code) + t
  {
  }

  ghost predicate Starts(s: string, a: string, o: string, code: string, t: string) {
    IsAnchor(a) && IsOpening(o) && IsCode(code) && s == Rendered(a, o, code) + t
  }

  lemma {:induction false} FindAt(a: string, c: char, t: string)
    requires forall i :: 0 <= i < |a| ==> a[i] != c
    ensures Find(a + [c] + t, c) == |a|
  {
    var s := a + [c] + t;
    assert s[|a|] == c;
    assert forall i :: 0 <= i < |a| ==> s[i] == a[i];
  }

  lemma OpeningOf(o: string, t: string)
    requires IsOpening(o)
    ensures Opening(o + t) == |o|
  {
    assert (o + t)[..|o|] == o;
    if o == PATH {
      assert (o + t)[1] == '/' && SCHEME[1] == 'k';
    }
  }

  lemma {:induction false} RenderedIsFound(a: string, o: string, code: string, t: string)
    requires IsAnchor(a) && IsOpening(o) && IsCode(code)
    ensures LinkAt(Rendered(a, o, code) + t) == Some(Found(a, code, Remainder(t)))
  {
    var s := Rendered(a, o, code) + t;
    var u := o + (code + t);
    assert s[1..] == a + [']'] + u;
    FindAt(a, ']', u);
    assert s[1..][|a| + 1..] == u && s[1..][..|a|] == a;
    OpeningOf(o, code + t);
    assert u[|o|..|o| + CODE_LENGTH] == code;
    assert u[|o| + CODE_LENGTH..] == t;
  }

  // ---------- what follows a reference ----------

  /** Text without an opening bracket holds no reference. */
  lemma {:induction false} PlainIsSkipped(lead: string, s: string)
    requires forall i :: 0 <= i < |lead| ==> lead[i] != '['
    ensures IdRefs(lead + s) == IdRefs(s)
  {
    if lead == "" {
      assert lead + s == s;
    } else {
      assert (lead + s)[1..] == lead[1..] + s;
      PlainIsSkipped(lead[1..], s);
    }
  }

  /** A closed reference takes everything up to the next closing parenthesis with it. */
  lemma {:induction false} ReferenceSwallows(a: string, o: string, code: string, t: string)
    requires IsAnchor(a) && IsOpening(o) && IsCode(code)
    ensures IdRefs(Rendered(a, o, code) + ")" + t) == RefOf(a, code) + IdRefs(AfterParenthesis(t))
  {
    var s := Rendered(a, o, code) + (")" + t);
    assert Rendered(a, o, code) + ")" + t == s;
    RenderedIsFound(a, o, code, ")" + t);
    assert (")" + t)[1..] == t;
  }

  lemma {:induction false} ParenthesisAt(gap: string, t: string)
    requires forall i :: 0 <= i < |gap| ==> gap[i] != ')'
    ensures AfterParenthesis(gap + ")" + t) == t
  {
    if gap == "" {
      assert gap + ")" + t == ")" + t;
    } else {
      assert (gap + ")" + t)[1..] == gap[1..] + ")" + t;
      ParenthesisAt(gap[1..], t);
    }
  }

  lemma {:induction false} ParenthesisIn(gap: string, t: string)
    requires exists i :: 0 <= i < |gap| && gap[i] == ')'
    ensures AfterParenthesis(gap + t) == AfterParenthesis(gap) + t
  {
    if gap[0] == ')' {
      assert (gap + t)[1..] == gap[1..] + t;
    } else {
      var i :| 0 <= i < |gap| && gap[i] == ')';
      assert gap[1..][i - 1] == ')';
      assert (gap + t)[1..] == gap[1..] + t;
      ParenthesisIn(gap[1..], t);
    }
  }

  lemma {:induction false} RestOfGap(gap: string)
    requires forall i :: 0 <= i < |gap| ==> gap[i] != '['
    ensures forall i :: 0 <= i < |AfterParenthesis(gap)| ==> AfterParenthesis(gap)[i] != '['
  {
    if gap != "" && gap[0] != ')' {
      RestOfGap(gap[1..]);
    }
  }

  /** So of two closed references in a row the second one is found exactly if a closing parenthesis
      stands between them. */
  lemma {:induction false} NeighbourIsFoundIff(a: string, o: string, code: string, gap: string,
                                               b: string, p: string, next: string, t: string)
    requires IsAnchor(a) && IsOpening(o) && IsCode(code)
    requires IsAnchor(b) && IsOpening(p) && IsCode(next)
    requires forall i :: 0 <= i < |b| ==> b[i] != ')'
    requires forall i :: 0 <= i < |gap| ==> gap[i] != '['
    ensures IdRefs(Rendered(a, o, code) + ")" + (gap + (Rendered(b, p, next) + ")" + t))) == RefOf(a, code) + (
      if ')' in gap then RefOf(b, next) + IdRefs(AfterParenthesis(t)) else IdRefs(t))
  {
    var second := Rendered(b, p, next) + ")" + t;
    ReferenceSwallows(a, o, code, gap + second);
    if ')' in gap {
      ParenthesisIn(gap, second);
      RestOfGap(gap);
      PlainIsSkipped(AfterParenthesis(gap), second);
      ReferenceSwallows(b, p, next, t);
    } else {
      NeighbourIsSwallowed(gap, b, p, next, t);
    }
  }

  /** Two references in one sentence, say: only the first is found. */
  lemma {:induction false} SecondReferenceIsLost(code: string, next: string)
    requires IsCode(code) && IsCode(next)
    ensures IdRefs(Rendered("a", PATH, code) + ")" + (" and " + (Rendered("b", PATH, next) + ")" + ""))) ==
            RefOf("a", code)
  {
    NeighbourIsFoundIff("a", PATH, code, " and ", "b", PATH, next, "");
    assert RefOf("a", code) + [] == RefOf("a", code);
  }

  lemma {:induction false} NeighbourIsSwallowed(gap: string, b: string, p: string, next: string, t: string)
    requires IsOpening(p) && IsCode(next) && forall i :: 0 <= i < |b| ==> b[i] != ')'
    requires ')' !in gap
    ensures AfterParenthesis(gap + (Rendered(b, p, next) + ")" + t)) == t
  {
    var body := gap + Rendered(b, p, next);
    NoParenthesis(b, p, next);
    ParenthesisAt(body, t);
    assert gap + (Rendered(b, p, next) + ")" + t) == body + ")" + t;
  }

  lemma NoParenthesis(b: string, p: string, next: string)
    requires IsOpening(p) && IsCode(next) && forall i :: 0 <= i < |b| ==> b[i] != ')'
    ensures forall i :: 0 <= i < |Rendered(b, p, next)| ==> Rendered(b, p, next)[i] != ')'
  {
    assert forall i :: 0 <= i < |next| ==> IsCodeChar(next[i]) && next[i] != ')';
    assert forall i :: 0 <= i < |p| ==> p[i] != ')';
  }

  // ---------- what an id is written as ----------

  const LOWER: string := "0123456789abcdef"
  const UPPER: string := "0123456789ABCDEF"

  function PowerOf16(width: nat): nat {
    if width == 0 then 1 else 16 * PowerOf16(width - 1)
  }

  /** The last `width` hexadecimal digits of n. */
  function Hex(n: nat, width: nat, digits: string): (s: string)
    requires |digits| == 16
    ensures |s| == width
  {
    if width == 0 then "" else Hex(n / 16, width - 1, digits) + [digits[n % 16]]
  }

  /** str of a UUID: 32 digits in groups of 8, 4, 4, 4 and 12 (section 4 of RFC 9562). */
  function Uuid(n: nat, digits: string): string
    requires |digits| == 16
  {
    var h := Hex(n, 32, digits);
    h[..8] + "-" + (h[8..12] + "-" + (h[12..16] + "-" + (h[16..20] + "-" + h[20..])))
  }

  /** The characters of a code are those that are written. */
  lemma CodeCharsAre(c: char)
    ensures IsCodeChar(c) <==> c == '-' || c in LOWER || c in UPPER
  {
    if 'a' <= c <= 'f' {
      assert LOWER[10 + (c as int - 'a' as int)] == c;
    } else if 'A' <= c <= 'F' {
      assert UPPER[10 + (c as int - 'A' as int)] == c;
    } else if '0' <= c <= '9' {
      assert LOWER[c as int - '0' as int] == c;
    }
  }

  predicate NoDash(s: string) {
    forall i :: 0 <= i < |s| ==> s[i] != '-'
  }

  lemma {:induction false} DashRemoved(a: string, b: string)
    requires NoDash(a)
    ensures WithoutDashes(a + ("-" + b)) == a + WithoutDashes(b)
  {
    if a == "" {
      assert a + ("-" + b) == "-" + b && ("-" + b)[1..] == b;
    } else {
      assert (a + ("-" + b))[1..] == a[1..] + ("-" + b);
      DashRemoved(a[1..], b);
    }
  }

  lemma {:induction false} NothingRemoved(s: string)
    requires NoDash(s)
    ensures WithoutDashes(s) == s
  {
    if s != "" {
      NothingRemoved(s[1..]);
    }
  }

  lemma DigitRoundTrip(d: nat, digits: string)
    requires d < 16 && digits in {LOWER, UPPER}
    ensures IsCodeChar(digits[d]) && digits[d] != '-' && HexDigit(digits[d]) == d
  {
  }

  lemma {:induction false} HexRoundTrip(n: nat, width: nat, digits: string)
    requires digits in {LOWER, UPPER} && n < PowerOf16(width)
    ensures HexValue(Hex(n, width, digits)) == n
    ensures NoDash(Hex(n, width, digits))
    ensures forall i :: 0 <= i < width ==> IsCodeChar(Hex(n, width, digits)[i])
  {
    if width > 0 {
      var s := Hex(n, width, digits);
      HexRoundTrip(n / 16, width - 1, digits);
      DigitRoundTrip(n % 16, digits);
      assert s[..|s| - 1] == Hex(n / 16, width - 1, digits);
    }
  }

  /** Every id is read back from how it is written, in lower and in upper case. */
  lemma {:induction false} UuidRoundTrip(n: nat, digits: string)
    requires digits in {LOWER, UPPER} && n < PowerOf16(32)
    ensures IsCode(Uuid(n, digits)) && IdOf(Uuid(n, digits)) == Some(n)
  {
    var h := Hex(n, 32, digits);
    HexRoundTrip(n, 32, digits);
    GroupsJoined(h);
  }

  predicate AllCode(s: string) {
    forall i :: 0 <= i < |s| ==> IsCodeChar(s[i])
  }

  /** One more group in front of the others. */
  lemma {:induction false} GroupJoined(h: string, a: nat, b: nat, rest: string)
    requires a <= b <= |h| && NoDash(h) && AllCode(h)
    requires WithoutDashes(rest) == h[b..] && AllCode(rest)
    ensures var s := h[a..b] + "-" + rest;
      WithoutDashes(s) == h[a..] && AllCode(s) && |s| == b - a + 1 + |rest|
  {
    DashRemoved(h[a..b], rest);
    assert h[a..b] + "-" + rest == h[a..b] + ("-" + rest);
    assert h[a..b] + h[b..] == h[a..];
  }

  lemma {:induction false} GroupsJoined(h: string)
    requires |h| == 32 && NoDash(h) && AllCode(h)
    ensures var s := h[..8] + "-" + (h[8..12] + "-" + (h[12..16] + "-" + (h[16..20] + "-" + h[20..])));
      IsCode(s) && WithoutDashes(s) == h
  {
    NothingRemoved(h[20..]);
    var d := h[16..20] + "-" + h[20..];
    var c := h[12..16] + "-" + d;
    var b := h[8..12] + "-" + c;
    GroupJoined(h, 16, 20, h[20..]);
    GroupJoined(h, 12, 16, d);
    GroupJoined(h, 8, 12, c);
    GroupJoined(h, 0, 8, b);
    assert h[0..8] == h[..8] && h[0..] == h;
  }

  lemma {:induction false} DashesCounted(s: string)
    ensures |WithoutDashes(s)| == |s| - multiset(s)['-']
  {
    if s != "" {
      assert s == [s[0]] + s[1..];
      DashesCounted(s[1..]);
    }
  }

  /** A code is an id exactly if it holds four dashes, wherever they stand. */
  lemma {:induction false} IsIdIff(code: string)
    requires IsCode(code)
    ensures IdOf(code).Some? <==> multiset(code)['-'] == 4
  {
    DashesCounted(code);
  }

  /** A text with one written reference holds that reference first; what comes behind its closing
      parenthesis is looked through from after the next one. */
  lemma {:induction false} WrittenReference(lead: string, a: string, o: string, n: nat, digits: string, t: string)
    requires forall i :: 0 <= i < |lead| ==> lead[i] != '['
    requires IsAnchor(a) && IsOpening(o) && digits in {LOWER, UPPER} && n < PowerOf16(32)
    ensures IdRefs(lead + (Rendered(a, o, Uuid(n, digits)) + ")" + t)) ==
            [IdRef(Strip(a), n)] + IdRefs(AfterParenthesis(t))
  {
    UuidRoundTrip(n, digits);
    PlainIsSkipped(lead, Rendered(a, o, Uuid(n, digits)) + ")" + t);
    ReferenceSwallows(a, o, Uuid(n, digits), t);
  }
}
