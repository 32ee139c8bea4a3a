/** The window of recent messages handed to the model: newest first within a token budget,
    long messages cut in the middle (backend/apps/chat/memory.py). Ratios are exact
    rationals. */
module MemoryWindow {
  import opened Basics
  import opened Options

  /** The estimator used when the tokenizer is missing: a quarter of the length. */
  function QuarterLength(text: string): nat {
    if text == "" then 0 else Max(1, |text| / 4)
  }

  /** Line breaks and a bracketed note in Chinese; 18 characters. */
  const MARKER: string :=
    ['\n', '\U{2026}', '[', '\U{5185}', '\U{5BB9}', '\U{8FC7}', '\U{957F}', '\U{FF0C}', '\U{4E2D}', '\U{95F4}',
     '\U{90E8}', '\U{5206}', '\U{5DF2}', '\U{7701}', '\U{7565}', ']', '\U{2026}', '\n']

  function HeadChars(length: nat, total: nat, cap: int): nat
    requires 0 < cap < total
  {
    Max(1, length * cap * 6 / (total * 10))
  }

  function TailChars(length: nat, total: nat, cap: int): nat
    requires 0 < cap < total
  {
    Max(1, length * cap / (total * 4))
  }

  function TruncateMiddle(estimate: string -> nat, content: string, cap: int): string {
    if cap <= 0 then content
    else
      var total := estimate(content);
      if total <= cap then content
      else
        var head := Min(HeadChars(|content|, total, cap), |content|);
        var tail := Min(TailChars(|content|, total, cap), |content|);
        content[..head] + MARKER + content[|content| - tail..]
  }

  /** What fits is not touched, and nothing is if there is no cap. */
  lemma FittingStays(estimate: string -> nat, content: string, cap: int)
    requires cap <= 0 || estimate(content) <= cap
    ensures TruncateMiddle(estimate, content, cap) == content
  {
  }

  /** What is cut keeps a beginning and an end of the message, which do not overlap. */
  lemma CutKeepsEnds(estimate: string -> nat, content: string, cap: int) returns (head: nat, tail: nat)
    requires 0 < cap < estimate(content) && |content| >= 2
    ensures 1 <= head && 1 <= tail && head + tail <= |content|
    ensures TruncateMiddle(estimate, content, cap) == content[..head] + MARKER + content[|content| - tail..]
  {
    var total := estimate(content);
    var n := |content|;
    Product(n, cap, total);
    DivBound(n * cap * 6, total, 10, n * 6);
    DivBound(n * cap, total, 4, n);
    head := HeadChars(n, total, cap);
    tail := TailChars(n, total, cap);
  }

  lemma Product(n: nat, a: nat, b: nat)
    requires a <= b
    ensures n * a <= n * b
  {
    assert n * b == n * a + n * (b - a);
  }

  lemma Positive(a: nat, b: nat)
    requires a > 0 && b > 0
    ensures a * b > 0
  {
  }

  lemma Cancel(a: nat, b: nat, t: nat)
    requires t > 0 && a * t <= b * t
    ensures a <= b
  {
    if a > b {
      StrictProduct(a, b, t);
    }
  }

  lemma StrictProduct(a: nat, b: nat, t: nat)
    requires a > b && t > 0
    ensures a * t > b * t
  {
    Positive(a - b, t);
    assert a * t == b * t + (a - b) * t;
  }

  lemma {:induction false} Quotient(q: nat, y: nat, d: nat)
    requires d > 0 && q * d <= y
    ensures q <= y / d
  {
    assert y < (y / d + 1) * d;
    if q > y / d {
      Product(d, y / d + 1, q);
    }
  }

  /** x / (t * d) <= y / d when x <= y * t. */
  lemma {:induction false} DivBound(x: nat, t: nat, d: nat, y: nat)
    requires t > 0 && d > 0 && x <= y * t
    ensures t * d > 0 && x / (t * d) <= y / d
  {
    Positive(t, d);
    var q := x / (t * d);
    assert q * (t * d) <= x;
    assert q * (t * d) == (q * d) * t;
    Cancel(q * d, y, t);
    Quotient(q, y, d);
  }

  lemma {:induction false} Exact(x: nat, t: nat, d: nat)
    requires t > 0 && d > 0
    ensures t * d > 0 && x * t / (t * d) == x / d
  {
    DivBound(x * t, t, d, x);
    var q := x / d;
    assert q * d <= x;
    Product(t, q * d, x);
    assert q * (t * d) == t * (q * d);
    Quotient(q, x * t, t * d);
  }

  /** With at most 4t + 3 characters and a cap below t, the share is below 4 cap + 3. */
  lemma {:induction false} ShareBound(n: nat, cap: nat, t: nat)
    requires cap < t && n <= 4 * t + 3
    ensures n * cap <= (4 * cap + 3) * t
    ensures n * cap * 6 <= (24 * cap + 18) * t
  {
    Product(cap, n, 4 * t + 3);
    assert cap * (4 * t + 3) == 4 * (cap * t) + 3 * cap;
    assert (4 * cap + 3) * t == 4 * (cap * t) + 3 * t;
    assert (24 * cap + 18) * t == 6 * ((4 * cap + 3) * t);
  }

  lemma CutLength(content: string, cap: int)
    requires 0 < cap < QuarterLength(content)
    ensures var total := QuarterLength(content);
            |TruncateMiddle(QuarterLength, content, cap)| ==
            Min(HeadChars(|content|, total, cap), |content|) + 18 + Min(TailChars(|content|, total, cap), |content|)
  {
    assert |MARKER| == 18;
  }

  /** A cut message never costs more than the cap, whatever its length, if the cap is at
      least 27 tokens ... */
  lemma {:induction false} CutFitsCap(content: string, cap: int)
    requires cap >= 27
    ensures QuarterLength(TruncateMiddle(QuarterLength, content, cap)) <= cap
  {
    var n, total := |content|, QuarterLength(content);
    if total > cap {
      ShareBound(n, cap, total);
      DivBound(n * cap * 6, total, 10, 24 * cap + 18);
      DivBound(n * cap, total, 4, 4 * cap + 3);
      CutLength(content, cap);
    }
  }

  /** ... and only then: for each smaller cap some message is cut to more than the cap. */
  lemma {:induction false} SmallerCapsAreExceeded(cap: int) returns (content: string)
    requires 0 < cap < 27
    ensures QuarterLength(TruncateMiddle(QuarterLength, content, cap)) > cap
  {
    var n := 4 * cap + if cap < 24 then 4 else cap - 19;
    content := seq(n, i => 'x');
    CutLength(content, cap);
    if cap < 24 {
      SmallCap(cap);
    } else {
      LargerCap(cap);
    }
  }

  lemma {:induction false} LargerCap(cap: nat)
    requires 24 <= cap < 27
    ensures HeadChars(5 * cap - 19, cap + 1, cap) == 3 * cap - 14
    ensures TailChars(5 * cap - 19, cap + 1, cap) == cap
  {
    if cap == 24 {
      assert HeadChars(101, 25, 24) == 58 && TailChars(101, 25, 24) == 24;
    } else if cap == 25 {
      assert HeadChars(106, 26, 25) == 61 && TailChars(106, 26, 25) == 25;
    } else {
      assert HeadChars(111, 27, 26) == 64 && TailChars(111, 27, 26) == 26;
    }
  }

  lemma {:induction false} SmallCap(cap: nat)
    requires 0 < cap < 24
    ensures var n, total := 4 * cap + 4, cap + 1;
            && HeadChars(n, total, cap) == Max(1, 24 * cap / 10)
            && TailChars(n, total, cap) == cap
  {
    var total := cap + 1;
    var n := 4 * cap + 4;
    assert n * cap * 6 == (24 * cap) * total;
    assert n * cap == (4 * cap) * total;
    Exact(24 * cap, total, 10);
    Exact(4 * cap, total, 4);
  }

  // ---------- the window ----------

  datatype Message = Message(role: string, content: string)

  const MAX_FETCH_MESSAGES: nat := 60

  function Trim(estimate: string -> nat, m: Message, cap: int): Message {
    m.(content := TruncateMiddle(estimate, m.content, cap))
  }

  /** What one message adds to the prompt. */
  function Cost(estimate: string -> nat, m: Message, cap: int): nat {
    estimate(Trim(estimate, m, cap).content) + 4
  }

  function CostOf(estimate: string -> nat, cap: int): Message -> nat {
    m => Cost(estimate, m, cap)
  }

  function Total(cost: Message -> nat, rows: seq<Message>): nat {
    if rows == [] then 0 else Total(cost, rows[..|rows| - 1]) + cost(rows[|rows| - 1])
  }

  function Trimmed(estimate: string -> nat, rows: seq<Message>, cap: int): (r: seq<Message>)
    ensures |r| == |rows|
  {
    if rows == [] then []
    else Trimmed(estimate, rows[..|rows| - 1], cap) + [Trim(estimate, rows[|rows| - 1], cap)]
  }

  function Reverse<T>(s: seq<T>): seq<T> {
    seq(|s|, i requires 0 <= i < |s| => s[|s| - 1 - i])
  }

  /** The same role, and the text cut to the cap. */
  predicate IsCutFrom(estimate: string -> nat, cut: Message, m: Message, cap: int) {
    cut.role == m.role && cut.content == TruncateMiddle(estimate, m.content, cap)
  }

  lemma {:induction false} TrimmedAt(estimate: string -> nat, rows: seq<Message>, cap: int, i: nat)
    requires i < |rows|
    ensures IsCutFrom(estimate, Trimmed(estimate, rows, cap)[i], rows[i], cap)
  {
    if i < |rows| - 1 {
      TrimmedAt(estimate, rows[..|rows| - 1], cap, i);
    }
  }

  /** What a run of messages adds is the sum of what its parts add: its text, once cut, and four. */
  lemma {:induction false} TotalIsSum(estimate: string -> nat, a: seq<Message>, m: Message, b: seq<Message>, cap: int)
    ensures var cost := CostOf(estimate, cap);
      Total(cost, a + [m] + b) ==
        Total(cost, a) + (estimate(TruncateMiddle(estimate, m.content, cap)) + 4) + Total(cost, b)
  {
    var cost := CostOf(estimate, cap);
    if b == [] {
      assert a + [m] + b == a + [m] && (a + [m])[..|a|] == a;
    } else {
      var n := |b| - 1;
      assert (a + [m] + b)[..|a + [m] + b| - 1] == a + [m] + b[..n];
      TotalIsSum(estimate, a, m, b[..n], cap);
    }
  }

  lemma {:induction false} OneMore(estimate: string -> nat, rows: seq<Message>, k: nat, cap: int)
    requires k < |rows|
    ensures Total(CostOf(estimate, cap), rows[..k + 1]) ==
            Total(CostOf(estimate, cap), rows[..k]) + Cost(estimate, rows[k], cap)
    ensures Trimmed(estimate, rows[..k + 1], cap) == Trimmed(estimate, rows[..k], cap) + [Trim(estimate, rows[k], cap)]
  {
    assert rows[..k + 1][..k] == rows[..k];
  }

  /** A missing or zero setting means the default. */
  function OrDefault(given: Option<int>, default: int): int {
    if given.None? || given.value == 0 then default else given.value
  }

  /** The selection loop, over what was fetched. */
  method SelectNewest(estimate: string -> nat, rows: seq<Message>, budget: int, cap: int)
      returns (chosen: seq<Message>, kept: nat)
    ensures kept <= |rows| && (rows != [] ==> kept >= 1)
    ensures chosen == Trimmed(estimate, rows[..kept], cap)
    ensures kept > 1 ==> Total(CostOf(estimate, cap), rows[..kept]) <= budget
    ensures kept < |rows| ==> Total(CostOf(estimate, cap), rows[..kept + 1]) > budget
  {
    chosen, kept := [], 0;
    var used := 0;
    while kept < |rows|
      invariant kept <= |rows| && chosen == Trimmed(estimate, rows[..kept], cap)
      invariant used == Total(CostOf(estimate, cap), rows[..kept])
      invariant kept > 1 ==> used <= budget
    {
      var trimmed := Trim(estimate, rows[kept], cap);
      var cost := estimate(trimmed.content) + 4;
      if chosen != [] && used + cost > budget {
        break;
      }
      OneMore(estimate, rows, kept, cap);
      chosen := chosen + [trimmed];
      used := used + cost;
      kept := kept + 1;
      if used >= budget {
        break;
      }
    }
    if kept < |rows| {
      OneMore(estimate, rows, kept, cap);
    }
  }

  lemma {:induction false} CostGrows(cost: Message -> nat, rows: seq<Message>, a: nat, b: nat)
    requires a <= b <= |rows| && forall m :: cost(m) > 0
    ensures Total(cost, rows[..a]) + (b - a) <= Total(cost, rows[..b])
    decreases b
  {
    if a < b {
      CostGrows(cost, rows, a, b - 1);
      assert rows[..b][..b - 1] == rows[..b - 1];
    }
  }

  /** The contract of the window fixes its size: no larger run of newest messages fits, and
      every smaller one does. */
  lemma {:induction false} WindowIsLargest(cost: Message -> nat, rows: seq<Message>, budget: int, kept: nat, k: nat)
    requires forall m :: cost(m) > 0
    requires kept <= |rows| && 1 < k <= |rows| && (rows != [] ==> kept >= 1)
    requires kept > 1 ==> Total(cost, rows[..kept]) <= budget
    requires kept < |rows| ==> Total(cost, rows[..kept + 1]) > budget
    ensures Total(cost, rows[..k]) <= budget <==> k <= kept
  {
    if k <= kept {
      CostGrows(cost, rows, k, kept);
    } else {
      CostGrows(cost, rows, kept + 1, k);
    }
  }

  /** Oldest first, the longest run of the newest 60 messages that fits the budget, or the single newest
      one; each with its role and its text cut to the cap. `newest` are all messages, newest first. */
  predicate IsWindow(estimate: string -> nat, newest: seq<Message>, budget: int, cap: int, selected: seq<Message>,
                     kept: nat)
  {
    && kept <= |newest| && kept <= 60 && |selected| == kept
    && (forall i :: 0 <= i < kept ==> IsCutFrom(estimate, selected[i], newest[kept - 1 - i], cap))
    && (newest != [] ==> kept >= 1)
    && IsLargest(CostOf(estimate, cap), newest, budget, kept)
  }

  method BuildMemoryContext(estimate: string -> nat, newest: seq<Message>, budgetGiven: Option<int>, budgetDefault: int,
                            capGiven: Option<int>, capDefault: int)
      returns (selected: seq<Message>, kept: nat)
    ensures IsWindow(estimate, newest,
                     if budgetGiven == None || budgetGiven == Some(0) then budgetDefault else budgetGiven.value,
                     if capGiven == None || capGiven == Some(0) then capDefault else capGiven.value,
                     selected, kept)
  {
    var budget := OrDefault(budgetGiven, budgetDefault);
    var cap := OrDefault(capGiven, capDefault);
    var rows := newest[..Min(|newest|, MAX_FETCH_MESSAGES)];
    var chosen;
    chosen, kept := SelectNewest(estimate, rows, budget, cap);
    selected := Reverse(chosen);
    SelectionIsWindow(estimate, newest, budget, cap, selected, kept);
  }

  lemma SelectionIsWindow(estimate: string -> nat, newest: seq<Message>, budget: int, cap: int,
                          selected: seq<Message>, kept: nat)
    requires var rows, cost := newest[..Min(|newest|, 60)], CostOf(estimate, cap);
      && kept <= |rows| && (rows != [] ==> kept >= 1)
      && selected == Reverse(Trimmed(estimate, rows[..kept], cap))
      && (kept > 1 ==> Total(cost, rows[..kept]) <= budget)
      && (kept < |rows| ==> Total(cost, rows[..kept + 1]) > budget)
    ensures IsWindow(estimate, newest, budget, cap, selected, kept)
  {
    var rows := newest[..Min(|newest|, 60)];
    assert rows[..kept] == newest[..kept];
    CutsAre(estimate, newest[..kept], cap, selected);
    WindowOf(CostOf(estimate, cap), newest, rows, budget, kept);
  }

  lemma CutsAre(estimate: string -> nat, rows: seq<Message>, cap: int, selected: seq<Message>)
    requires selected == Reverse(Trimmed(estimate, rows, cap))
    ensures |selected| == |rows|
    ensures forall i :: 0 <= i < |rows| ==> IsCutFrom(estimate, selected[i], rows[|rows| - 1 - i], cap)
  {
    forall i | 0 <= i < |rows| ensures IsCutFrom(estimate, selected[i], rows[|rows| - 1 - i], cap) {
      TrimmedAt(estimate, rows, cap, |rows| - 1 - i);
    }
  }

  /** Of the newest 60 messages exactly the runs that are no longer fit the budget. */
  predicate IsLargest(cost: Message -> nat, newest: seq<Message>, budget: int, kept: nat) {
    forall k :: 1 < k <= Min(|newest|, 60) ==> (Total(cost, newest[..k]) <= budget <==> k <= kept)
  }

  lemma WindowOf(cost: Message -> nat, newest: seq<Message>, rows: seq<Message>, budget: int, kept: nat)
    requires forall m :: cost(m) > 0
    requires rows == newest[..Min(|newest|, 60)] && kept <= |rows| && (rows != [] ==> kept >= 1)
    requires kept > 1 ==> Total(cost, rows[..kept]) <= budget
    requires kept < |rows| ==> Total(cost, rows[..kept + 1]) > budget
    ensures IsLargest(cost, newest, budget, kept)
  {
    forall k | 1 < k <= |rows| ensures Total(cost, newest[..k]) <= budget <==> k <= kept {
      assert rows[..k] == newest[..k];
      WindowIsLargest(cost, rows, budget, kept, k);
    }
  }
}
