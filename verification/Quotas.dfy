/** Cloud quota requests: the AWS request that is not opened twice, and the GCP preference whose
    name does not depend on the order of its dimensions. */
module Quotas {
  import opened JsonMerge
  import C = Commands
  import G = SlackGrammar

  /** What `float` returns for a text that is a number, infinity or "nan". */
  datatype Float = Number(value: real) | PosInf | NegInf | NaN

  /** The IEEE comparison: never true of a NaN. */
  predicate AtMost(a: Float, b: Float) {
    && !a.NaN? && !b.NaN?
    && (a.NegInf? || b.PosInf? || (a.Number? && b.Number? && a.value <= b.value))
  }

  predicate Exceeds(a: Float, b: Float) {
    AtMost(b, a) && a != b
  }

  /** The comparison in figures: numbers by their value, infinities at the ends, a NaN nowhere. */
  lemma AtMostIff(a: Float, b: Float)
    ensures AtMost(a, b) <==>
      match (a, b)
      case (NaN, _) => false
      case (_, NaN) => false
      case (Number(x), Number(y)) => x <= y
      case (NegInf, _) => true
      case (_, PosInf) => true
      case _ => false
    ensures Exceeds(b, a) <==> AtMost(a, b) && !AtMost(b, a)
  {
  }

  // ---------------------------------------------------------------- AWS

  datatype Status = Pending | CaseOpened | Closed

  datatype Request = Request(desired: Float, status: Status)

  predicate Open(r: Request) {
    !r.status.Closed?
  }

  predicate Covers(r: Request, desired: Float) {
    Open(r) && AtMost(desired, r.desired)
  }

  /** Whether a command reaches the provider: the value is not already granted, and no open
      request covers it. */
  predicate Submits(current: Float, history: seq<Request>, desired: Float) {
    !AtMost(desired, current) && forall i | 0 <= i < |history| :: !Covers(history[i], desired)
  }

  datatype Answer = TooLow | AlreadyPending(index: nat) | Submitted | Rejected

  /** One quota of one service in one region, as the provider keeps it. */
  class AwsQuota {
    var current: Float
    var history: seq<Request>

    constructor (current: Float, history: seq<Request>)
      ensures this.current == current && this.history == history
    {
      this.current, this.history := current, history;
    }

    /** `raised` and `tookEffect` say how the provider's request call ends. */
    method Ask(desired: Float, raised: bool, tookEffect: bool) returns (answer: Answer)
      modifies this`history
      ensures history == old(history) +
                (if Submits(current, old(history), desired) && (!raised || tookEffect)
                 then [Request(desired, Pending)] else [])
      ensures answer.TooLow? <==> AtMost(desired, current)
      ensures answer.Submitted? || answer.Rejected? ==>
        forall i | 0 <= i < |old(history)| && old(history)[i].status in {Pending, CaseOpened} ::
          !AtMost(desired, old(history)[i].desired)
      ensures answer.AlreadyPending? ==>
        answer.index < |history| && history[answer.index].status in {Pending, CaseOpened}
        && AtMost(desired, history[answer.index].desired)
      ensures answer.AlreadyPending? ==>
        && answer.index < |history| && Covers(history[answer.index], desired)
        && forall i | 0 <= i < answer.index :: !Covers(history[i], desired)
      ensures answer.Submitted? || answer.Rejected? <==> Submits(current, old(history), desired)
      ensures answer.Rejected? ==> raised
    {
      if AtMost(desired, current) {
        return TooLow;
      }
      var i := 0;
      while i < |history| && !Covers(history[i], desired)
        invariant i <= |history|
        invariant forall j | 0 <= j < i :: !Covers(history[j], desired)
      {
        i := i + 1;
      }
      if i < |history| {
        return AlreadyPending(i);
      }
      if !raised || tookEffect {
        history := history + [Request(desired, Pending)];
      }
      answer := if raised then Rejected else Submitted;
    }
  }

  /** The same quota as a value, with the requests opened from here. */
  datatype Quota = Quota(current: Float, history: seq<Request>, ours: set<nat>)

  /** Commands, requests opened elsewhere, and what the provider does. */
  datatype Step =
    | Command(desired: Float, reached: bool)
    | Elsewhere(desired: Float)
    | Move(index: nat, status: Status)
    | Grant(current: Float)

  /** A closed request stays closed. */
  predicate Enabled(q: Quota, step: Step) {
    step.Move? ==> step.index < |q.history| && Open(q.history[step.index])
  }

  function Next(q: Quota, step: Step): Quota
    requires Enabled(q, step)
  {
    match step
    case Command(desired, reached) =>
      if Submits(q.current, q.history, desired) && reached
      then q.(history := q.history + [Request(desired, Pending)], ours := q.ours + {|q.history|}) else q
    case Elsewhere(desired) => q.(history := q.history + [Request(desired, Pending)])
    case Move(i, status) => q.(history := q.history[i := q.history[i].(status := status)])
    case Grant(current) => q.(current := current)
  }

  predicate Runs(q: Quota, steps: seq<Step>)
    decreases |steps|
  {
    steps != [] ==> Enabled(q, steps[0]) && Runs(Next(q, steps[0]), steps[1..])
  }

  function After(q: Quota, steps: seq<Step>): Quota
    requires Runs(q, steps)
    decreases |steps|
  {
    if steps == [] then q else After(Next(q, steps[0]), steps[1..])
  }

  /** No open request from here is covered by an older open one. */
  predicate NoneCovered(q: Quota) {
    && (forall i | i in q.ours :: i < |q.history|)
    && forall i, j | 0 <= i < j < |q.history| && j in q.ours && Open(q.history[j]) ::
         !Covers(q.history[i], q.history[j].desired)
  }

  lemma {:induction false} RunKeeps(q: Quota, steps: seq<Step>)
    requires NoneCovered(q) && Runs(q, steps)
    ensures NoneCovered(After(q, steps))
    decreases |steps|
  {
    if steps != [] {
      RunKeeps(Next(q, steps[0]), steps[1..]);
    }
  }

  /** In every run: an open request made here strictly exceeds every open request before it,
      as long as neither is a NaN. */
  lemma OpenRequestsIncrease(q: Quota, steps: seq<Step>, i: nat, j: nat)
    requires q.ours == {} && Runs(q, steps)
    requires i < j < |After(q, steps).history| && j in After(q, steps).ours
    requires Open(After(q, steps).history[i]) && Open(After(q, steps).history[j])
    ensures var (a, b) := (After(q, steps).history[i].desired, After(q, steps).history[j].desired);
      Exceeds(b, a) <==> !a.NaN? && !b.NaN?
  {
    RunKeeps(q, steps);
    var t := After(q, steps);
    assert !Covers(t.history[i], t.history[j].desired);
  }

  /** A run keeps every request and its value. */
  lemma {:induction false} HistoryGrows(q: Quota, steps: seq<Step>, n: nat)
    requires Runs(q, steps) && n < |q.history|
    ensures n < |After(q, steps).history| && After(q, steps).history[n].desired == q.history[n].desired
    decreases |steps|
  {
    if steps != [] {
      HistoryGrows(Next(q, steps[0]), steps[1..], n);
    }
  }

  /** A command opens a request; whatever happens then, the same command opens a second one while
      the first is open exactly when its value is "nan". */
  lemma RepeatOpensIff(q: Quota, desired: Float, steps: seq<Step>)
    requires Submits(q.current, q.history, desired)
    requires Runs(Next(q, Command(desired, true)), steps)
    requires var t := After(Next(q, Command(desired, true)), steps);
      |q.history| < |t.history| && Open(t.history[|q.history|])
    ensures var t := After(Next(q, Command(desired, true)), steps);
      Submits(t.current, t.history, desired) <==> desired.NaN?
  {
    var n := |q.history|;
    HistoryGrows(Next(q, Command(desired, true)), steps, n);
    var t := After(Next(q, Command(desired, true)), steps);
    assert AtMost(desired, desired) <==> !desired.NaN?;
    assert Covers(t.history[n], desired) <==> !desired.NaN?;
  }

  // ---------------------------------------------------------------- GCP dimensions

  type Dimension = (string, string)

  predicate TextLe(a: string, b: string) {
    if a == "" then true
    else if b == "" then false
    else if a[0] == b[0] then TextLe(a[1..], b[1..])
    else a[0] < b[0]
  }

  /** Tuples compare by the key, then by the value. */
  predicate Le(a: Dimension, b: Dimension) {
    if a.0 == b.0 then TextLe(a.1, b.1) else TextLe(a.0, b.0)
  }

  lemma {:induction false} TextOrder(a: string, b: string)
    ensures TextLe(a, b) || TextLe(b, a)
    ensures TextLe(a, b) && TextLe(b, a) ==> a == b
  {
    if a != "" && b != "" && a[0] == b[0] {
      TextOrder(a[1..], b[1..]);
      assert a == [a[0]] + a[1..] && b == [b[0]] + b[1..];
    }
  }

  lemma {:induction false} TextTransitive(a: string, b: string, c: string)
    requires TextLe(a, b) && TextLe(b, c)
    ensures TextLe(a, c)
  {
    if a != "" && b != "" && c != "" && a[0] == b[0] == c[0] {
      TextTransitive(a[1..], b[1..], c[1..]);
    }
  }

  lemma Order(a: Dimension, b: Dimension)
    ensures Le(a, b) || Le(b, a)
    ensures Le(a, b) && Le(b, a) ==> a == b
  {
    TextOrder(a.0, b.0);
    TextOrder(a.1, b.1);
  }

  lemma Transitive(a: Dimension, b: Dimension, c: Dimension)
    requires Le(a, b) && Le(b, c)
    ensures Le(a, c)
  {
    if a.0 == b.0 == c.0 {
      TextTransitive(a.1, b.1, c.1);
    } else {
      TextOrder(a.0, b.0);
      TextOrder(b.0, c.0);
      if a.0 != b.0 && b.0 != c.0 {
        TextTransitive(a.0, b.0, c.0);
      }
    }
  }

  predicate Ordered(s: seq<Dimension>) {
    forall i, j | 0 <= i < j < |s| :: Le(s[i], s[j])
  }

  function Insert(d: Dimension, s: seq<Dimension>): (r: seq<Dimension>)
    ensures multiset(r) == multiset{d} + multiset(s)
  {
    if s == [] then [d]
    else if Le(d, s[0]) then [d] + s
    else
      assert s == [s[0]] + s[1..];
      [s[0]] + Insert(d, s[1..])
  }

  /** The sorted list the parser keeps. */
  function Sorted(s: seq<Dimension>): (r: seq<Dimension>)
    ensures multiset(r) == multiset(s)
  {
    if s == [] then []
    else
      assert s == [s[0]] + s[1..];
      Insert(s[0], Sorted(s[1..]))
  }

  lemma {:induction false} InsertOrdered(d: Dimension, s: seq<Dimension>)
    requires Ordered(s)
    ensures Ordered(Insert(d, s))
  {
    if s != [] {
      Order(d, s[0]);
      if Le(d, s[0]) {
        forall j | 0 <= j < |s| ensures Le(d, s[j]) {
          if j > 0 {
            Transitive(d, s[0], s[j]);
          }
        }
      } else {
        InsertOrdered(d, s[1..]);
        var rest := Insert(d, s[1..]);
        forall j | 0 <= j < |rest| ensures Le(s[0], rest[j]) {
          assert rest[j] in multiset(rest);
          assert rest[j] == d || rest[j] in s[1..];
        }
      }
    }
  }

  lemma {:induction false} SortedOrdered(s: seq<Dimension>)
    ensures Ordered(Sorted(s))
  {
    if s != [] {
      SortedOrdered(s[1..]);
      InsertOrdered(s[0], Sorted(s[1..]));
    }
  }

  lemma RestOf<T>(s: seq<T>)
    requires s != []
    ensures multiset(s[1..]) == multiset(s) - multiset{s[0]}
  {
    assert s == [s[0]] + s[1..];
  }

  lemma SameFirst(a: seq<Dimension>, b: seq<Dimension>)
    requires Ordered(a) && Ordered(b) && a != [] && b != [] && a[0] in b && b[0] in a
    ensures a[0] == b[0]
  {
    var i :| 0 <= i < |b| && b[i] == a[0];
    var j :| 0 <= j < |a| && a[j] == b[0];
    if i > 0 && j > 0 {
      assert Le(b[0], b[i]) && Le(a[0], a[j]);
      Order(a[0], b[0]);
    }
  }

  lemma {:induction false} OrderedUnique(a: seq<Dimension>, b: seq<Dimension>)
    requires Ordered(a) && Ordered(b) && multiset(a) == multiset(b)
    ensures a == b
  {
    assert |a| == |multiset(a)| == |multiset(b)| == |b|;
    if a != [] {
      assert a[0] in b by {
        assert a[0] in multiset(b);
      }
      assert b[0] in a by {
        assert b[0] in multiset(a);
      }
      SameFirst(a, b);
      RestOf(a);
      RestOf(b);
      assert Ordered(a[1..]) && Ordered(b[1..]);
      OrderedUnique(a[1..], b[1..]);
      assert a == [a[0]] + a[1..] && b == [b[0]] + b[1..];
    }
  }

  /** `key=value`, split at the first `=`, neither side empty. */
  function ParseDimension(item: string): Option<Dimension> {
    var i := C.IndexOf(item, '=');
    if i == |item| || i == 0 || i + 1 == |item| then None else Some((item[..i], item[i + 1..]))
  }

  /** Exactly the arguments of the form key=value, with the key up to the first equals sign. */
  lemma ParseDimensionIff(item: string, d: Dimension)
    ensures ParseDimension(item) == Some(d) <==> item == d.0 + "=" + d.1 && d.0 != "" && d.1 != "" && '=' !in d.0
  {
    var i := C.IndexOf(item, '=');
    if ParseDimension(item) == Some(d) {
      assert item == item[..i] + "=" + item[i + 1..];
    }
    if item == d.0 + "=" + d.1 && d.0 != "" && d.1 != "" && '=' !in d.0 {
      C.SplitAtFirst(d.0, d.1, '=');
      assert item == d.0 + ['='] + d.1;
    }
  }

  predicate AllParse(items: seq<string>) {
    forall i | 0 <= i < |items| :: ParseDimension(items[i]).Some?
  }

  function Parsed(items: seq<string>): (r: seq<Dimension>)
    requires AllParse(items)
    ensures |r| == |items|
  {
    seq(|items|, i requires 0 <= i < |items| => ParseDimension(items[i]).value)
  }

  /** The parser's loop: it stops at the first argument that is no `key=value`. */
  method ParseDimensions(items: seq<string>) returns (r: Option<seq<Dimension>>)
    ensures r.Some? <==> AllParse(items)
    ensures r.Some? ==> Ordered(r.value) && multiset(r.value) == multiset(Parsed(items))
  {
    var parsed := [];
    for n := 0 to |items|
      invariant AllParse(items[..n]) && parsed == Parsed(items[..n])
    {
      var d := ParseDimension(items[n]);
      if d.None? {
        return None;
      }
      assert items[..n + 1] == items[..n] + [items[n]];
      parsed := parsed + [d.value];
    }
    assert items[..|items|] == items;
    SortedOrdered(parsed);
    return Some(Sorted(parsed));
  }

  lemma Without<T>(s: seq<T>, i: nat)
    requires i < |s|
    ensures multiset(s[..i] + s[i + 1..]) == multiset(s) - multiset{s[i]}
  {
    assert s == s[..i] + [s[i]] + s[i + 1..];
  }

  lemma ParsedWithout(items: seq<string>, i: nat)
    requires AllParse(items) && i < |items|
    ensures AllParse(items[..i] + items[i + 1..])
    ensures multiset(Parsed(items[..i] + items[i + 1..])) == multiset(Parsed(items)) - multiset{Parsed(items)[i]}
  {
    Without(Parsed(items), i);
    assert Parsed(items[..i] + items[i + 1..]) == Parsed(items)[..i] + Parsed(items)[i + 1..];
  }

  /** Permutations stay permutations when one item is dropped from both. */
  lemma DropSame(a: seq<string>, b: seq<string>) returns (i: nat)
    requires a != [] && multiset(a) == multiset(b)
    ensures i < |b| && b[i] == a[0] && multiset(a[..0] + a[1..]) == multiset(b[..i] + b[i + 1..])
  {
    assert a[0] in multiset(b);
    i :| 0 <= i < |b| && b[i] == a[0];
    Without(a, 0);
    Without(b, i);
  }

  lemma {:induction false} ParsedIgnoresOrder(a: seq<string>, b: seq<string>)
    requires AllParse(a) && AllParse(b) && multiset(a) == multiset(b)
    ensures multiset(Parsed(a)) == multiset(Parsed(b))
    decreases |a|
  {
    if a == [] {
      assert |b| == |multiset(b)| == 0;
      assert Parsed(a) == Parsed(b);
    } else {
      var i := DropSame(a, b);
      ParsedWithout(a, 0);
      ParsedWithout(b, i);
      ParsedIgnoresOrder(a[..0] + a[1..], b[..i] + b[i + 1..]);
      Restored(multiset(Parsed(a)), multiset(Parsed(b)), Parsed(a)[0]);
    }
  }

  lemma Restored(a: multiset<Dimension>, b: multiset<Dimension>, d: Dimension)
    requires d in a && d in b && a - multiset{d} == b - multiset{d}
    ensures a == b
  {
    assert a == a - multiset{d} + multiset{d};
    assert b == b - multiset{d} + multiset{d};
  }

  datatype GcpCommand = GcpCommand(project: string, service: string, quota: string, desired: Float,
                                   dimensions: seq<Dimension>, confirmed: bool)

  predicate Digits(s: string) {
    s != "" && forall i | 0 <= i < |s| :: '0' <= s[i] <= '9'
  }

  lemma DigitIff(d: char)
    ensures '0' <= d <= '9' <==> d in "0123456789"
  {
    if '0' <= d <= '9' {
      assert "0123456789"[d as int - '0' as int] == d;
    }
  }

  lemma DigitsIff(s: string)
    ensures Digits(s) <==> s != "" && forall d | d in s :: d in "0123456789"
  {
    forall i | 0 <= i < |s| ensures '0' <= s[i] <= '9' <==> s[i] in "0123456789" {
      DigitIff(s[i]);
    }
    assert forall i | 0 <= i < |s| :: s[i] in s;
  }

  /** The command from its six leading words and its dimension arguments. */
  function GcpOf(number: string -> Option<Float>, head: seq<string>, items: seq<string>, confirmed: bool)
    : Option<GcpCommand>
    requires |head| == 6
  {
    var desired := number(head[5]);
    if G.Lower(head[1]) != "gcp" || !Digits(head[2]) || desired.None? || !AllParse(items)
       || AtMost(desired.value, Number(0.0)) then None
    else Some(GcpCommand(head[2], head[3], head[4], desired.value, Sorted(Parsed(items)), confirmed))
  }

  /** The words of a `quota gcp` message; `number` is `float`. */
  function ParseGcp(number: string -> Option<Float>, parts: seq<string>): Option<GcpCommand> {
    var confirmed := parts != [] && G.Lower(parts[|parts| - 1]) == "confirm";
    var words := if confirmed then parts[..|parts| - 1] else parts;
    if |words| < 6 then None else GcpOf(number, words[..6], words[6..], confirmed)
  }

  /** The text whose digest names the preference. */
  function Tail(dimensions: seq<Dimension>): string {
    if dimensions == [] then ""
    else ['|'] + (dimensions[0].0 + ['='] + dimensions[0].1) + Tail(dimensions[1..])
  }

  function DigestInput(c: GcpCommand): string {
    c.service + ['|'] + (c.quota + Tail(c.dimensions))
  }

  lemma GcpShape(number: string -> Option<Float>, head: seq<string>, items: seq<string>, tail: seq<string>)
    requires |head| == 6
    requires (|tail| == 1 && G.Lower(tail[0]) == "confirm")
          || (tail == [] && forall i | 0 <= i < |items| :: G.Lower(items[i]) != "confirm")
    requires tail == [] && items == [] ==> G.Lower(head[5]) != "confirm"
    ensures ParseGcp(number, head + items + tail) == GcpOf(number, head, items, tail != [])
  {
    var parts := head + items + tail;
    if tail == [] {
      assert parts == head + items;
      assert parts[..6] == head && parts[6..] == items;
      assert items != [] ==> parts[|parts| - 1] == items[|items| - 1];
    } else {
      assert parts[..|parts| - 1] == head + items;
      assert (head + items)[..6] == head && (head + items)[6..] == items;
    }
  }

  /** However the dimension arguments are ordered, the command is the same, and with it the name
      of the preference; the word "confirm" has to stay last. */
  lemma DimensionOrderIsIrrelevant(number: string -> Option<Float>, head: seq<string>,
                                   a: seq<string>, b: seq<string>, tail: seq<string>)
    requires |head| == 6 && multiset(a) == multiset(b)
    requires (|tail| == 1 && G.Lower(tail[0]) == "confirm")
          || (tail == [] && forall i | 0 <= i < |a| :: G.Lower(a[i]) != "confirm")
    requires tail == [] && a == [] ==> G.Lower(head[5]) != "confirm"
    ensures ParseGcp(number, head + a + tail) == ParseGcp(number, head + b + tail)
  {
    GcpShape(number, head, a, tail);
    assert |a| == |multiset(a)| == |multiset(b)| == |b|;
    forall i | 0 <= i < |b|
      ensures b[i] in a
    {
      assert b[i] in multiset(a);
    }
    forall i | 0 <= i < |a|
      ensures a[i] in b
    {
      assert a[i] in multiset(b);
    }
    GcpShape(number, head, b, tail);
    assert AllParse(a) <==> AllParse(b);
    if AllParse(a) {
      ParsedIgnoresOrder(a, b);
      SortedOrdered(Parsed(a));
      SortedOrdered(Parsed(b));
      OrderedUnique(Sorted(Parsed(a)), Sorted(Parsed(b)));
    }
  }

  function PrintDimension(d: Dimension): string {
    d.0 + ['='] + d.1
  }

  function PrintDimensions(ds: seq<Dimension>): seq<string> {
    seq(|ds|, i requires 0 <= i < |ds| => PrintDimension(ds[i]))
  }

  predicate Printable(d: Dimension) {
    d.0 != "" && d.1 != "" && '=' !in d.0
  }

  lemma DimensionRoundTrip(d: Dimension)
    requires Printable(d)
    ensures ParseDimension(PrintDimension(d)) == Some(d) && G.Lower(PrintDimension(d)) != "confirm"
  {
    C.SplitAtFirst(d.0, d.1, '=');
    assert G.Lower(PrintDimension(d))[|d.0|] == '=';
  }

  lemma DimensionsRoundTrip(ds: seq<Dimension>)
    requires Ordered(ds) && forall i | 0 <= i < |ds| :: Printable(ds[i])
    ensures var items := PrintDimensions(ds);
      && AllParse(items) && Sorted(Parsed(items)) == ds
      && forall i | 0 <= i < |items| :: G.Lower(items[i]) != "confirm"
  {
    var items := PrintDimensions(ds);
    forall i | 0 <= i < |ds|
      ensures ParseDimension(items[i]) == Some(ds[i]) && G.Lower(items[i]) != "confirm"
    {
      DimensionRoundTrip(ds[i]);
    }
    assert Parsed(items) == ds;
    SortedOrdered(ds);
    OrderedUnique(Sorted(ds), ds);
  }

  /** Printing a command with sorted dimensions and parsing it gives it back exactly when the
      project is a number and the value is not known to be at most zero, which lets "nan" through. */
  lemma GcpRoundTripIff(number: string -> Option<Float>, c: GcpCommand, head: seq<string>, tail: seq<string>)
    requires |head| == 6 && head[1] == "gcp" && head[2] == c.project && head[3] == c.service && head[4] == c.quota
    requires number(head[5]) == Some(c.desired) && G.Lower(head[5]) != "confirm"
    requires if c.confirmed then |tail| == 1 && G.Lower(tail[0]) == "confirm" else tail == []
    requires Ordered(c.dimensions) && forall i | 0 <= i < |c.dimensions| :: Printable(c.dimensions[i])
    ensures ParseGcp(number, head + PrintDimensions(c.dimensions) + tail)
         == if c.project != "" && (forall d | d in c.project :: d in "0123456789") && !AtMost(c.desired, Number(0.0))
            then Some(c) else None
  {
    DigitsIff(c.project);
    var items := PrintDimensions(c.dimensions);
    DimensionsRoundTrip(c.dimensions);
    GcpShape(number, head, items, tail);
    HeadRoundTrip(number, c, head, items);
  }

  lemma HeadRoundTrip(number: string -> Option<Float>, c: GcpCommand, head: seq<string>, items: seq<string>)
    requires |head| == 6 && head[1] == "gcp" && head[2] == c.project && head[3] == c.service && head[4] == c.quota
    requires number(head[5]) == Some(c.desired) && AllParse(items) && Sorted(Parsed(items)) == c.dimensions
    ensures GcpOf(number, head, items, c.confirmed)
         == if Digits(c.project) && !AtMost(c.desired, Number(0.0)) then Some(c) else None
  {
    G.LowerWordIsPlain("gcp");
  }

  predicate Barless(c: GcpCommand) {
    && '|' !in c.service && '|' !in c.quota
    && forall i | 0 <= i < |c.dimensions| ::
         '|' !in c.dimensions[i].0 && '|' !in c.dimensions[i].1 && '=' !in c.dimensions[i].0
  }

  lemma TailHasBar(x: string, a: seq<Dimension>, y: string)
    requires a != [] && '|' !in y
    ensures x + Tail(a) != y + Tail([])
  {
    assert (x + Tail(a))[|x|] == '|';
    assert y + Tail([]) == y;
  }

  lemma {:induction false} TailUnique(x: string, a: seq<Dimension>, y: string, b: seq<Dimension>)
    requires x + Tail(a) == y + Tail(b) && '|' !in x && '|' !in y
    requires forall i | 0 <= i < |a| :: '|' !in a[i].0 && '|' !in a[i].1 && '=' !in a[i].0
    requires forall i | 0 <= i < |b| :: '|' !in b[i].0 && '|' !in b[i].1 && '=' !in b[i].0
    ensures x == y && a == b
    decreases |a| + |b|
  {
    if a != [] && b != [] {
      var p, q := a[0].0 + ['='] + a[0].1, b[0].0 + ['='] + b[0].1;
      assert x + Tail(a) == x + ['|'] + (p + Tail(a[1..]));
      assert y + Tail(b) == y + ['|'] + (q + Tail(b[1..]));
      C.SplitUnique(x, p + Tail(a[1..]), y, q + Tail(b[1..]), '|');
      TailUnique(p, a[1..], q, b[1..]);
      C.SplitUnique(a[0].0, a[0].1, b[0].0, b[0].1, '=');
      assert a == [a[0]] + a[1..] && b == [b[0]] + b[1..];
    } else if a != [] {
      TailHasBar(x, a, y);
    } else if b != [] {
      TailHasBar(y, b, x);
    } else {
      assert x + "" == x && y + "" == y;
    }
  }

  /** Two commands without a `|` have the same digest text only for the same target. */
  lemma DigestNamesTarget(c: GcpCommand, d: GcpCommand)
    requires Barless(c) && Barless(d) && DigestInput(c) == DigestInput(d)
    ensures c.service == d.service && c.quota == d.quota && c.dimensions == d.dimensions
  {
    C.SplitUnique(c.service, c.quota + Tail(c.dimensions), d.service, d.quota + Tail(d.dimensions), '|');
    TailUnique(c.quota, c.dimensions, d.quota, d.dimensions);
  }

  predicate SameTarget(c: GcpCommand, d: GcpCommand) {
    c.service == d.service && c.quota == d.quota && c.dimensions == d.dimensions
  }

  /** A command as the parser can make it: sorted dimensions, each with a key and a value. */
  predicate Parseable(c: GcpCommand) {
    Ordered(c.dimensions) && forall i | 0 <= i < |c.dimensions| :: Printable(c.dimensions[i])
  }

  /** A command with dimensions has a rival that states them as part of the quota's name; one with
      a bar in the service or the quota has a rival that splits at another bar. */
  lemma Rival(c: GcpCommand) returns (d: GcpCommand)
    requires c.dimensions != [] || '|' in c.service || '|' in c.quota
    ensures Parseable(d) && d.project == c.project && !SameTarget(c, d) && DigestInput(d) == DigestInput(c)
  {
    if c.dimensions != [] {
      d := c.(quota := c.quota + Tail(c.dimensions), dimensions := []);
      assert d.quota + Tail([]) == d.quota;
    } else if '|' in c.service {
      var i :| 0 <= i < |c.service| && c.service[i] == '|';
      d := c.(service := c.service[..i], quota := c.service[i + 1..] + ['|'] + c.quota);
      assert c.service == c.service[..i] + ['|'] + c.service[i + 1..];
      assert d.service + ['|'] + (d.quota + "") == c.service + ['|'] + (c.quota + "");
    } else {
      var i :| 0 <= i < |c.quota| && c.quota[i] == '|';
      d := c.(service := c.service + ['|'] + c.quota[..i], quota := c.quota[i + 1..]);
      assert c.quota == c.quota[..i] + ['|'] + c.quota[i + 1..];
      assert d.service + ['|'] + (d.quota + "") == c.service + ['|'] + (c.quota + "");
    }
  }

  lemma NoRival(c: GcpCommand, d: GcpCommand)
    requires c.dimensions == [] && '|' !in c.service && '|' !in c.quota && DigestInput(d) == DigestInput(c)
    ensures SameTarget(c, d)
  {
    assert c.quota + Tail([]) == c.quota;
    var i := C.IndexOf(d.service, '|');
    if i < |d.service| {
      var rest := d.service[i + 1..] + ['|'] + (d.quota + Tail(d.dimensions));
      assert rest[|d.service| - i - 1] == '|';
      assert DigestInput(d) == d.service[..i] + ['|'] + rest;
      C.SplitUnique(c.service, c.quota, d.service[..i], rest, '|');
    } else {
      if d.dimensions != [] {
        TailHasBar(d.quota, d.dimensions, c.quota);
      }
      assert d.quota + Tail([]) == d.quota;
      C.SplitUnique(c.service, c.quota, d.service, d.quota + Tail(d.dimensions), '|');
    }
  }

  /** The name of a preference belongs to one target exactly when the command has no dimensions and
      no bar in the service or the quota: every other command shares it with another target. */
  lemma NameIsUniqueIff(c: GcpCommand)
    ensures (forall d | Parseable(d) && DigestInput(d) == DigestInput(c) :: SameTarget(c, d))
       <==> c.dimensions == [] && '|' !in c.service && '|' !in c.quota
  {
    if c.dimensions == [] && '|' !in c.service && '|' !in c.quota {
      forall d | Parseable(d) && DigestInput(d) == DigestInput(c)
        ensures SameTarget(c, d)
      {
        NoRival(c, d);
      }
    } else {
      var d := Rival(c);
    }
  }
}
