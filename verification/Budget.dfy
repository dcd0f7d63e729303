/** Accounting of one requirement's model calls (apps/server/src/budget.rs). */
module Budget {
  import opened Options

  const MAX: int := 0x7fff_ffff_ffff_ffff

  /** i64::checked_add of two amounts that are not negative. */
  function CheckedSum(a: int, b: int): Option<int> { if a + b <= MAX then Some(a + b) else None }

  datatype Dimension = Tokens | Turns | Seconds

  datatype Amount = Amount(tokens: int, turns: int, seconds: int) {
    function At(d: Dimension): int {
      match d case Tokens => tokens case Turns => turns case Seconds => seconds
    }

    predicate Positive() { tokens > 0 && turns > 0 && seconds > 0 }

    predicate NonNegative() { tokens >= 0 && turns >= 0 && seconds >= 0 }

    predicate Bounded() { NonNegative() && tokens <= MAX && turns <= MAX && seconds <= MAX }

    predicate Fits(limit: Amount) { tokens <= limit.tokens && turns <= limit.turns && seconds <= limit.seconds }

    /** A reserved final turn may still finish. */
    predicate ExecutionExhausted(limit: Amount) { tokens >= limit.tokens || turns > limit.turns || seconds >= limit.seconds }

    function Plus(other: Amount): Amount { Amount(tokens + other.tokens, turns + other.turns, seconds + other.seconds) }

    function CheckedAdd(other: Amount): Option<Amount> {
      if CheckedSum(tokens, other.tokens).Some? && CheckedSum(turns, other.turns).Some? && CheckedSum(seconds, other.seconds).Some?
      then Some(Plus(other)) else None
    }
  }

  const NOTHING := Amount(0, 0, 0)

  // ---------------------------------------------------------------- cumulative counters of one turn

  datatype Usage = Usage(input: Option<int>, cached: Option<int>, output: Option<int>, seconds: Option<int>, complete: bool) {
    predicate Valid() {
      Counter(input) && Counter(cached) && Counter(output) && Counter(seconds) &&
      (cached.Some? && input.Some? ==> cached.value <= input.value)
    }

    function Merge(incoming: Usage): Usage {
      Usage(Later(input, incoming.input), Later(cached, incoming.cached), Later(output, incoming.output),
            Later(seconds, incoming.seconds), complete || incoming.complete)
    }

    predicate Settled() { complete && input.Some? && output.Some? && seconds.Some? }

    predicate Observed() { complete || input.Some? || cached.Some? || output.Some? || seconds.Some? }

    /** actual() before its overflow check. */
    function Known(): Amount {
      Amount((if input.Some? then input.value else Or(cached, 0)) + Or(output, 0), if Observed() then 1 else 0, Or(seconds, 0))
    }

    function Actual(): Option<Amount> { if Known().tokens <= MAX then Some(Known()) else None }

    /** exposure() before its overflow check. */
    function Charged(reserved: Amount): Amount {
      if Settled() then Known()
      else Amount(Max(Known().tokens, reserved.tokens), 1, Max(Known().seconds, reserved.seconds))
    }

    function Exposure(reserved: Amount): Option<Amount> { if Actual().Some? then Some(Charged(reserved)) else None }
  }

  /** A counter that is absent or an i64 that is not negative. */
  predicate Counter(n: Option<int>) { n.Some? ==> 0 <= n.value <= MAX }

  function Max(a: int, b: int): int { if a >= b then a else b }

  function Or(n: Option<int>, default: int): int { if n.Some? then n.value else default }

  /** Ord::max of two optional counters; None is the least. */
  function Later(a: Option<int>, b: Option<int>): Option<int> {
    if a.None? then b else if b.None? then a else Some(Max(a.value, b.value))
  }

  const UNUSED := Usage(None, None, None, None, false)

  // ---------------------------------------------------------------- merge is a join

  predicate AtMost(a: Option<int>, b: Option<int>) { a.Some? ==> b.Some? && a.value <= b.value }

  /** v knows everything u knows, and no counter of it is smaller. */
  predicate Below(u: Usage, v: Usage) {
    AtMost(u.input, v.input) && AtMost(u.cached, v.cached) && AtMost(u.output, v.output) && AtMost(u.seconds, v.seconds) &&
    (u.complete ==> v.complete)
  }

  lemma LaterIsJoin(a: Option<int>, b: Option<int>, c: Option<int>)
    ensures Later(a, a) == a && Later(b, a) == Later(a, b) && Later(Later(a, b), c) == Later(a, Later(b, c))
    ensures AtMost(a, Later(a, b)) && AtMost(b, Later(a, b)) && (AtMost(a, c) && AtMost(b, c) ==> AtMost(Later(a, b), c))
    ensures AtMost(a, b) <==> Later(a, b) == b
  {
  }

  /** Merging is idempotent, commutative and associative, and the least usage above both. */
  lemma MergeIsJoin(u: Usage, v: Usage, w: Usage)
    ensures u.Merge(u) == u && u.Merge(v) == v.Merge(u) && u.Merge(v).Merge(w) == u.Merge(v.Merge(w))
    ensures Below(u, u.Merge(v)) && Below(v, u.Merge(v))
    ensures Below(u, w) && Below(v, w) ==> Below(u.Merge(v), w)
    ensures Below(u, v) <==> u.Merge(v) == v
  {
    LaterIsJoin(u.input, v.input, w.input);
    LaterIsJoin(u.cached, v.cached, w.cached);
    LaterIsJoin(u.output, v.output, w.output);
    LaterIsJoin(u.seconds, v.seconds, w.seconds);
  }

  function JoinAll(u: Usage, events: seq<Usage>): Usage
    decreases |events|
  {
    if events == [] then u else JoinAll(u.Merge(events[0]), events[1..])
  }

  lemma {:induction false} JoinAllIsLeast(u: Usage, events: seq<Usage>, w: Usage)
    ensures Below(u, JoinAll(u, events)) && forall e :: e in events ==> Below(e, JoinAll(u, events))
    ensures Below(u, w) && (forall e :: e in events ==> Below(e, w)) ==> Below(JoinAll(u, events), w)
    decreases |events|
  {
    if events != [] {
      var next := u.Merge(events[0]);
      MergeIsJoin(u, events[0], w);
      JoinAllIsLeast(next, events[1..], w);
      assert events == [events[0]] + events[1..];
    }
  }

  /** Cumulative counters may arrive in any order, any number of times: the same reports give the same usage. */
  lemma OrderAndDuplicatesDoNotMatter(u: Usage, a: seq<Usage>, b: seq<Usage>)
    requires forall e :: e in a <==> e in b
    ensures JoinAll(u, a) == JoinAll(u, b)
  {
    JoinAllIsLeast(u, a, JoinAll(u, b));
    JoinAllIsLeast(u, b, JoinAll(u, a));
  }

  // ---------------------------------------------------------------- what a report may contain

  /** A report that counts cached input also counts input. */
  predicate CachedWithInput(u: Usage) { u.cached.Some? ==> u.input.Some? }

  lemma MergeKeepsValid(u: Usage, v: Usage)
    requires u.Valid() && v.Valid() && CachedWithInput(u) && CachedWithInput(v)
    ensures u.Merge(v).Valid() && CachedWithInput(u.Merge(v))
  {
  }

  /** Without the input beside it a cached count can contradict one that arrives later. */
  lemma CachedAloneMayConflict(u: Usage, v: Usage)
    requires u == Usage(None, Some(2), None, None, false) && v == Usage(Some(1), None, None, None, false)
    ensures u.Valid() && v.Valid() && !u.Merge(v).Valid()
  {
  }

  /** What is known merges with every report that counts input beside cached exactly when it does so
      itself, or counted no cached input at all. */
  lemma MergesExactly(u: Usage)
    requires u.Valid()
    ensures (forall v: Usage :: v.Valid() && CachedWithInput(v) ==> u.Merge(v).Valid()) <==> CachedWithInput(u) || u.cached == Some(0)
  {
    var least := Usage(Some(0), None, None, None, false);
    assert least.Valid() && CachedWithInput(least);
    if !CachedWithInput(u) && u.cached != Some(0) { assert !u.Merge(least).Valid(); }
  }

  /** Valid usage only grows what is known to be spent, in every dimension. */
  lemma KnownGrows(u: Usage, v: Usage, d: Dimension)
    requires Below(u, v) && u.Valid() && v.Valid()
    ensures 0 <= u.Known().At(d) <= v.Known().At(d)
  {
  }

  /** A call is charged at least what it is known to have used, at least its reservation until it is
      settled, and exactly one turn. */
  lemma ChargeCovers(u: Usage, reserved: Amount, d: Dimension)
    requires u.Valid() && reserved.Positive() && reserved.turns == 1
    ensures 0 <= u.Known().At(d) <= u.Charged(reserved).At(d) && u.Charged(reserved).turns == 1
    ensures !u.Settled() ==> reserved.At(d) <= u.Charged(reserved).At(d)
    ensures u.Charged(reserved).At(d) <= Max(u.Known().At(d), reserved.At(d))
  {
    KnownGrows(u, u, d);
  }

  /** What is charged, by the counters themselves: a call that is complete with input, output and seconds known
      costs exactly these; every other call, however final, at least its reservation and at least what is known. */
  lemma ChargeExactly(u: Usage, reserved: Amount)
    requires u.Valid() && reserved.Positive() && reserved.turns == 1
    ensures u.complete && u.input.Some? && u.output.Some? && u.seconds.Some? ==>
      u.Charged(reserved) == Amount(u.input.value + u.output.value, 1, u.seconds.value)
    ensures !u.complete || u.input.None? || u.output.None? || u.seconds.None? ==>
      var c := u.Charged(reserved);
      var input := if u.input.Some? then u.input.value else if u.cached.Some? then u.cached.value else 0;
      var tokens := input + if u.output.Some? then u.output.value else 0;
      var seconds := if u.seconds.Some? then u.seconds.value else 0;
      c.turns == 1 && tokens <= c.tokens && reserved.tokens <= c.tokens && c.tokens in {tokens, reserved.tokens} &&
      seconds <= c.seconds && reserved.seconds <= c.seconds && c.seconds in {seconds, reserved.seconds} &&
      forall d: Dimension :: reserved.At(d) <= c.At(d)
  {
  }
}
