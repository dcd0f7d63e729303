/** When each budget transaction accepts, by the stored rows and their totals (apps/server/src/budget_store.rs). */
module BudgetAnswers {
  import opened Options
  import opened Totals
  import opened Budget
  import opened BudgetStore

  /** Totals and limits, dimension by dimension. */
  ghost predicate ExposureWithin(s: State, owner: string -> Requirement, r: Requirement, limits: Amount) {
    forall d: Dimension :: Exposed(s, owner, r, d) <= limits.At(d)
  }

  lemma FitsExactly(a: Amount, limits: Amount)
    ensures a.Fits(limits) <==> forall d: Dimension :: a.At(d) <= limits.At(d)
  {
    if forall d: Dimension :: a.At(d) <= limits.At(d) {
      assert a.At(Tokens) <= limits.At(Tokens) && a.At(Turns) <= limits.At(Turns) && a.At(Seconds) <= limits.At(Seconds);
    }
  }

  lemma AmountsAt(s: State, owner: string -> Requirement, r: Requirement, used: Amount, exposure: Amount, d: Dimension)
    requires used == UsedAmount(s, r) && exposure == Exposure(s, owner, r)
    ensures used.At(d) == Used(s, r, d) && exposure.At(d) == Exposed(s, owner, r, d)
  {
  }

  lemma ExposureFits(s: State, owner: string -> Requirement, r: Requirement, limits: Amount, exposure: Amount)
    requires exposure == Exposure(s, owner, r)
    ensures exposure.Fits(limits) <==> ExposureWithin(s, owner, r, limits)
  {
    FitsExactly(exposure, limits);
    forall d: Dimension ensures exposure.At(d) == Exposed(s, owner, r, d) { AmountsAt(s, owner, r, UsedAmount(s, r), exposure, d); }
  }

  /** Every total of the account is an i64. */
  ghost predicate TotalsFit(s: State, owner: string -> Requirement, r: Requirement) {
    forall d: Dimension :: Used(s, r, d) <= MAX && Exposed(s, owner, r, d) <= MAX
  }

  lemma BoundedExactly(a: Amount)
    requires forall d: Dimension :: a.At(d) >= 0
    ensures a.Bounded() <==> forall d: Dimension :: a.At(d) <= MAX
  {
    assert a.At(Tokens) >= 0 && a.At(Turns) >= 0 && a.At(Seconds) >= 0;
    if forall d: Dimension :: a.At(d) <= MAX { assert a.At(Tokens) <= MAX && a.At(Turns) <= MAX && a.At(Seconds) <= MAX; }
  }

  lemma CountableExactly(s: State, owner: string -> Requirement, r: Requirement)
    ensures Countable(s, owner, r) <==> TotalsFit(s, owner, r)
  {
    BoundedTotals(s, owner, r, UsedAmount(s, r), Exposure(s, owner, r));
  }

  lemma BoundedTotals(s: State, owner: string -> Requirement, r: Requirement, used: Amount, exposure: Amount)
    requires used == UsedAmount(s, r) && exposure == Exposure(s, owner, r)
    ensures used.Bounded() && exposure.Bounded() <==> TotalsFit(s, owner, r)
  {
    forall d: Dimension ensures used.At(d) == Used(s, r, d) && exposure.At(d) == Exposed(s, owner, r, d) {
      AmountsAt(s, owner, r, used, exposure, d);
    }
    BoundedExactly(used);
    BoundedExactly(exposure);
  }

  /** Beside what is exposed already the reservation stays within the limits and 64 bits. */
  ghost predicate RoomBeside(s: State, owner: string -> Requirement, r: Requirement, reserve: Amount, limits: Amount) {
    forall d: Dimension :: Exposed(s, owner, r, d) + reserve.At(d) <= limits.At(d) && Exposed(s, owner, r, d) + reserve.At(d) <= MAX
  }

  lemma BesideExactly(s: State, owner: string -> Requirement, r: Requirement, reserve: Amount, limits: Amount, exposure: Amount)
    requires exposure == Exposure(s, owner, r)
    ensures FitsBeside(exposure, reserve, limits) <==> RoomBeside(s, owner, r, reserve, limits)
  {
    BesideAt(exposure, reserve, limits);
    forall d: Dimension ensures exposure.At(d) == Exposed(s, owner, r, d) { AmountsAt(s, owner, r, UsedAmount(s, r), exposure, d); }
  }

  lemma BesideAt(exposure: Amount, reserve: Amount, limits: Amount)
    ensures FitsBeside(exposure, reserve, limits) <==>
      forall d: Dimension :: exposure.At(d) + reserve.At(d) <= limits.At(d) && exposure.At(d) + reserve.At(d) <= MAX
  {
    if forall d: Dimension :: exposure.At(d) + reserve.At(d) <= limits.At(d) && exposure.At(d) + reserve.At(d) <= MAX {
      assert exposure.At(Tokens) + reserve.At(Tokens) <= MAX && exposure.At(Turns) + reserve.At(Turns) <= MAX;
      assert exposure.At(Seconds) + reserve.At(Seconds) <= MAX;
      assert exposure.At(Tokens) + reserve.At(Tokens) <= limits.At(Tokens) && exposure.At(Turns) + reserve.At(Turns) <= limits.At(Turns);
      assert exposure.At(Seconds) + reserve.At(Seconds) <= limits.At(Seconds);
    }
  }

  /** The request is well formed, its run may act and is the one being executed, and no call has its identity. */
  predicate Asked(s: State, op: Op)
    requires op.Reserve?
  {
    0 < |op.intent.turn| <= 200 && op.intent.reserve.tokens > 0 && op.intent.reserve.turns == 1 && op.intent.reserve.seconds > 0 &&
    op.allowed && op.admitted && CallId(op.intent.key.run, op.intent.turn) !in s.calls
  }

  /** The account is open, within its limits, and takes this call beside what it is exposed to, or in place of the
      resources a repair holds for exactly it. */
  ghost predicate Affordable(s: State, owner: string -> Requirement, op: Op, r: Requirement)
    requires op.Reserve? && r in s.accounts
  {
    var limits, run := s.accounts[r].limits, op.intent.key.run;
    !s.accounts[r].exhausted && ExposureWithin(s, owner, r, limits) && op.prepaid &&
    if run in s.holds then s.holds[run] == op.intent.reserve
    else RoomBeside(s, owner, r, op.intent.reserve, limits) && op.groupAllows
  }

  /** A repair's first call that asks for other resources than are held for it is an error, not a stop. */
  ghost predicate Mistaken(s: State, owner: string -> Requirement, op: Op, r: Requirement)
    requires op.Reserve? && r in s.accounts
  {
    !s.accounts[r].exhausted && ExposureWithin(s, owner, r, s.accounts[r].limits) && op.prepaid &&
    op.intent.key.run in s.holds && s.holds[op.intent.key.run] != op.intent.reserve
  }

  /** A call is reserved exactly when it is asked for, its totals can be counted and it is affordable; then it is
      the one new row, and only its own hold is gone. An account that cannot afford it is stopped. */
  lemma ReservesExactly(s: State, owner: string -> Requirement, op: Op)
    requires op.Reserve?
    ensures var r, id := owner(op.intent.key.run), CallId(op.intent.key.run, op.intent.turn);
      var (t, answer) := AfterReserve(s, owner, op);
      var counted := Asked(s, op) && r in s.accounts && TotalsFit(s, owner, r);
      (answer == Reserved <==> counted && Affordable(s, owner, op, r)) &&
      (answer == Reserved ==>
        t == s.(calls := s.calls[id := Call(r, op.intent, op.intent.reserve, Usage(None, None, None, None, false))], holds := s.holds - {op.intent.key.run})) &&
      (counted && !Affordable(s, owner, op, r) && !Mistaken(s, owner, op, r) ==>
        answer == Blocked && t == s.(accounts := s.accounts[r := s.accounts[r].(exhausted := true)])) &&
      (!counted || (counted && Mistaken(s, owner, op, r)) ==> t == s)
  {
    var r := owner(op.intent.key.run);
    CountableExactly(s, owner, r);
    if r in s.accounts {
      ExposureFits(s, owner, r, s.accounts[r].limits, Exposure(s, owner, r));
      BesideExactly(s, owner, r, op.intent.reserve, s.accounts[r].limits, Exposure(s, owner, r));
    }
    ReservesAt(s, owner, op, r, Countable(s, owner, r), Exposure(s, owner, r));
  }

  lemma ReservesAt(s: State, owner: string -> Requirement, op: Op, r: Requirement, countable: bool, exposure: Amount)
    requires op.Reserve?
    requires r in s.accounts ==>
      (exposure.Fits(s.accounts[r].limits) <==> ExposureWithin(s, owner, r, s.accounts[r].limits)) &&
      (FitsBeside(exposure, op.intent.reserve, s.accounts[r].limits) <==> RoomBeside(s, owner, r, op.intent.reserve, s.accounts[r].limits))
    ensures var id := CallId(op.intent.key.run, op.intent.turn);
      var (t, answer) := ReserveAt(s, r, op, countable, exposure);
      var counted := Asked(s, op) && r in s.accounts && countable;
      (answer == Reserved <==> counted && Affordable(s, owner, op, r)) &&
      (answer == Reserved ==>
        t == s.(calls := s.calls[id := Call(r, op.intent, op.intent.reserve, Usage(None, None, None, None, false))], holds := s.holds - {op.intent.key.run})) &&
      (counted && !Affordable(s, owner, op, r) && !Mistaken(s, owner, op, r) ==>
        answer == Blocked && t == s.(accounts := s.accounts[r := s.accounts[r].(exhausted := true)])) &&
      (!counted || (counted && Mistaken(s, owner, op, r)) ==> t == s)
  {
    assert op.intent.key.run !in s.holds ==> s.holds - {op.intent.key.run} == s.holds;
  }

  // ---------------------------------------------------------------- settlement

  /** No counter is negative or beyond 64 bits, and cached input is part of the input. */
  predicate WellCounted(u: Usage) {
    (u.input.Some? ==> 0 <= u.input.value <= MAX) && (u.cached.Some? ==> 0 <= u.cached.value <= MAX) &&
    (u.output.Some? ==> 0 <= u.output.value <= MAX) && (u.seconds.Some? ==> 0 <= u.seconds.value <= MAX) &&
    (u.input.Some? && u.cached.Some? ==> u.cached.value <= u.input.value)
  }

  /** The larger of two counters; one that is missing is no larger than any. */
  predicate Larger(a: Option<int>, b: Option<int>, c: Option<int>) {
    (c == a || c == b) && (a.Some? ==> c.Some? && c.value >= a.value) && (b.Some? ==> c.Some? && c.value >= b.value)
  }

  predicate Combined(u: Usage, v: Usage, w: Usage) {
    Larger(u.input, v.input, w.input) && Larger(u.cached, v.cached, w.cached) && Larger(u.output, v.output, w.output) &&
    Larger(u.seconds, v.seconds, w.seconds) && (w.complete <==> u.complete || v.complete)
  }

  /** The report names its event and a recorded call of the same run, and repeats what the event said before. */
  predicate Acceptable(s: State, op: Op)
    requires op.Settle?
  {
    var id := CallId(op.key.run, op.turn);
    op.event != "" && WellCounted(op.usage) && id in s.calls && s.calls[id].intent.key == op.key &&
    (EventId(id, op.event) in s.events ==> s.events[EventId(id, op.event)] == op.usage)
  }

  lemma MergeCombines(u: Usage, v: Usage)
    ensures Combined(u, v, u.Merge(v)) && (u.Valid() <==> WellCounted(u)) && (v.Valid() <==> WellCounted(v))
    ensures u.Merge(v).Valid() <==> WellCounted(u.Merge(v))
  {
  }

  /** Known use at or past a limit of tokens or seconds, or past one of turns, or exposure past any limit. */
  ghost predicate Overdrawn(s: State, owner: string -> Requirement, r: Requirement, limits: Amount) {
    Used(s, r, Tokens) >= limits.tokens || Used(s, r, Turns) > limits.turns || Used(s, r, Seconds) >= limits.seconds ||
    Exposed(s, owner, r, Tokens) > limits.tokens || Exposed(s, owner, r, Turns) > limits.turns || Exposed(s, owner, r, Seconds) > limits.seconds
  }

  /** A report is taken exactly when it is acceptable, its counters do not contradict those of the call, and the
      totals with it can be counted. Then the call knows the larger of each counter, the event is archived, and
      the account, open before, is stopped exactly when that overdraws it or its group is exhausted. */
  lemma SettlesExactly(s: State, owner: string -> Requirement, op: Op)
    requires op.Settle? && ValidCalls(s, owner)
    ensures var id := CallId(op.key.run, op.turn);
      var (t, answer) := AfterSettle(s, owner, op);
      (answer == Done <==>
        Acceptable(s, op) && var m := Merged(s, op);
        WellCounted(m.calls[id].usage) && TotalsFit(m, owner, s.calls[id].requirement)) &&
      (answer != Done ==> t == s) &&
      (answer == Done ==>
        id in s.calls && id in t.calls && Combined(s.calls[id].usage, op.usage, t.calls[id].usage) &&
        t.calls == s.calls[id := s.calls[id].(usage := t.calls[id].usage)] &&
        t.events == s.events[EventId(id, op.event) := op.usage] && t.grants == s.grants && t.holds == s.holds &&
        var r := s.calls[id].requirement;
        r in s.accounts && r in t.accounts && t.accounts == s.accounts[r := s.accounts[r].(exhausted := t.accounts[r].exhausted)] &&
        (t.accounts[r].exhausted <==> s.accounts[r].exhausted || op.groupExhausted || Overdrawn(t, owner, r, s.accounts[r].limits)))
  {
    var id := CallId(op.key.run, op.turn);
    MergeCombines(op.usage, op.usage);
    if Acceptable(s, op) {
      assert ValidCall(id, s.calls[id], owner, s.accounts);
      MergeCombines(s.calls[id].usage, op.usage);
      var m, r := Merged(s, op), s.calls[id].requirement;
      CountableExactly(m, owner, r);
      SettlesAt(s, owner, op, m, r, Countable(m, owner, r), UsedAmount(m, r), Exposure(m, owner, r));
    }
  }

  lemma SettlesAt(s: State, owner: string -> Requirement, op: Op, m: State, r: Requirement, countable: bool, used: Amount, exposure: Amount)
    requires op.Settle? && Addressed(s, op) && m == Merged(s, op) && r == s.calls[CallId(op.key.run, op.turn)].requirement && r in s.accounts
    requires used == UsedAmount(m, r) && exposure == Exposure(m, owner, r)
    ensures var (t, answer) := SettleAt(s, op, countable, used, exposure);
      (answer == Done <==> m.calls[CallId(op.key.run, op.turn)].usage.Valid() && countable) && (answer != Done ==> t == s) &&
      (answer == Done ==>
        t == m.(accounts := t.accounts) && r in t.accounts &&
        t.accounts == s.accounts[r := s.accounts[r].(exhausted := t.accounts[r].exhausted)] &&
        (t.accounts[r].exhausted <==> s.accounts[r].exhausted || op.groupExhausted || Overdrawn(t, owner, r, s.accounts[r].limits)))
  {
    var (t, answer) := SettleAt(s, op, countable, used, exposure);
    if answer == Done {
      assert CallsOf(t, r) == CallsOf(m, r) && HoldsOf(t, owner, r) == HoldsOf(m, owner, r);
      OverExactly(m, owner, r, s.accounts[r].limits, used, exposure);
    }
  }

  lemma OverExactly(m: State, owner: string -> Requirement, r: Requirement, limits: Amount, used: Amount, exposure: Amount)
    requires used == UsedAmount(m, r) && exposure == Exposure(m, owner, r)
    ensures Over(used, exposure, limits) <==> Overdrawn(m, owner, r, limits)
  {
  }

  // ---------------------------------------------------------------- increases

  /** Somebody asks for more, for a reason, and takes nothing away. */
  predicate Meant(i: Increase) {
    i.request != "" && (exists k :: 0 <= k < |i.actor| && !White(i.actor[k])) && (exists k :: 0 <= k < |i.reason| && !White(i.reason[k])) &&
    i.delta.tokens >= 0 && i.delta.turns >= 0 && i.delta.seconds >= 0 && (i.delta.tokens > 0 || i.delta.turns > 0 || i.delta.seconds > 0)
  }

  /** A request that was not seen before raises the limits exactly when it is meant, of an account that is not
      grouped and has the expected version, and the sums are i64: by its delta, and the account is open again. */
  lemma RaisesExactly(s: State, op: Op)
    requires op.Raise? && forall g :: g in s.grants ==> s.grants[g].request != op.input.request
    ensures var i, r := op.input, op.input.requirement;
      var (t, answer) := AfterRaise(s, op);
      (answer == Done <==>
        Meant(i) && !op.grouped && r in s.accounts && s.accounts[r].version == i.expected &&
        s.accounts[r].limits.tokens + i.delta.tokens <= MAX && s.accounts[r].limits.turns + i.delta.turns <= MAX &&
        s.accounts[r].limits.seconds + i.delta.seconds <= MAX) &&
      (answer != Done ==> t == s) &&
      (answer == Done ==>
        var l := s.accounts[r].limits;
        var limits := Amount(l.tokens + i.delta.tokens, l.turns + i.delta.turns, l.seconds + i.delta.seconds);
        t == s.(accounts := s.accounts[r := Account(limits, i.expected + 1, false)],
                grants := s.grants[GrantId(r, i.expected + 1) := Grant(i.request, i.actor, i.reason, i.delta, limits)]))
  {
    assert ValidIncrease(op.input) <==> Meant(op.input);
    assert !Taken(s, op.input.request);
  }

  /** Freezing opens an account that is not there under the reviewed limits, at version 1, and leaves an existing one
      and every other alone; its first authorization is recorded once, with the limits the account then has. */
  lemma FreezesExactly(s: State, op: Op)
    requires op.Freeze?
    ensures var r, t, g := op.requirement, AfterFreeze(s, op), GrantId(op.requirement, 1);
      t.accounts == (if r in s.accounts then s.accounts else s.accounts[r := Account(op.limits, 1, false)]) &&
      t.calls == s.calls && t.holds == s.holds && t.events == s.events &&
      t.grants == if g in s.grants || exists h :: h in s.grants && s.grants[h].request == "initial-budget:" + Digits(r) then s.grants
        else s.grants[g := Grant("initial-budget:" + Digits(r), "local-user", "initial reviewed authorization", t.accounts[r].limits, t.accounts[r].limits)]
  {
    assert forall h :: h in s.grants ==> (Granted(s, h, Initial(op.requirement)) <==> s.grants[h].request == Initial(op.requirement));
  }
}
