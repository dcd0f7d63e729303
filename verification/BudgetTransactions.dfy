/** The transactions of apps/server/src/budget_store.rs as they run, against the state machine of BudgetStore. */
module BudgetTransactions {
  import opened Options
  import opened Totals
  import opened Budget
  import opened BudgetStore

  datatype Balance = Balance(limits: Amount, used: Amount, exposure: Amount, unresolved: nat, exhausted: bool)

  ghost function KnownSum(calls: map<CallId, Call>, ids: set<CallId>, d: Dimension): nat { Total(KnownParts(calls, ids, d)) }

  ghost function ChargedSum(calls: map<CallId, Call>, ids: set<CallId>, d: Dimension): nat { Total(ChargedParts(calls, ids, d)) }

  /** The running sums over the rows seen so far. */
  ghost predicate Running(calls: map<CallId, Call>, seen: set<CallId>, used: Amount, exposure: Amount) {
    forall d: Dimension :: used.At(d) == KnownSum(calls, seen, d) && exposure.At(d) == ChargedSum(calls, seen, d)
  }

  predicate ValidRow(call: Call) { call.usage.Valid() && call.reserved.Positive() && call.reserved.turns == 1 }

  lemma KnownAt(calls: map<CallId, Call>, seen: set<CallId>, c: CallId, d: Dimension)
    requires c in calls && c !in seen && ValidRow(calls[c])
    ensures KnownSum(calls, seen + {c}, d) == KnownSum(calls, seen, d) + calls[c].usage.Known().At(d)
  {
    KnownGrows(calls[c].usage, calls[c].usage, d);
    assert KnownParts(calls, seen + {c}, d) == KnownParts(calls, seen, d)[c := KnownPart(calls[c], d)];
    TotalWith(KnownParts(calls, seen, d), c, KnownPart(calls[c], d));
  }

  lemma ChargedAt(calls: map<CallId, Call>, seen: set<CallId>, c: CallId, d: Dimension)
    requires c in calls && c !in seen && ValidRow(calls[c])
    ensures ChargedSum(calls, seen + {c}, d) == ChargedSum(calls, seen, d) + calls[c].usage.Charged(calls[c].reserved).At(d)
  {
    ChargeCovers(calls[c].usage, calls[c].reserved, d);
    assert ChargedParts(calls, seen + {c}, d) == ChargedParts(calls, seen, d)[c := ChargedPart(calls[c], d)];
    TotalWith(ChargedParts(calls, seen, d), c, ChargedPart(calls[c], d));
  }

  lemma OneMoreRow(calls: map<CallId, Call>, seen: set<CallId>, c: CallId, used: Amount, exposure: Amount)
    requires c in calls && c !in seen && ValidRow(calls[c]) && Running(calls, seen, used, exposure)
    ensures Running(calls, seen + {c}, used.Plus(calls[c].usage.Known()), exposure.Plus(calls[c].usage.Charged(calls[c].reserved)))
  {
    forall d: Dimension
      ensures used.Plus(calls[c].usage.Known()).At(d) == KnownSum(calls, seen + {c}, d)
      ensures exposure.Plus(calls[c].usage.Charged(calls[c].reserved)).At(d) == ChargedSum(calls, seen + {c}, d)
    {
      KnownAt(calls, seen, c, d);
      ChargedAt(calls, seen, c, d);
    }
  }

  lemma PartialSum(calls: map<CallId, Call>, seen: set<CallId>, ids: set<CallId>, d: Dimension)
    requires seen <= ids
    ensures KnownSum(calls, seen, d) <= KnownSum(calls, ids, d) && ChargedSum(calls, seen, d) <= ChargedSum(calls, ids, d)
  {
    TotalMonotone(KnownParts(calls, seen, d), KnownParts(calls, ids, d));
    TotalMonotone(ChargedParts(calls, seen, d), ChargedParts(calls, ids, d));
  }

  /** The rows of one requirement, added up in 64-bit integers; None once a sum no longer fits. */
  method AddRows(calls: map<CallId, Call>, ids: set<CallId>) returns (sums: Option<(Amount, Amount)>)
    requires ids <= calls.Keys && forall c :: c in ids ==> ValidRow(calls[c])
    ensures sums.Some? ==> Running(calls, ids, sums.value.0, sums.value.1) && sums.value.0.Bounded() && sums.value.1.Bounded()
    ensures sums.None? ==> exists d: Dimension :: KnownSum(calls, ids, d) > MAX || ChargedSum(calls, ids, d) > MAX
  {
    var used, exposure := NOTHING, NOTHING;
    var left := ids;
    EmptySums(calls);
    while left != {}
      invariant left <= ids && used.Bounded() && exposure.Bounded()
      invariant Running(calls, ids - left, used, exposure)
      decreases left
    {
      var c :| c in left;
      var call := calls[c];
      OneMoreRow(calls, ids - left, c, used, exposure);
      Covered(call);
      assert ids - left + {c} == ids - (left - {c});
      left := left - {c};
      var actual, charged := call.usage.Actual(), call.usage.Exposure(call.reserved);
      if actual.None? || charged.None? || used.CheckedAdd(actual.value).None? || exposure.CheckedAdd(charged.value).None? {
        TooMuch(calls, ids - left, ids, used.Plus(call.usage.Known()), exposure.Plus(call.usage.Charged(call.reserved)));
        return None;
      }
      used, exposure := used.Plus(actual.value), exposure.Plus(charged.value);
    }
    assert ids - left == ids;
    sums := Some((used, exposure));
  }

  lemma EmptySums(calls: map<CallId, Call>)
    ensures Running(calls, {}, NOTHING, NOTHING)
  {
    forall d: Dimension ensures KnownSum(calls, {}, d) == 0 && ChargedSum(calls, {}, d) == 0 {
      assert KnownParts(calls, {}, d) == map[] && ChargedParts(calls, {}, d) == map[];
    }
  }

  lemma Covered(call: Call)
    requires ValidRow(call)
    ensures call.usage.Known().NonNegative() && call.usage.Charged(call.reserved).NonNegative()
  {
    ChargeCovers(call.usage, call.reserved, Tokens);
    ChargeCovers(call.usage, call.reserved, Turns);
    ChargeCovers(call.usage, call.reserved, Seconds);
  }

  lemma TooMuch(calls: map<CallId, Call>, seen: set<CallId>, ids: set<CallId>, used: Amount, exposure: Amount)
    requires seen <= ids && Running(calls, seen, used, exposure) && used.NonNegative() && exposure.NonNegative()
    requires !used.Bounded() || !exposure.Bounded()
    ensures exists d: Dimension :: KnownSum(calls, ids, d) > MAX || ChargedSum(calls, ids, d) > MAX
  {
    var d: Dimension :| used.At(d) > MAX || exposure.At(d) > MAX by {
      assert used.At(Tokens) == used.tokens && used.At(Turns) == used.turns && used.At(Seconds) == used.seconds;
      assert exposure.At(Tokens) == exposure.tokens && exposure.At(Turns) == exposure.turns && exposure.At(Seconds) == exposure.seconds;
    }
    PartialSum(calls, seen, ids, d);
  }

  ghost function HeldSum(holds: map<string, Amount>, ids: set<string>, d: Dimension): nat { Total(HeldParts(holds, ids, d)) }

  ghost predicate Holding(holds: map<string, Amount>, seen: set<string>, sum: Amount) {
    forall d: Dimension :: sum.At(d) == HeldSum(holds, seen, d)
  }

  lemma OneMoreHold(holds: map<string, Amount>, seen: set<string>, k: string, sum: Amount)
    requires k in holds && k !in seen && holds[k].NonNegative() && Holding(holds, seen, sum)
    ensures Holding(holds, seen + {k}, sum.Plus(holds[k]))
  {
    forall d: Dimension ensures sum.Plus(holds[k]).At(d) == HeldSum(holds, seen + {k}, d) {
      assert sum.At(d) == HeldSum(holds, seen, d) && holds[k].At(d) >= 0;
      assert HeldParts(holds, seen + {k}, d) == HeldParts(holds, seen, d)[k := Natural(holds[k].At(d))];
      TotalWith(HeldParts(holds, seen, d), k, Natural(holds[k].At(d)));
    }
  }

  lemma TooMuchHeld(holds: map<string, Amount>, seen: set<string>, ids: set<string>, sum: Amount)
    requires seen <= ids && Holding(holds, seen, sum) && sum.NonNegative() && !sum.Bounded()
    ensures exists d: Dimension :: HeldSum(holds, ids, d) > MAX
  {
    var d: Dimension :| sum.At(d) > MAX by {
      assert sum.At(Tokens) == sum.tokens && sum.At(Turns) == sum.turns && sum.At(Seconds) == sum.seconds;
    }
    assert sum.At(d) == HeldSum(holds, seen, d);
    TotalMonotone(HeldParts(holds, seen, d), HeldParts(holds, ids, d));
    assert HeldSum(holds, ids, d) > MAX;
  }

  /** What repair runs hold for one requirement. */
  method AddHolds(holds: map<string, Amount>, ids: set<string>) returns (sum: Option<Amount>)
    requires ids <= holds.Keys && forall k :: k in ids ==> holds[k].NonNegative()
    ensures sum.Some? ==> Holding(holds, ids, sum.value) && sum.value.Bounded()
    ensures sum.None? ==> exists d: Dimension :: HeldSum(holds, ids, d) > MAX
  {
    var total := NOTHING;
    var left := ids;
    forall d: Dimension ensures HeldSum(holds, {}, d) == 0 { assert HeldParts(holds, {}, d) == map[]; }
    while left != {}
      invariant left <= ids && total.Bounded() && Holding(holds, ids - left, total)
      decreases left
    {
      var k :| k in left;
      OneMoreHold(holds, ids - left, k, total);
      assert ids - left + {k} == ids - (left - {k});
      left := left - {k};
      if total.CheckedAdd(holds[k]).None? {
        TooMuchHeld(holds, ids - left, ids, total.Plus(holds[k]));
        return None;
      }
      total := total.Plus(holds[k]);
    }
    assert ids - left == ids;
    sum := Some(total);
  }

  lemma BalanceIs(s: State, owner: string -> Requirement, r: Requirement, used: Amount, charged: Amount, held: Amount)
    requires Running(s.calls, CallsOf(s, r), used, charged) && Holding(s.holds, HoldsOf(s, owner, r), held)
    ensures UsedAmount(s, r) == used && Exposure(s, owner, r) == charged.Plus(held)
  {
    forall d: Dimension ensures Used(s, r, d) == used.At(d) && Exposed(s, owner, r, d) == charged.Plus(held).At(d) {
      assert KnownSum(s.calls, CallsOf(s, r), d) == used.At(d) && ChargedSum(s.calls, CallsOf(s, r), d) == charged.At(d);
      assert HeldSum(s.holds, HoldsOf(s, owner, r), d) == held.At(d);
    }
    assert used.At(Tokens) == Used(s, r, Tokens) && used.At(Turns) == Used(s, r, Turns) && used.At(Seconds) == Used(s, r, Seconds);
    var exposure := charged.Plus(held);
    assert exposure.At(Tokens) == Exposed(s, owner, r, Tokens) && exposure.At(Turns) == Exposed(s, owner, r, Turns);
    assert exposure.At(Seconds) == Exposed(s, owner, r, Seconds);
  }

  lemma RowsUncountable(s: State, owner: string -> Requirement, r: Requirement, d: Dimension)
    requires KnownSum(s.calls, CallsOf(s, r), d) > MAX || ChargedSum(s.calls, CallsOf(s, r), d) > MAX ||
             HeldSum(s.holds, HoldsOf(s, owner, r), d) > MAX
    ensures !Countable(s, owner, r)
  {
    assert Used(s, r, d) > MAX || Exposed(s, owner, r, d) > MAX;
    assert UsedAmount(s, r).At(d) == Used(s, r, d) && Exposure(s, owner, r).At(d) == Exposed(s, owner, r, d);
  }

  lemma TooManyRows(s: State, owner: string -> Requirement, r: Requirement)
    requires exists d: Dimension :: KnownSum(s.calls, CallsOf(s, r), d) > MAX || ChargedSum(s.calls, CallsOf(s, r), d) > MAX
    ensures !Countable(s, owner, r)
  {
    var d: Dimension :| KnownSum(s.calls, CallsOf(s, r), d) > MAX || ChargedSum(s.calls, CallsOf(s, r), d) > MAX;
    RowsUncountable(s, owner, r, d);
  }

  /** Use and exposure of one requirement; None when they do not fit 64 bits. */
  method AddUp(ghost s: State, calls: map<CallId, Call>, holds: map<string, Amount>, owner: string -> Requirement, r: Requirement)
    returns (sums: Option<(Amount, Amount)>)
    requires ValidCalls(s, owner) && s.calls == calls && s.holds == holds
    ensures sums.Some? <==> Countable(s, owner, r)
    ensures sums.Some? ==> sums.value == (UsedAmount(s, r), Exposure(s, owner, r))
  {
    var ids := set c | c in calls && calls[c].requirement == r;
    assert ids == CallsOf(s, r);
    forall c | c in ids ensures ValidRow(calls[c]) { assert ValidCall(c, calls[c], owner, s.accounts); }
    var rows := AddRows(calls, ids);
    if rows.None? {
      TooManyRows(s, owner, r);
      return None;
    }
    var runs := set k | k in holds && owner(k) == r;
    assert runs == HoldsOf(s, owner, r);
    var held := AddHolds(holds, runs);
    if held.None? {
      ghost var d: Dimension :| HeldSum(holds, runs, d) > MAX;
      RowsUncountable(s, owner, r, d);
      return None;
    }
    BalanceIs(s, owner, r, rows.value.0, rows.value.1, held.value);
    var exposure := rows.value.1.CheckedAdd(held.value);
    sums := if exposure.Some? then Some((rows.value.0, exposure.value)) else None;
  }

  lemma Unknown(s: State, request: string)
    requires forall g :: g in s.grants ==> s.grants[g].request != request
    ensures !Taken(s, request)
  {
  }

  /** A request identity that is taken is compared with the grant it names. */
  lemma Replayed(s: State, i: Increase)
    requires exists g :: g in s.grants && s.grants[g].request == i.request
    ensures Taken(s, i.request)
    ensures var g := GrantId(i.requirement, i.expected + 1);
      (g in s.grants && s.grants[g] == Grant(i.request, i.actor, i.reason, i.delta, s.grants[g].limits)) <==>
      exists h :: h in s.grants && Granted(s, h, i.request) && SameRequest(s, h, i)
  {
    var h :| h in s.grants && s.grants[h].request == i.request;
    assert Granted(s, h, i.request);
    var g := GrantId(i.requirement, i.expected + 1);
    if g in s.grants && s.grants[g] == Grant(i.request, i.actor, i.reason, i.delta, s.grants[g].limits) {
      assert Granted(s, g, i.request) && SameRequest(s, g, i);
    }
  }

  lemma MergedIsValid(s: State, owner: string -> Requirement, op: Op)
    requires ValidCalls(s, owner) && op.Settle? && Addressed(s, op) && Merged(s, op).calls[CallId(op.key.run, op.turn)].usage.Valid()
    ensures ValidCalls(Merged(s, op), owner) && s.calls[CallId(op.key.run, op.turn)].requirement in s.accounts
  {
    var t := Merged(s, op);
    assert ValidCall(CallId(op.key.run, op.turn), s.calls[CallId(op.key.run, op.turn)], owner, s.accounts);
    forall c | c in t.calls ensures ValidCall(c, t.calls[c], owner, t.accounts) { assert ValidCall(c, s.calls[c], owner, s.accounts); }
  }

  class Store {
    var accounts: map<Requirement, Account>
    var grants: map<GrantId, Grant>
    var calls: map<CallId, Call>
    var events: map<EventId, Usage>
    var holds: map<string, Amount>
    ghost var frozen: map<Requirement, Amount>

    ghost function Contents(): State reads this { State(accounts, grants, calls, events, holds, frozen) }

    constructor (holds: map<string, Amount>)
      ensures Contents() == Empty(holds)
    {
      accounts, grants, calls, events, this.holds, frozen := map[], map[], map[], map[], holds, map[];
    }

    method ReadBalance(owner: string -> Requirement, r: Requirement) returns (b: Option<Balance>)
      requires ValidCalls(Contents(), owner)
      ensures b.Some? <==> r in accounts && Countable(Contents(), owner, r)
      ensures b.Some? ==>
        b.value.limits == accounts[r].limits && b.value.exhausted == accounts[r].exhausted &&
        b.value.used == UsedAmount(Contents(), r) && b.value.exposure == Exposure(Contents(), owner, r) &&
        b.value.unresolved == |set c | c in CallsOf(Contents(), r) && var u := calls[c].usage;
          !u.complete || u.input.None? || u.output.None? || u.seconds.None?|
    {
      if r !in accounts { return None; }
      var sums := AddUp(Contents(), calls, holds, owner, r);
      if sums.None? { return None; }
      var unresolved := set c | c in calls && calls[c].requirement == r && !calls[c].usage.Settled();
      assert unresolved == set c | c in CallsOf(Contents(), r) && var u := calls[c].usage;
        !u.complete || u.input.None? || u.output.None? || u.seconds.None?;
      b := Some(Balance(accounts[r].limits, sums.value.0, sums.value.1, |unresolved|, accounts[r].exhausted));
    }

    method Stop(r: Requirement)
      requires r in accounts
      modifies this`accounts
      ensures Contents() == Stopped(old(Contents()), r)
    {
      accounts := accounts[r := accounts[r].(exhausted := true)];
    }

    /** `allowed`: the run may act; `admitted`: its run is the one being executed; `prepaid` and
        `groupAllows`: the answers of the group budget. */
    method ReserveCall(owner: string -> Requirement, intent: Intent, allowed: bool, admitted: bool, prepaid: bool, groupAllows: bool)
      returns (answer: Answer)
      requires ValidCalls(Contents(), owner)
      modifies this
      ensures (Contents(), answer) == Answered(old(Contents()), owner, Reserve(intent, allowed, admitted, prepaid, groupAllows))
    {
      if !ValidIntent(intent) { return Failed; }
      if !allowed { return Blocked; }
      var id, r := CallId(intent.key.run, intent.turn), owner(intent.key.run);
      if id in calls { return if calls[id].intent == intent then Existing else Failed; }
      if !admitted { return Blocked; }
      var balance := ReadBalance(owner, r);
      if balance.None? { return Failed; }
      var current := balance.value;
      if current.exhausted || !current.exposure.Fits(current.limits) || !prepaid {
        Stop(r);
        return Blocked;
      }
      if intent.key.run in holds {
        if holds[intent.key.run] != intent.reserve { return Failed; }
        holds := holds - {intent.key.run};
      } else if !FitsBeside(current.exposure, intent.reserve, current.limits) || !groupAllows {
        Stop(r);
        return Blocked;
      }
      calls := calls[id := Call(r, intent, intent.reserve, UNUSED)];
      answer := Reserved;
    }

    method SettleReport(owner: string -> Requirement, key: RunKey, turn: Turn, event: string, usage: Usage, groupExhausted: bool)
      returns (answer: Answer)
      requires ValidCalls(Contents(), owner)
      modifies this
      ensures (Contents(), answer) == Answered(old(Contents()), owner, Settle(key, turn, event, usage, groupExhausted))
    {
      ghost var s, op := Contents(), Settle(key, turn, event, usage, groupExhausted);
      if event == "" || !usage.Valid() { return Failed; }
      var id := CallId(key.run, turn);
      if id !in calls || calls[id].intent.key != key { return Failed; }
      if EventId(id, event) in events && events[EventId(id, event)] != usage { return Failed; }
      var r, before, archive := calls[id].requirement, calls, events;
      if !calls[id].usage.Merge(usage).Valid() { return Failed; }
      events := events[EventId(id, event) := usage];
      calls := calls[id := calls[id].(usage := calls[id].usage.Merge(usage))];
      assert Contents() == Merged(s, op);
      MergedIsValid(s, owner, op);
      var balance := ReadBalance(owner, r);
      if balance.None? {
        calls, events := before, archive;
        return Failed;
      }
      if Over(balance.value.used, balance.value.exposure, balance.value.limits) || groupExhausted { Stop(r); }
      answer := Done;
    }

    method RaiseLimits(ghost owner: string -> Requirement, input: Increase, grouped: bool) returns (answer: Answer)
      modifies this
      ensures (Contents(), answer) == Answered(old(Contents()), owner, Raise(input, grouped))
    {
      if !ValidIncrease(input) { return Failed; }
      if exists g :: g in grants && grants[g].request == input.request {
        Replayed(Contents(), input);
        var g := GrantId(input.requirement, input.expected + 1);
        var same := g in grants && grants[g] == Grant(input.request, input.actor, input.reason, input.delta, grants[g].limits);
        return if same then Done else Failed;
      }
      Unknown(Contents(), input.request);
      var r := input.requirement;
      if grouped || r !in accounts || accounts[r].version != input.expected { return Failed; }
      var limits := accounts[r].limits.CheckedAdd(input.delta);
      if limits.None? { return Failed; }
      grants := grants[GrantId(r, input.expected + 1) := Grant(input.request, input.actor, input.reason, input.delta, limits.value)];
      accounts := accounts[r := Account(limits.value, input.expected + 1, false)];
      answer := Done;
    }

    /** Both inserts leave an existing row alone. */
    method FreezeLimits(ghost owner: string -> Requirement, r: Requirement, limits: Amount)
      modifies this
      ensures Contents() == Step(old(Contents()), owner, Freeze(r, limits))
    {
      if r !in accounts {
        accounts := accounts[r := Account(limits, 1, false)];
        frozen := frozen[r := limits];
      }
      var taken := exists g :: g in grants && grants[g].request == Initial(r);
      assert taken <==> Taken(Contents(), Initial(r)) by {
        forall g | g in grants ensures Granted(Contents(), g, Initial(r)) <==> grants[g].request == Initial(r) { }
      }
      if GrantId(r, 1) !in grants && !taken {
        var now := accounts[r].limits;
        grants := grants[GrantId(r, 1) := Grant(Initial(r), LOCAL_USER, FIRST_REVIEW, now, now)];
      }
    }
  }
}
