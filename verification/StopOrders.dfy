/** When the order of usage reports decides whether they stop an account (apps/server/src/budget_store.rs: settle). */
module StopOrders {
  import opened Options
  import opened Totals
  import opened Budget
  import opened BudgetStore
  import opened LateSettlement

  // ---------------------------------------------------------------- what one report does to an account

  /** A report of a call of this account. */
  predicate OnAccount(s: State, op: Op, r: Requirement) {
    op.Settle? && IdOf(op) in s.calls && s.calls[IdOf(op)].requirement == r
  }

  predicate StoppedAccount(s: State, r: Requirement) { r in s.accounts && s.accounts[r].exhausted }

  predicate SameLimits(s: State, t: State, r: Requirement) {
    r in s.accounts && r in t.accounts && t.accounts[r].limits == s.accounts[r].limits
  }

  lemma FlagAt(s: State, op: Op, used: Amount, exposure: Amount, r: Requirement)
    requires op.Settle? && Addressed(s, op) && Merged(s, op).calls[IdOf(op)].usage.Valid() && s.calls[IdOf(op)].requirement in s.accounts
    requires r in s.accounts
    ensures var t := SettleAt(s, op, true, used, exposure).0;
      SameLimits(s, t, r) &&
      (t.accounts[r].exhausted <==>
        s.accounts[r].exhausted || (OnAccount(s, op, r) && (op.groupExhausted || Over(used, exposure, s.accounts[r].limits))))
  {
  }

  lemma SameBalance(s: State, t: State, owner: string -> Requirement, r: Requirement)
    requires t.calls == s.calls && t.holds == s.holds
    ensures UsedAmount(t, r) == UsedAmount(s, r) && Exposure(t, owner, r) == Exposure(s, owner, r)
  {
    SameSums(s, t, owner, r);
  }

  function AccountOf(s: State, op: Op): Requirement
    requires op.Settle? && IdOf(op) in s.calls
  {
    s.calls[IdOf(op)].requirement
  }

  /** What a report did, given the balance after it. */
  lemma StepFlag(s: State, owner: string -> Requirement, op: Op, used: Amount, exposure: Amount, r: Requirement)
    requires op.Settle? && Addressed(s, op) && Merged(s, op).calls[IdOf(op)].usage.Valid() && s.calls[IdOf(op)].requirement in s.accounts
    requires var m, own := Merged(s, op), AccountOf(s, op);
      Countable(m, owner, own) && used == UsedAmount(m, own) && exposure == Exposure(m, owner, own)
    requires r in s.accounts
    ensures var t := Step(s, owner, op);
      SameLimits(s, t, r) &&
      (t.accounts[r].exhausted <==>
        s.accounts[r].exhausted || (OnAccount(s, op, r) && (op.groupExhausted || Over(used, exposure, s.accounts[r].limits))))
  {
    FlagAt(s, op, used, exposure, r);
  }

  lemma CountableAfter(s: State, owner: string -> Requirement, op: Op, final: map<CallId, Usage>, m: State)
    requires ValidCalls(s, owner) && Approaches(s, final) && Room(s, owner, final)
    requires Plausible(s, op) && Agrees(s.events, op) && Below(op.usage, final[IdOf(op)]) && Addressed(s, op) && m == Merged(s, op)
    ensures Countable(m, owner, AccountOf(s, op)) && AccountOf(s, op) in s.accounts && m.calls[IdOf(op)].usage.Valid()
  {
    MergedApproaches(s, owner, op, final);
    assert ValidCall(IdOf(op), s.calls[IdOf(op)], owner, s.accounts) && ValidCall(IdOf(op), m.calls[IdOf(op)], owner, m.accounts);
    RoomStays(s, m, owner, final);
    RoomIsCountable(m, owner, final, AccountOf(s, op));
  }

  lemma BalanceAfter(s: State, owner: string -> Requirement, op: Op, final: map<CallId, Usage>, m: State)
    requires ValidCalls(s, owner) && Approaches(s, final) && Room(s, owner, final)
    requires Plausible(s, op) && Agrees(s.events, op) && Below(op.usage, final[IdOf(op)]) && Addressed(s, op) && m == Merged(s, op)
    ensures var t, own := Step(s, owner, op), AccountOf(s, op);
      UsedAmount(t, own) == UsedAmount(m, own) && Exposure(t, owner, own) == Exposure(m, owner, own)
  {
    SettleIsTaken(s, owner, op, final);
    SameBalance(m, Step(s, owner, op), owner, AccountOf(s, op));
  }

  /** A report that is taken stops exactly its own account, when its group says so or the new balance is over. */
  lemma TakenReportStops(s: State, owner: string -> Requirement, op: Op, final: map<CallId, Usage>, r: Requirement)
    requires ValidCalls(s, owner) && Approaches(s, final) && Room(s, owner, final) && r in s.accounts
    requires Plausible(s, op) && Agrees(s.events, op) && Below(op.usage, final[IdOf(op)])
    ensures var t := Step(s, owner, op);
      SameLimits(s, t, r) &&
      (t.accounts[r].exhausted <==> s.accounts[r].exhausted || (OnAccount(s, op, r) && (op.groupExhausted || OverLimit(t, owner, r))))
  {
    var m := Merged(s, op);
    CountableAfter(s, owner, op, final, m);
    BalanceAfter(s, owner, op, final, m);
    StepFlag(s, owner, op, UsedAmount(m, AccountOf(s, op)), Exposure(m, owner, AccountOf(s, op)), r);
  }

  // ---------------------------------------------------------------- runs of reports

  lemma {:induction false} ExecuteBoth(s: State, owner: string -> Requirement, a: seq<Op>, b: seq<Op>)
    ensures Execute(s, owner, a + b) == Execute(Execute(s, owner, a), owner, b)
    decreases |a|
  {
    if a == [] {
      assert a + b == b;
    } else {
      assert (a + b)[1..] == a[1..] + b;
      ExecuteBoth(Step(s, owner, a[0]), owner, a[1..], b);
    }
  }

  /** Reports leave holds and limits alone and never open a stopped account. */
  lemma {:induction false} ReportsKeep(s: State, owner: string -> Requirement, ops: seq<Op>, r: Requirement)
    requires forall op :: op in ops ==> op.Settle?
    ensures var t := Execute(s, owner, ops);
      SameCalls(s, t) && t.holds == s.holds && (r in s.accounts ==> SameLimits(s, t, r)) && (StoppedAccount(s, r) ==> StoppedAccount(t, r))
    decreases |ops|
  {
    if ops != [] {
      SettleShape(s, owner, ops[0]);
      ReportsKeep(Step(s, owner, ops[0]), owner, ops[1..], r);
    }
  }

  predicate AllBelow(ops: seq<Op>, final: map<CallId, Usage>) {
    forall op :: op in ops ==> op.Settle? && IdOf(op) in final && Below(op.usage, final[IdOf(op)])
  }

  /** Reports that can all be taken from here. */
  ghost predicate Takeable(s: State, owner: string -> Requirement, ops: seq<Op>, final: map<CallId, Usage>) {
    ValidCalls(s, owner) && Approaches(s, final) && Room(s, owner, final) && Consistent(s, ops) && AllBelow(ops, final)
  }

  lemma TakeableFirst(s: State, owner: string -> Requirement, ops: seq<Op>, final: map<CallId, Usage>)
    requires Takeable(s, owner, ops, final) && ops != []
    ensures ops[0] in ops && ops[0].Settle? && Plausible(s, ops[0]) && Agrees(s.events, ops[0]) && Addressed(s, ops[0])
    ensures Below(ops[0].usage, final[IdOf(ops[0])]) && AllBelow(ops[1..], final)
  {
    assert ops[0] in ops && Plausible(s, ops[0]);
  }

  lemma TakeableRest(s: State, owner: string -> Requirement, ops: seq<Op>, final: map<CallId, Usage>) returns (t: State)
    requires Takeable(s, owner, ops, final) && ops != []
    ensures t == Step(s, owner, ops[0]) && Takeable(t, owner, ops[1..], final) && ops[0].Settle? && Addressed(s, ops[0])
    ensures t.calls == Merged(s, ops[0]).calls
  {
    TakeableFirst(s, owner, ops, final);
    t := FirstReportIsTaken(s, owner, ops, final);
  }

  lemma FirstReportStops(s: State, owner: string -> Requirement, ops: seq<Op>, final: map<CallId, Usage>, r: Requirement)
    requires Takeable(s, owner, ops, final) && ops != [] && r in s.accounts
    ensures var t := Step(s, owner, ops[0]);
      SameLimits(s, t, r) &&
      (t.accounts[r].exhausted <==>
        s.accounts[r].exhausted || (OnAccount(s, ops[0], r) && (ops[0].groupExhausted || OverLimit(t, owner, r))))
  {
    TakeableFirst(s, owner, ops, final);
    TakenReportStops(s, owner, ops[0], final, r);
  }

  predicate Reported(s: State, ops: seq<Op>, r: Requirement) { exists op :: op in ops && OnAccount(s, op, r) }

  /** When the balance after some reports is over and one of them is of the account, the account is stopped. */
  lemma {:induction false} OverAfterwardsStops(s: State, owner: string -> Requirement, ops: seq<Op>, final: map<CallId, Usage>, r: Requirement)
    requires Takeable(s, owner, ops, final) && r in s.accounts && Reported(s, ops, r)
    requires var t := Execute(s, owner, ops); r in t.accounts && OverLimit(t, owner, r)
    ensures StoppedAccount(Execute(s, owner, ops), r)
    decreases |ops|
  {
    var t := TakeableRest(s, owner, ops, final);
    FirstReportStops(s, owner, ops, final, r);
    if Reported(t, ops[1..], r) {
      OverAfterwardsStops(t, owner, ops[1..], final, r);
    } else {
      var op :| op in ops && OnAccount(s, op, r);
      assert op in ops[1..] ==> OnAccount(t, op, r);
      assert op == ops[0];
      OthersKeepBalance(t, owner, ops[1..], final, r);
      ReportsKeep(t, owner, ops[1..], r);
    }
  }

  lemma {:induction false} NoReports(ops: seq<Op>, c: CallId)
    requires forall op :: op in ops ==> op.Settle? && IdOf(op) != c
    ensures Reports(ops, c) == []
    decreases |ops|
  {
    if ops != [] {
      assert ops[0] in ops;
      NoReports(ops[1..], c);
    }
  }

  lemma OthersKeepBalance(s: State, owner: string -> Requirement, ops: seq<Op>, final: map<CallId, Usage>, r: Requirement)
    requires Takeable(s, owner, ops, final) && !Reported(s, ops, r)
    ensures var t := Execute(s, owner, ops); UsedAmount(t, r) == UsedAmount(s, r) && Exposure(t, owner, r) == Exposure(s, owner, r)
  {
    var t := Execute(s, owner, ops);
    AllReportsAreTaken(s, owner, ops, final);
    ReportsKeep(s, owner, ops, r);
    SameSums(s, t, owner, r);
    forall c | c in CallsOf(s, r) ensures t.calls[c] == s.calls[c] {
      assert JoinedAt(s.calls[c], t.calls[c], ops, c);
      forall op | op in ops ensures op.Settle? && IdOf(op) != c { assert Plausible(s, op); }
      NoReports(ops, c);
    }
    SameParts(s, t, owner, r, Tokens);
    SameParts(s, t, owner, r, Turns);
    SameParts(s, t, owner, r, Seconds);
  }

  lemma SameParts(s: State, t: State, owner: string -> Requirement, r: Requirement, d: Dimension)
    requires CallsOf(t, r) == CallsOf(s, r) && Held(t, owner, r, d) == Held(s, owner, r, d)
    requires forall c :: c in CallsOf(s, r) ==> t.calls[c] == s.calls[c]
    ensures Used(t, r, d) == Used(s, r, d) && Exposed(t, owner, r, d) == Exposed(s, owner, r, d)
  {
    assert KnownParts(t.calls, CallsOf(t, r), d) == KnownParts(s.calls, CallsOf(s, r), d);
    assert ChargedParts(t.calls, CallsOf(t, r), d) == ChargedParts(s.calls, CallsOf(s, r), d);
  }

  // ---------------------------------------------------------------- the most a call is ever charged

  /** Until it is settled a call may be charged its reservation; at most, what it is finally known to have used. */
  function Peak(call: Call, final: Usage, d: Dimension): nat {
    if call.usage.Settled() then Natural(final.Known().At(d)) else Ceiling(call, final, d)
  }

  ghost function Peaks(s: State, final: map<CallId, Usage>, r: Requirement, d: Dimension): map<CallId, nat> {
    map c | c in CallsOf(s, r) && c in final :: Peak(s.calls[c], final[c], d)
  }

  /** The store once everything is known. */
  function Ended(s: State, final: map<CallId, Usage>): State {
    s.(calls := map c | c in s.calls && c in final :: s.calls[c].(usage := final[c]))
  }

  /** One call on the way from what was known of it to what is finally known. */
  predicate OnTheWay(before: Call, now: Call, final: Usage) {
    now == before.(usage := now.usage) && now.usage.Valid() && Below(before.usage, now.usage) && Below(now.usage, final)
  }

  predicate Between(s: State, t: State, final: map<CallId, Usage>) {
    t.calls.Keys == s.calls.Keys && t.holds == s.holds && forall c :: c in s.calls ==> c in final && OnTheWay(s.calls[c], t.calls[c], final[c])
  }

  lemma PeakIsMost(before: Call, now: Call, final: Usage, d: Dimension)
    requires OnTheWay(before, now, final) && final.Valid() && before.reserved.Positive() && before.reserved.turns == 1
    ensures KnownPart(now, d) <= Natural(final.Known().At(d)) && ChargedPart(now, d) <= Peak(before, final, d)
  {
    KnownGrows(now.usage, final, d);
    ChargeCovers(now.usage, now.reserved, d);
  }

  /** The account's charges can never pass its limits, and its final use does not exhaust it. */
  ghost predicate PeaksFit(s: State, owner: string -> Requirement, final: map<CallId, Usage>, r: Requirement, limits: Amount) {
    forall d: Dimension :: PeakFits(s, owner, final, r, limits, d)
  }

  ghost predicate PeakFits(s: State, owner: string -> Requirement, final: map<CallId, Usage>, r: Requirement, limits: Amount, d: Dimension) {
    Total(Peaks(s, final, r, d)) + Held(s, owner, r, d) <= limits.At(d)
  }

  lemma CallWithinPeak(s: State, t: State, owner: string -> Requirement, final: map<CallId, Usage>, c: CallId, d: Dimension)
    requires ValidCalls(s, owner) && Approaches(s, final) && Between(s, t, final) && c in s.calls
    ensures c in t.calls && c in final
    ensures KnownPart(t.calls[c], d) <= Natural(final[c].Known().At(d)) && ChargedPart(t.calls[c], d) <= Peak(s.calls[c], final[c], d)
  {
    assert ValidCall(c, s.calls[c], owner, s.accounts) && OnTheWay(s.calls[c], t.calls[c], final[c]);
    PeakIsMost(s.calls[c], t.calls[c], final[c], d);
  }

  lemma BetweenWithinPeaks(s: State, t: State, owner: string -> Requirement, final: map<CallId, Usage>, r: Requirement, d: Dimension)
    requires ValidCalls(s, owner) && Approaches(s, final) && Between(s, t, final)
    ensures Used(t, r, d) <= Used(Ended(s, final), r, d)
    ensures Exposed(t, owner, r, d) <= Total(Peaks(s, final, r, d)) + Held(s, owner, r, d)
  {
    SameCallsBetween(s, t, final);
    SameSums(s, t, owner, r);
    UsedWithinEnd(s, t, owner, final, r, d);
    var charged, peaks := ChargedParts(t.calls, CallsOf(t, r), d), Peaks(s, final, r, d);
    forall c | c in charged ensures c in peaks && charged[c] <= peaks[c] { CallWithinPeak(s, t, owner, final, c, d); }
    TotalMonotone(charged, peaks);
  }

  lemma UsedWithinEnd(s: State, t: State, owner: string -> Requirement, final: map<CallId, Usage>, r: Requirement, d: Dimension)
    requires ValidCalls(s, owner) && Approaches(s, final) && Between(s, t, final) && CallsOf(t, r) == CallsOf(s, r)
    ensures Used(t, r, d) <= Used(Ended(s, final), r, d)
  {
    var e := Ended(s, final);
    var known, end := KnownParts(t.calls, CallsOf(t, r), d), KnownParts(e.calls, CallsOf(e, r), d);
    forall c | c in known ensures c in end && known[c] <= end[c] { CallWithinPeak(s, t, owner, final, c, d); }
    TotalMonotone(known, end);
  }

  lemma SameCallsBetween(s: State, t: State, final: map<CallId, Usage>)
    requires Between(s, t, final)
    ensures SameCalls(s, t)
  {
    forall c | c in s.calls ensures t.calls[c].requirement == s.calls[c].requirement && t.calls[c].intent == s.calls[c].intent {
      assert OnTheWay(s.calls[c], t.calls[c], final[c]);
    }
  }

  lemma BetweenIsNotOver(s: State, t: State, owner: string -> Requirement, final: map<CallId, Usage>, r: Requirement, limits: Amount,
                         used: Amount, exposure: Amount, use: Amount)
    requires ValidCalls(s, owner) && Approaches(s, final) && Between(s, t, final) && PeaksFit(s, owner, final, r, limits)
    requires used == UsedAmount(t, r) && exposure == Exposure(t, owner, r) && use == UsedAmount(Ended(s, final), r)
    requires !use.ExecutionExhausted(limits)
    ensures !Over(used, exposure, limits)
  {
    forall d: Dimension ensures used.At(d) <= use.At(d) && exposure.At(d) <= limits.At(d) {
      assert PeakFits(s, owner, final, r, limits, d);
      BetweenWithinPeaks(s, t, owner, final, r, d);
      AmountsAt(t, owner, r, d, used, exposure);
      AmountsAt(Ended(s, final), owner, r, d, use, Exposure(Ended(s, final), owner, r));
    }
    WithinIsNotOver(used, exposure, use, limits);
  }

  lemma AmountsAt(t: State, owner: string -> Requirement, r: Requirement, d: Dimension, used: Amount, exposure: Amount)
    requires used == UsedAmount(t, r) && exposure == Exposure(t, owner, r)
    ensures used.At(d) == Used(t, r, d) && exposure.At(d) == Exposed(t, owner, r, d)
  {
  }

  lemma WithinIsNotOver(used: Amount, exposure: Amount, use: Amount, limits: Amount)
    requires (forall d: Dimension :: used.At(d) <= use.At(d) && exposure.At(d) <= limits.At(d)) && !use.ExecutionExhausted(limits)
    ensures !Over(used, exposure, limits)
  {
    assert used.At(Tokens) <= use.At(Tokens) && used.At(Turns) <= use.At(Turns) && used.At(Seconds) <= use.At(Seconds);
    assert exposure.At(Tokens) <= limits.At(Tokens) && exposure.At(Turns) <= limits.At(Turns) && exposure.At(Seconds) <= limits.At(Seconds);
  }

  lemma BetweenStays(s: State, t: State, u: State, op: Op, final: map<CallId, Usage>)
    requires Between(s, t, final) && op.Settle? && Addressed(t, op) && u.calls == Merged(t, op).calls && u.holds == t.holds
    requires IdOf(op) in s.calls && Below(op.usage, final[IdOf(op)])
    requires u.calls[IdOf(op)].usage.Valid()
    ensures Between(s, u, final)
  {
    var id := IdOf(op);
    MergeIsJoin(t.calls[id].usage, op.usage, final[id]);
    forall c | c in s.calls ensures OnTheWay(s.calls[c], u.calls[c], final[c]) {
      assert OnTheWay(s.calls[c], t.calls[c], final[c]);
    }
  }

  lemma HoldsStay(t: State, owner: string -> Requirement, op: Op)
    requires op.Settle?
    ensures Step(t, owner, op).holds == t.holds
  {
    SettleShape(t, owner, op);
  }

  lemma NextIsTaken(t: State, owner: string -> Requirement, ops: seq<Op>, final: map<CallId, Usage>) returns (u: State)
    requires Takeable(t, owner, ops, final) && ops != []
    ensures u == Step(t, owner, ops[0]) && Takeable(u, owner, ops[1..], final)
    ensures ops[0].Settle? && Addressed(t, ops[0]) && u.calls == Merged(t, ops[0]).calls && u.holds == t.holds
    ensures IdOf(ops[0]) in final && Below(ops[0].usage, final[IdOf(ops[0])]) && u.calls[IdOf(ops[0])].usage.Valid()
  {
    TakeableFirst(t, owner, ops, final);
    u := TakeableRest(t, owner, ops, final);
    HoldsStay(t, owner, ops[0]);
    assert ValidCall(IdOf(ops[0]), u.calls[IdOf(ops[0])], owner, u.accounts);
  }

  lemma NextIsBetween(s: State, t: State, owner: string -> Requirement, ops: seq<Op>, final: map<CallId, Usage>) returns (u: State)
    requires Between(s, t, final) && Takeable(t, owner, ops, final) && ops != []
    ensures u == Step(t, owner, ops[0]) && Takeable(u, owner, ops[1..], final) && Between(s, u, final)
  {
    u := NextIsTaken(t, owner, ops, final);
    BetweenStays(s, t, u, ops[0], final);
  }

  predicate OpenWith(t: State, r: Requirement, limits: Amount) {
    r in t.accounts && t.accounts[r].limits == limits && !t.accounts[r].exhausted
  }

  ghost predicate RoomForPeaks(s: State, owner: string -> Requirement, final: map<CallId, Usage>, r: Requirement, limits: Amount) {
    PeaksFit(s, owner, final, r, limits) && !UsedAmount(Ended(s, final), r).ExecutionExhausted(limits)
  }

  lemma OneMoreIsOpen(s: State, t: State, owner: string -> Requirement, ops: seq<Op>, final: map<CallId, Usage>, r: Requirement, limits: Amount)
    requires ValidCalls(s, owner) && Approaches(s, final) && Takeable(t, owner, ops, final) && ops != []
    requires Between(s, Step(t, owner, ops[0]), final) && RoomForPeaks(s, owner, final, r, limits) && OpenWith(t, r, limits)
    requires OnAccount(t, ops[0], r) ==> !ops[0].groupExhausted
    ensures OpenWith(Step(t, owner, ops[0]), r, limits)
  {
    FirstReportStops(t, owner, ops, final, r);
    var u := Step(t, owner, ops[0]);
    BetweenIsNotOver(s, u, owner, final, r, limits, UsedAmount(u, r), Exposure(u, owner, r), UsedAmount(Ended(s, final), r));
  }

  predicate NoGroupStops(calls: map<CallId, Call>, ops: seq<Op>, r: Requirement) {
    forall op :: op in ops && op.Settle? && IdOf(op) in calls && calls[IdOf(op)].requirement == r ==> !op.groupExhausted
  }

  /** With room for every peak, no list of reports stops the account. */
  lemma {:induction false} NeverStops(s: State, t: State, owner: string -> Requirement, ops: seq<Op>, final: map<CallId, Usage>,
                                      r: Requirement, limits: Amount)
    requires ValidCalls(s, owner) && Approaches(s, final) && Between(s, t, final) && Takeable(t, owner, ops, final)
    requires RoomForPeaks(s, owner, final, r, limits) && OpenWith(t, r, limits) && NoGroupStops(s.calls, ops, r)
    ensures OpenWith(Execute(t, owner, ops), r, limits)
    decreases |ops|
  {
    if ops != [] {
      TakeableFirst(t, owner, ops, final);
      var u := NextIsBetween(s, t, owner, ops, final);
      assert OnWay(s, t, IdOf(ops[0]), final);
      OneMoreIsOpen(s, t, owner, ops, final, r, limits);
      NeverStops(s, u, owner, ops[1..], final, r, limits);
    }
  }

  predicate OnWay(s: State, t: State, c: CallId, final: map<CallId, Usage>) {
    c in s.calls && c in t.calls && c in final && OnTheWay(s.calls[c], t.calls[c], final[c])
  }

  // ---------------------------------------------------------------- an order that reaches every peak

  /** The reports of these calls only. */
  function Only(ops: seq<Op>, ids: set<CallId>): (some: seq<Op>)
    requires forall op :: op in ops ==> op.Settle?
    ensures forall op :: op in some <==> op in ops && IdOf(op) in ids
  {
    if ops == [] then [] else (if IdOf(ops[0]) in ids then [ops[0]] else []) + Only(ops[1..], ids)
  }

  lemma {:induction false} OnlyReports(ops: seq<Op>, ids: set<CallId>, c: CallId)
    requires forall op :: op in ops ==> op.Settle?
    ensures Reports(Only(ops, ids), c) == if c in ids then Reports(ops, c) else []
    decreases |ops|
  {
    if ops != [] {
      OnlyReports(ops[1..], ids, c);
      if IdOf(ops[0]) in ids { assert Only(ops, ids)[1..] == Only(ops[1..], ids); }
      else { assert Only(ops, ids) == Only(ops[1..], ids); }
    }
  }

  /** The calls whose charge the reports can only raise. */
  ghost function Rising(s: State, final: map<CallId, Usage>, r: Requirement, d: Dimension): set<CallId> {
    set c | c in CallsOf(s, r) && c in final && Natural(final[c].Known().At(d)) > ChargedPart(s.calls[c], d)
  }

  lemma PeakIsMet(call: Call, final: Usage, rising: bool, d: Dimension)
    requires call.usage.Valid() && final.Valid() && call.reserved.Positive() && call.reserved.turns == 1
    requires rising == (Natural(final.Known().At(d)) > ChargedPart(call, d))
    ensures Peak(call, final, d) <= ChargedPart(if rising then call.(usage := final) else call, d)
  {
    ChargeCovers(call.usage, call.reserved, d);
    ChargeCovers(final, call.reserved, d);
  }

  lemma SomeAreTakeable(s: State, owner: string -> Requirement, a: seq<Op>, some: seq<Op>, final: map<CallId, Usage>)
    requires Takeable(s, owner, a, final) && forall op :: op in some ==> op in a
    ensures Takeable(s, owner, some, final)
  {
  }

  lemma RisingCall(s: State, t: State, owner: string -> Requirement, a: seq<Op>, r: Requirement, d: Dimension, c: CallId)
    requires (forall op :: op in a ==> op.Settle?) && ValidCalls(s, owner) && Approaches(s, Final(s, a)) && c in CallsOf(s, r)
    requires JoinedCalls(s, t, Only(a, Rising(s, Final(s, a), r, d)))
    ensures c in t.calls && Peak(s.calls[c], Final(s, a)[c], d) <= ChargedPart(t.calls[c], d)
  {
    var final := Final(s, a);
    var ids := Rising(s, final, r, d);
    assert JoinedAt(s.calls[c], t.calls[c], Only(a, ids), c) && ValidCall(c, s.calls[c], owner, s.accounts);
    OnlyReports(a, ids, c);
    PeakIsMet(s.calls[c], final[c], c in ids, d);
  }

  /** After the reports of the rising calls only, the charges are at least the peaks. */
  lemma RisingReportsReachPeaks(s: State, owner: string -> Requirement, a: seq<Op>, r: Requirement, d: Dimension, some: seq<Op>)
    requires (forall op :: op in a ==> op.Settle?) && Takeable(s, owner, a, Final(s, a))
    requires some == Only(a, Rising(s, Final(s, a), r, d))
    ensures Takeable(s, owner, some, Final(s, a))
    ensures Total(Peaks(s, Final(s, a), r, d)) + Held(s, owner, r, d) <= Exposed(Execute(s, owner, some), owner, r, d)
  {
    SomeAreTakeable(s, owner, a, some, Final(s, a));
    AllReportsAreTaken(s, owner, some, Final(s, a));
    ReportsKeep(s, owner, some, r);
    ReachedPeaks(s, Execute(s, owner, some), owner, a, r, d);
  }

  lemma ReachedPeaks(s: State, t: State, owner: string -> Requirement, a: seq<Op>, r: Requirement, d: Dimension)
    requires (forall op :: op in a ==> op.Settle?) && ValidCalls(s, owner) && Approaches(s, Final(s, a))
    requires SameCalls(s, t) && t.holds == s.holds && JoinedCalls(s, t, Only(a, Rising(s, Final(s, a), r, d)))
    ensures Total(Peaks(s, Final(s, a), r, d)) + Held(s, owner, r, d) <= Exposed(t, owner, r, d)
  {
    SameSums(s, t, owner, r);
    var peaks, charged := Peaks(s, Final(s, a), r, d), ChargedParts(t.calls, CallsOf(t, r), d);
    forall c | c in peaks ensures c in charged && peaks[c] <= charged[c] { RisingCall(s, t, owner, a, r, d, c); }
    TotalMonotone(peaks, charged);
  }

  // ---------------------------------------------------------------- which orders stop the account

  ghost predicate SameReports(a: seq<Op>, b: seq<Op>) { forall op :: op in a <==> op in b }

  /** Whatever the order and however often each report is repeated, the account stays open. */
  ghost predicate NoOrderStops(s: State, owner: string -> Requirement, a: seq<Op>, r: Requirement) {
    forall b: seq<Op> :: SameReports(a, b) ==> !StoppedAccount(Execute(s, owner, b), r)
  }

  ghost predicate EveryOrderStops(s: State, owner: string -> Requirement, a: seq<Op>, r: Requirement) {
    forall b: seq<Op> :: SameReports(a, b) ==> StoppedAccount(Execute(s, owner, b), r)
  }

  /** Reports that agree with the store and with each other, and an account that is open. */
  ghost predicate Settleable(s: State, owner: string -> Requirement, a: seq<Op>, r: Requirement) {
    ValidCalls(s, owner) && Consistent(s, a) && (forall c :: c in s.calls ==> CachedWithInput(s.calls[c].usage)) &&
    Room(s, owner, Final(s, a)) && r in s.accounts && !s.accounts[r].exhausted
  }

  /** Beyond that the account is within its limits; after an increase that is too small it need not be. */
  ghost predicate Within(s: State, owner: string -> Requirement, a: seq<Op>, r: Requirement) {
    Settleable(s, owner, a, r) && !OverLimit(s, owner, r)
  }

  lemma SettleableIsTakeable(s: State, owner: string -> Requirement, a: seq<Op>, b: seq<Op>, r: Requirement)
    requires Settleable(s, owner, a, r) && SameReports(a, b)
    ensures Takeable(s, owner, b, Final(s, a)) && Takeable(s, owner, a, Final(s, a))
  {
    FinalIsAbove(s, owner, a);
    forall op | op in a ensures op.Settle? && IdOf(op) in Final(s, a) && Below(op.usage, Final(s, a)[IdOf(op)]) {
      assert Plausible(s, op);
    }
    SomeAreTakeable(s, owner, a, b, Final(s, a));
  }

  lemma StartsBetween(s: State, owner: string -> Requirement, final: map<CallId, Usage>)
    requires ValidCalls(s, owner) && Approaches(s, final)
    ensures Between(s, s, final)
  {
    forall c | c in s.calls ensures OnTheWay(s.calls[c], s.calls[c], final[c]) {
      assert ValidCall(c, s.calls[c], owner, s.accounts);
      MergeIsJoin(s.calls[c].usage, s.calls[c].usage, UNUSED);
    }
  }

  lemma RoomStopsNothing(s: State, owner: string -> Requirement, a: seq<Op>, b: seq<Op>, r: Requirement, limits: Amount)
    requires Settleable(s, owner, a, r) && SameReports(a, b) && limits == s.accounts[r].limits
    requires RoomForPeaks(s, owner, Final(s, a), r, limits) && NoGroupStops(s.calls, a, r)
    ensures !StoppedAccount(Execute(s, owner, b), r)
  {
    SettleableIsTakeable(s, owner, a, b, r);
    StartsBetween(s, owner, Final(s, a));
    NeverStops(s, s, owner, b, Final(s, a), r, limits);
  }

  lemma CallEndsThere(s: State, t: State, a: seq<Op>, b: seq<Op>, c: CallId)
    requires (forall op :: op in a ==> op.Settle?) && SameReports(a, b) && JoinedCalls(s, t, b) && c in s.calls
    ensures c in t.calls && t.calls[c] == s.calls[c].(usage := Final(s, a)[c])
  {
    assert JoinedAt(s.calls[c], t.calls[c], b, c);
    forall u ensures u in Reports(a, c) <==> u in Reports(b, c) {
      ReportsAreTheEvents(a, c, u);
      ReportsAreTheEvents(b, c, u);
    }
    OrderAndDuplicatesDoNotMatter(s.calls[c].usage, Reports(a, c), Reports(b, c));
  }

  /** After all reports the calls are as the join of everything known says. */
  lemma EndsThere(s: State, t: State, a: seq<Op>, b: seq<Op>)
    requires (forall op :: op in a ==> op.Settle?) && SameReports(a, b) && JoinedCalls(s, t, b)
    ensures t.calls == Ended(s, Final(s, a)).calls
  {
    forall c | c in s.calls ensures t.calls[c] == s.calls[c].(usage := Final(s, a)[c]) { CallEndsThere(s, t, a, b, c); }
  }

  /** When some reports lead to a balance over the limits, coming first they stop the account. */
  lemma OverSomewhereStops(s: State, owner: string -> Requirement, some: seq<Op>, rest: seq<Op>, final: map<CallId, Usage>, r: Requirement)
    requires Takeable(s, owner, some, final) && r in s.accounts && !OverLimit(s, owner, r) && forall op :: op in rest ==> op.Settle?
    requires var t := Execute(s, owner, some); r in t.accounts && OverLimit(t, owner, r)
    ensures StoppedAccount(Execute(s, owner, some + rest), r)
  {
    var t := Execute(s, owner, some);
    ReportsKeep(s, owner, some, r);
    if !Reported(s, some, r) { OthersKeepBalance(s, owner, some, final, r); }
    OverAfterwardsStops(s, owner, some, final, r);
    ExecuteBoth(s, owner, some, rest);
    ReportsKeep(t, owner, rest, r);
  }

  lemma EndedBalance(s: State, owner: string -> Requirement, a: seq<Op>, b: seq<Op>, r: Requirement)
    requires Settleable(s, owner, a, r) && SameReports(a, b)
    ensures var t, e := Execute(s, owner, b), Ended(s, Final(s, a));
      SameLimits(s, t, r) && UsedAmount(t, r) == UsedAmount(e, r) && Exposure(t, owner, r) == Exposure(e, owner, r)
  {
    SettleableIsTakeable(s, owner, a, b, r);
    AllReportsAreTaken(s, owner, b, Final(s, a));
    EndsThere(s, Execute(s, owner, b), a, b);
    ReportsKeep(s, owner, b, r);
    SameBalance(Ended(s, Final(s, a)), Execute(s, owner, b), owner, r);
  }

  /** A final balance over the limits stops an account within them in every order. */
  lemma FinalOverStops(s: State, owner: string -> Requirement, a: seq<Op>, r: Requirement)
    requires Within(s, owner, a, r) && r in Ended(s, Final(s, a)).accounts && OverLimit(Ended(s, Final(s, a)), owner, r)
    ensures EveryOrderStops(s, owner, a, r)
  {
    forall b: seq<Op> | SameReports(a, b) ensures StoppedAccount(Execute(s, owner, b), r) {
      EndedBalance(s, owner, a, b, r);
      OverAtTheEndStops(s, owner, a, b, r);
    }
  }

  lemma OverAtTheEndStops(s: State, owner: string -> Requirement, a: seq<Op>, b: seq<Op>, r: Requirement)
    requires Within(s, owner, a, r) && SameReports(a, b)
    requires var t := Execute(s, owner, b); r in t.accounts && OverLimit(t, owner, r)
    ensures StoppedAccount(Execute(s, owner, b), r)
  {
    SettleableIsTakeable(s, owner, a, b, r);
    OverSomewhereStops(s, owner, b, [], Final(s, a), r);
    assert b + [] == b;
  }

  lemma GroupStops(s: State, owner: string -> Requirement, a: seq<Op>, op: Op, r: Requirement)
    requires Settleable(s, owner, a, r) && op in a && OnAccount(s, op, r) && op.groupExhausted
    ensures StoppedAccount(Execute(s, owner, [op] + a), r)
  {
    SettleableIsTakeable(s, owner, a, a, r);
    SomeAreTakeable(s, owner, a, [op], Final(s, a));
    FirstReportStops(s, owner, [op], Final(s, a), r);
    assert ([op] + a)[1..] == a;
    ReportsKeep(Step(s, owner, op), owner, a, r);
  }

  lemma PeakStops(s: State, owner: string -> Requirement, a: seq<Op>, r: Requirement, d: Dimension, some: seq<Op>)
    requires Within(s, owner, a, r) && !PeakFits(s, owner, Final(s, a), r, s.accounts[r].limits, d)
    requires some == Only(a, Rising(s, Final(s, a), r, d))
    ensures StoppedAccount(Execute(s, owner, some + a), r)
  {
    SettleableIsTakeable(s, owner, a, a, r);
    RisingReportsReachPeaks(s, owner, a, r, d, some);
    ReportsKeep(s, owner, some, r);
    OverIn(Execute(s, owner, some), owner, r, d);
    OverSomewhereStops(s, owner, some, a, Final(s, a), r);
  }

  lemma OverIn(t: State, owner: string -> Requirement, r: Requirement, d: Dimension)
    requires r in t.accounts && Exposed(t, owner, r, d) > t.accounts[r].limits.At(d)
    ensures OverLimit(t, owner, r)
  {
    NotWithin(Exposure(t, owner, r), t.accounts[r].limits, d);
  }

  lemma NotWithin(exposure: Amount, limits: Amount, d: Dimension)
    requires exposure.At(d) > limits.At(d)
    ensures !exposure.Fits(limits)
  {
  }

  /** No order of the reports stops an account within its limits exactly when the peaks of all its calls
      and what repairs hold fit the limits together, its final use does not exhaust it, and no report
      says its group is. */
  lemma NoOrderStopsWithin(s: State, owner: string -> Requirement, a: seq<Op>, r: Requirement)
    requires Within(s, owner, a, r)
    ensures NoOrderStops(s, owner, a, r) <==>
      RoomForPeaks(s, owner, Final(s, a), r, s.accounts[r].limits) && NoGroupStops(s.calls, a, r)
  {
    var final, limits := Final(s, a), s.accounts[r].limits;
    if !NoGroupStops(s.calls, a, r) {
      var op :| op in a && OnAccount(s, op, r) && op.groupExhausted;
      GroupStops(s, owner, a, op, r);
      assert SameReports(a, [op] + a);
    } else if !PeaksFit(s, owner, final, r, limits) {
      var d: Dimension :| !PeakFits(s, owner, final, r, limits, d);
      var some := Only(a, Rising(s, final, r, d));
      PeakStops(s, owner, a, r, d, some);
      assert SameReports(a, some + a);
    } else if UsedAmount(Ended(s, final), r).ExecutionExhausted(limits) {
      FinalOverStops(s, owner, a, r);
      assert SameReports(a, a);
    } else {
      forall b: seq<Op> | SameReports(a, b) ensures !StoppedAccount(Execute(s, owner, b), r) { RoomStopsNothing(s, owner, a, b, r, limits); }
    }
  }

  // ---------------------------------------------------------------- between the two, the order decides

  const KEY := RunKey("run", "request", "incarnation")

  function Asked(turn: Turn): Intent { Intent(KEY, turn, Coding, EACH) }

  function Ask(turn: Turn): Op { Reserve(Asked(turn), true, true, true, true) }

  function Tell(turn: Turn, usage: Usage): Op { Settle(KEY, turn, "event", usage, false) }

  function Opened(r: Requirement): State { AfterFreeze(Empty(map[]), Freeze(r, LIMITS)) }

  lemma FreshIsReserved(s: State, owner: string -> Requirement, r: Requirement, turn: Turn, exposure: Amount)
    requires owner(KEY.run) == r && 0 < |turn| <= 200 && CallId(KEY.run, turn) !in s.calls && s.holds == map[] && Countable(s, owner, r)
    requires r in s.accounts && s.accounts[r].limits == LIMITS && !s.accounts[r].exhausted
    requires exposure == Exposure(s, owner, r) && exposure.Fits(LIMITS) && exposure.Plus(EACH).Fits(LIMITS)
    ensures Step(s, owner, Ask(turn)) == Fresh(s, Asked(turn), r)
  {
    ReservedAt(s, r, turn, exposure);
  }

  lemma ReservedAt(s: State, r: Requirement, turn: Turn, exposure: Amount)
    requires 0 < |turn| <= 200 && CallId(KEY.run, turn) !in s.calls && s.holds == map[]
    requires r in s.accounts && s.accounts[r].limits == LIMITS && !s.accounts[r].exhausted
    requires exposure.Fits(LIMITS) && exposure.Plus(EACH).Fits(LIMITS)
    ensures ReserveAt(s, r, Ask(turn), true, exposure).0 == Fresh(s, Asked(turn), r)
  {
  }

  lemma OneCall(s: State, owner: string -> Requirement, r: Requirement, id: CallId)
    requires s.calls.Keys == {id} && s.calls[id].requirement == r && s.calls[id].reserved == EACH && s.calls[id].usage == UNUSED && s.holds == map[]
    ensures UsedAmount(s, r) == NOTHING && Exposure(s, owner, r) == EACH
  {
    PartsOf(s.calls[id]);
    forall d: Dimension ensures Used(s, r, d) == NOTHING.At(d) && Exposed(s, owner, r, d) == EACH.At(d) { OnePart(s, owner, r, id, d); }
    BalanceIs(s, owner, r, NOTHING, EACH);
  }

  lemma OnePart(s: State, owner: string -> Requirement, r: Requirement, id: CallId, d: Dimension)
    requires s.calls.Keys == {id} && s.calls[id].requirement == r && s.holds == map[]
    ensures Used(s, r, d) == KnownPart(s.calls[id], d) && Exposed(s, owner, r, d) == ChargedPart(s.calls[id], d)
  {
    assert CallsOf(s, r) == {id};
    var known, charged := KnownParts(s.calls, CallsOf(s, r), d), ChargedParts(s.calls, CallsOf(s, r), d);
    TotalWithout(known, id);
    TotalWithout(charged, id);
    assert known - {id} == map[] && charged - {id} == map[];
    assert HeldParts(s.holds, HoldsOf(s, owner, r), d) == map[];
  }

  lemma NoCalls(s: State, owner: string -> Requirement, r: Requirement)
    requires s.calls == map[] && s.holds == map[]
    ensures UsedAmount(s, r) == NOTHING && Exposure(s, owner, r) == NOTHING
  {
    assert CallsOf(s, r) == {};
    forall d: Dimension ensures Used(s, r, d) == 0 && Exposed(s, owner, r, d) == 0 {
      assert KnownParts(s.calls, CallsOf(s, r), d) == map[] && ChargedParts(s.calls, CallsOf(s, r), d) == map[];
      assert HeldParts(s.holds, HoldsOf(s, owner, r), d) == map[];
    }
  }

  function Paired(r: Requirement, x: Turn, y: Turn): State { Fresh(Fresh(Opened(r), Asked(x), r), Asked(y), r) }

  lemma PairedIsReached(owner: string -> Requirement, r: Requirement, x: Turn, y: Turn)
    requires owner(KEY.run) == r && x != y && 0 < |x| <= 200 && 0 < |y| <= 200
    ensures Execute(Empty(map[]), owner, [Freeze(r, LIMITS), Ask(x), Ask(y)]) == Paired(r, x, y)
  {
    var none := Opened(r);
    var one := Fresh(none, Asked(x), r);
    NoCalls(none, owner, r);
    FreshIsReserved(none, owner, r, x, NOTHING);
    OneCall(one, owner, r, CallId(KEY.run, x));
    FreshIsReserved(one, owner, r, y, EACH);
    ThreeSteps(Empty(map[]), owner, Freeze(r, LIMITS), Ask(x), Ask(y));
  }

  lemma PairedIsUnordered(r: Requirement, x: Turn, y: Turn)
    requires x != y
    ensures Unordered(Paired(r, x, y), r, Tell(x, LARGE), Tell(y, SMALL))
  {
    var s := Paired(r, x, y);
    assert s.calls == map[CallId(KEY.run, x) := Call(r, Asked(x), EACH, UNUSED), CallId(KEY.run, y) := Call(r, Asked(y), EACH, UNUSED)];
  }

  function Told(x: Turn, y: Turn): seq<Op> { [Tell(x, LARGE), Tell(y, SMALL)] }

  lemma PairedIsConsistent(owner: string -> Requirement, r: Requirement, x: Turn, y: Turn)
    requires owner(KEY.run) == r && x != y && 0 < |x| <= 200 && 0 < |y| <= 200
    ensures var s := Paired(r, x, y); ValidCalls(s, owner) && Consistent(s, Told(x, y)) && TwoCalls(s, r, CallId(KEY.run, x), CallId(KEY.run, y))
  {
    var s := Paired(r, x, y);
    assert s.calls == map[CallId(KEY.run, x) := Call(r, Asked(x), EACH, UNUSED), CallId(KEY.run, y) := Call(r, Asked(y), EACH, UNUSED)];
    forall op | op in Told(x, y) ensures Plausible(s, op) && Agrees(s.events, op) { assert op == Tell(x, LARGE) || op == Tell(y, SMALL); }
  }

  lemma ReportsOfTwo(p: Op, q: Op, c: CallId)
    requires p.Settle? && q.Settle?
    ensures Reports([p, q], c) == (if IdOf(p) == c then [p.usage] else []) + if IdOf(q) == c then [q.usage] else []
  {
    assert [p, q][1..] == [q] && [q][1..] == [];
    assert Reports([q], c) == (if IdOf(q) == c then [q.usage] else []) + Reports([], c);
  }

  lemma FinalOfPaired(r: Requirement, x: Turn, y: Turn)
    requires x != y
    ensures var s, ops := Paired(r, x, y), Told(x, y);
      (forall op :: op in ops ==> op.Settle?) &&
      Final(s, ops) == map[CallId(KEY.run, x) := LARGE, CallId(KEY.run, y) := SMALL]
  {
    var s, ops := Paired(r, x, y), Told(x, y);
    var a, b := CallId(KEY.run, x), CallId(KEY.run, y);
    ReportsOfTwo(ops[0], ops[1], a);
    ReportsOfTwo(ops[0], ops[1], b);
    assert Reports(ops, a) == [LARGE] && Reports(ops, b) == [SMALL];
    assert [LARGE][1..] == [] && [SMALL][1..] == [];
    assert JoinAll(UNUSED.Merge(LARGE), []) == LARGE && JoinAll(UNUSED.Merge(SMALL), []) == SMALL;
    assert JoinAll(UNUSED, [LARGE]) == LARGE && JoinAll(UNUSED, [SMALL]) == SMALL;
    assert s.calls[a].usage == UNUSED && s.calls[b].usage == UNUSED && s.calls.Keys == {a, b};
  }

  lemma SmallTotal(m: map<CallId, nat>, a: CallId, b: CallId, most: nat)
    requires m.Keys <= {a, b} && forall c :: c in m ==> m[c] <= most
    ensures Total(m) <= 2 * most
  {
    if a in m { TotalWithout(m, a); }
    var n := m - {a};
    if b in n { TotalWithout(n, b); }
    assert n - {b} == map[] && (a !in m ==> n == m) && (b !in n ==> n == map[]);
  }

  lemma PairedHasRoom(owner: string -> Requirement, r: Requirement, x: Turn, y: Turn, final: map<CallId, Usage>)
    requires x != y && final == map[CallId(KEY.run, x) := LARGE, CallId(KEY.run, y) := SMALL]
    ensures Room(Paired(r, x, y), owner, final)
  {
    var s := Paired(r, x, y);
    forall q, d ensures RoomFor(s, owner, final, q, d) {
      var ceilings := Ceilings(s.calls, final, CallsOf(s, q), d);
      SmallTotal(ceilings, CallId(KEY.run, x), CallId(KEY.run, y), 60);
      assert HeldParts(s.holds, HoldsOf(s, owner, q), d) == map[];
    }
  }

  lemma PairedFits(owner: string -> Requirement, r: Requirement, x: Turn, y: Turn)
    requires TwoCalls(Paired(r, x, y), r, CallId(KEY.run, x), CallId(KEY.run, y)) && x != y
    ensures !OverLimit(Paired(r, x, y), owner, r)
  {
    var s := Paired(r, x, y);
    PartsOf(s.calls[CallId(KEY.run, x)]);
    PartsOf(s.calls[CallId(KEY.run, y)]);
    SumsOfPair(s, owner, r, CallId(KEY.run, x), CallId(KEY.run, y), NOTHING, Amount(100, 2, 2));
  }

  lemma PairedIsOpen(r: Requirement, x: Turn, y: Turn)
    requires x != y
    ensures var s := Paired(r, x, y); r in s.accounts && !s.accounts[r].exhausted && forall c :: c in s.calls ==> CachedWithInput(s.calls[c].usage)
  {
  }

  lemma PairedIsSettleable(owner: string -> Requirement, r: Requirement, x: Turn, y: Turn, s: State, a: seq<Op>)
    requires owner(KEY.run) == r && x != y && 0 < |x| <= 200 && 0 < |y| <= 200 && s == Paired(r, x, y) && a == Told(x, y)
    ensures Within(s, owner, a, r)
  {
    PairedIsConsistent(owner, r, x, y);
    FinalOfPaired(r, x, y);
    PairedHasRoom(owner, r, x, y, Final(s, a));
    PairedIsOpen(r, x, y);
    PairedFits(owner, r, x, y);
  }

  /** Freezing an account and reserving two calls leads to two reports, each of which is taken, whose order decides. */
  lemma UndecidedIsReached(owner: string -> Requirement, r: Requirement, x: Turn, y: Turn)
    requires owner(KEY.run) == r && x != y && 0 < |x| <= 200 && 0 < |y| <= 200
    ensures var s := Execute(Empty(map[]), owner, [Freeze(r, LIMITS), Ask(x), Ask(y)]);
      Unordered(s, r, Tell(x, LARGE), Tell(y, SMALL)) && Within(s, owner, Told(x, y), r) &&
      !NoOrderStops(s, owner, Told(x, y), r) && !EveryOrderStops(s, owner, Told(x, y), r)
  {
    PairedIsReached(owner, r, x, y);
    PairedIsUnordered(r, x, y);
    PairedIsSettleable(owner, r, x, y, Paired(r, x, y), Told(x, y));
    OrderDecides(Paired(r, x, y), owner, r, Tell(x, LARGE), Tell(y, SMALL));
  }

  lemma ThreeSteps(s: State, owner: string -> Requirement, a: Op, b: Op, c: Op)
    ensures Execute(s, owner, [a, b, c]) == Step(Step(Step(s, owner, a), owner, b), owner, c)
  {
    TwoSteps(Step(s, owner, a), owner, b, c);
    assert [a, b, c][1..] == [b, c];
  }

  lemma TwoSteps(s: State, owner: string -> Requirement, a: Op, b: Op)
    ensures Execute(s, owner, [a, b]) == Step(Step(s, owner, a), owner, b)
  {
    assert [a, b][1..] == [b] && [b][1..] == [];
    assert Execute(Step(s, owner, a), owner, [b]) == Execute(Step(Step(s, owner, a), owner, b), owner, []);
  }

  lemma TwoReports(s: State, owner: string -> Requirement, x: Op, y: Op)
    requires x.Settle? && y.Settle?
    ensures Execute(s, owner, [x, y]) == AfterSettle(AfterSettle(s, owner, x).0, owner, y).0
  {
    TwoSteps(s, owner, x, y);
  }

  lemma OneOrderStops(s: State, owner: string -> Requirement, r: Requirement, x: Op, y: Op)
    requires Unordered(s, r, x, y)
    ensures StoppedAccount(Execute(s, owner, [x, y]), r) && !StoppedAccount(Execute(s, owner, [y, x]), r)
  {
    TwoReports(s, owner, x, y);
    TwoReports(s, owner, y, x);
    StopDependsOnOrder(s, owner, r, x, y);
  }

  lemma OrderDecides(s: State, owner: string -> Requirement, r: Requirement, x: Op, y: Op)
    requires Unordered(s, r, x, y)
    ensures !NoOrderStops(s, owner, [x, y], r) && !EveryOrderStops(s, owner, [x, y], r)
  {
    OneOrderStops(s, owner, r, x, y);
    BothOrders(s, owner, [x, y], [y, x], r);
  }

  lemma BothOrders(s: State, owner: string -> Requirement, a: seq<Op>, b: seq<Op>, r: Requirement)
    requires SameReports(a, b) && StoppedAccount(Execute(s, owner, a), r) && !StoppedAccount(Execute(s, owner, b), r)
    ensures !NoOrderStops(s, owner, a, r) && !EveryOrderStops(s, owner, a, r)
  {
    assert SameReports(a, a);
  }
}
