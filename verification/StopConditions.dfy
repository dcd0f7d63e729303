/** The exact conditions under which no order, or every order, of usage reports stops an account that is
    open, within its limits or not (apps/server/src/budget_store.rs: settle). */
module StopConditions {
  import opened Options
  import opened Totals
  import opened Budget
  import opened BudgetStore
  import opened LateSettlement
  import opened StopOrders

  // ---------------------------------------------------------------- reports of other accounts

  /** The account has the same calls and holds. */
  predicate SameFor(s: State, t: State, r: Requirement) {
    t.holds == s.holds && CallsOf(t, r) == CallsOf(s, r) && forall c :: c in CallsOf(s, r) ==> t.calls[c] == s.calls[c]
  }

  lemma SameForBalance(s: State, t: State, owner: string -> Requirement, r: Requirement)
    requires SameFor(s, t, r)
    ensures UsedAmount(t, r) == UsedAmount(s, r) && Exposure(t, owner, r) == Exposure(s, owner, r)
    ensures forall d: Dimension :: Held(t, owner, r, d) == Held(s, owner, r, d)
  {
    assert HoldsOf(t, owner, r) == HoldsOf(s, owner, r);
    forall d: Dimension ensures Used(t, r, d) == Used(s, r, d) && Exposed(t, owner, r, d) == Exposed(s, owner, r, d) {
      SameParts(s, t, owner, r, d);
    }
  }

  lemma SameForEnded(s: State, t: State, final: map<CallId, Usage>, r: Requirement)
    requires SameFor(s, t, r) && t.calls.Keys == s.calls.Keys
    ensures SameFor(Ended(s, final), Ended(t, final), r)
  {
    var e, f := Ended(s, final), Ended(t, final);
    forall c ensures c in CallsOf(f, r) <==> c in CallsOf(e, r) {
      assert c in CallsOf(t, r) <==> c in CallsOf(s, r);
    }
  }

  lemma SameForRoom(s: State, t: State, owner: string -> Requirement, final: map<CallId, Usage>, r: Requirement, limits: Amount)
    requires SameFor(s, t, r) && t.calls.Keys == s.calls.Keys && RoomForPeaks(s, owner, final, r, limits)
    ensures RoomForPeaks(t, owner, final, r, limits)
  {
    SameForBalance(s, t, owner, r);
    SameForEnded(s, t, final, r);
    SameForBalance(Ended(s, final), Ended(t, final), owner, r);
    forall d: Dimension ensures PeakFits(t, owner, final, r, limits, d) {
      assert PeakFits(s, owner, final, r, limits, d);
      assert Peaks(t, final, r, d) == Peaks(s, final, r, d);
    }
  }

  /** Both stores know the same calls, and those of the account and its limits are alike. */
  predicate Alike(s: State, t: State, r: Requirement) {
    SameCalls(s, t) && SameFor(s, t, r) && SameLimits(s, t, r)
  }

  lemma NextKeepsCalls(s: State, owner: string -> Requirement, ops: seq<Op>, final: map<CallId, Usage>, r: Requirement) returns (t: State)
    requires Takeable(s, owner, ops, final) && ops != [] && r in s.accounts
    ensures t == Step(s, owner, ops[0]) && Takeable(t, owner, ops[1..], final) && SameCalls(s, t) && t.holds == s.holds && SameLimits(s, t, r)
    ensures ops[0].Settle? && Addressed(s, ops[0]) && t.calls == Merged(s, ops[0]).calls
  {
    t := NextIsTaken(s, owner, ops, final);
    FirstReportStops(s, owner, ops, final, r);
  }

  lemma OtherIsAlike(s: State, owner: string -> Requirement, ops: seq<Op>, final: map<CallId, Usage>, r: Requirement)
    requires Takeable(s, owner, ops, final) && ops != [] && r in s.accounts && !OnAccount(s, ops[0], r)
    ensures Alike(s, Step(s, owner, ops[0]), r)
  {
    var t := NextKeepsCalls(s, owner, ops, final, r);
  }

  lemma AlikeTransitive(s: State, t: State, u: State, r: Requirement)
    requires Alike(s, t, r) && Alike(t, u, r)
    ensures Alike(s, u, r)
  {
  }

  /** The same report does the same to accounts that are alike. */
  lemma NextAreAlike(s: State, u: State, owner: string -> Requirement, p: seq<Op>, q: seq<Op>, final: map<CallId, Usage>, r: Requirement)
    requires Alike(s, u, r) && p != [] && q != [] && p[0] == q[0]
    requires Takeable(s, owner, p, final) && Takeable(u, owner, q, final)
    ensures Alike(Step(s, owner, p[0]), Step(u, owner, q[0]), r)
  {
    var t := NextKeepsCalls(s, owner, p, final, r);
    var v := NextKeepsCalls(u, owner, q, final, r);
    MergedAlike(s, u, p[0], r);
    AlikeByCalls(Merged(s, p[0]), Merged(u, p[0]), t, v, r);
  }

  lemma AlikeByCalls(m: State, n: State, t: State, v: State, r: Requirement)
    requires SameCalls(m, n) && SameFor(m, n, r) && t.calls == m.calls && v.calls == n.calls && t.holds == m.holds && v.holds == n.holds
    ensures SameCalls(t, v) && SameFor(t, v, r)
  {
    assert CallsOf(t, r) == CallsOf(m, r) && CallsOf(v, r) == CallsOf(n, r);
  }

  lemma MergedAlike(s: State, u: State, op: Op, r: Requirement)
    requires Alike(s, u, r) && op.Settle? && Addressed(s, op) && Addressed(u, op)
    ensures SameCalls(Merged(s, op), Merged(u, op)) && SameFor(Merged(s, op), Merged(u, op), r)
  {
    var m, n := Merged(s, op), Merged(u, op);
    forall c ensures c in CallsOf(n, r) <==> c in CallsOf(m, r) { assert c in CallsOf(u, r) <==> c in CallsOf(s, r); }
    forall c | c in CallsOf(m, r) ensures n.calls[c] == m.calls[c] { assert c in CallsOf(s, r); }
  }

  // ---------------------------------------------------------------- one report, then the others

  lemma JoinTwice(u: Usage, a: seq<Op>, op: Op, c: CallId)
    requires (forall p :: p in a ==> p.Settle?) && op in a
    ensures JoinAll(if IdOf(op) == c then u.Merge(op.usage) else u, Reports(a, c)) == JoinAll(u, Reports(a, c))
  {
    var b := [op] + a;
    assert b[1..] == a;
    JoinFirst(u, b, c);
    forall e ensures e in Reports(b, c) <==> e in Reports(a, c) {
      ReportsAreTheEvents(a, c, e);
      ReportsAreTheEvents(b, c, e);
    }
    OrderAndDuplicatesDoNotMatter(u, Reports(b, c), Reports(a, c));
  }

  lemma FinalStays(s: State, t: State, a: seq<Op>, op: Op)
    requires (forall p :: p in a ==> p.Settle?) && op in a && Addressed(s, op) && t.calls == Merged(s, op).calls
    ensures Final(t, a) == Final(s, a)
  {
    forall c | c in s.calls ensures Final(t, a)[c] == Final(s, a)[c] { JoinTwice(s.calls[c].usage, a, op, c); }
  }

  /** After one report the others, and that one again, lead to the same end. */
  lemma SettleableNext(s: State, owner: string -> Requirement, a: seq<Op>, op: Op, r: Requirement) returns (t: State)
    requires Settleable(s, owner, a, r) && op in a
    ensures t == Step(s, owner, op) && SameLimits(s, t, r) && SameCalls(s, t) && t.holds == s.holds
    ensures (forall p :: p in a ==> p.Settle?) && Final(t, a) == Final(s, a) && Takeable(t, owner, a, Final(s, a))
    ensures Addressed(s, op) && t.calls == Merged(s, op).calls
    ensures !StoppedAccount(t, r) ==> Settleable(t, owner, a, r)
    ensures StoppedAccount(t, r) <==> OnAccount(s, op, r) && (op.groupExhausted || OverLimit(t, owner, r))
  {
    var b := [op] + a;
    SettleableIsTakeable(s, owner, a, b, r);
    t := NextKeepsCalls(s, owner, b, Final(s, a), r);
    assert b[1..] == a;
    FinalStays(s, t, a, op);
    FirstReportStops(s, owner, b, Final(s, a), r);
  }

  lemma StoppedNext(s: State, owner: string -> Requirement, a: seq<Op>, op: Op, b: seq<Op>, r: Requirement)
    requires (forall p :: p in a ==> p.Settle?) && op in a && SameReports(a, b)
    ensures SameReports(a, [op] + b) && Execute(s, owner, [op] + b) == Execute(Step(s, owner, op), owner, b)
    ensures StoppedAccount(Step(s, owner, op), r) ==> StoppedAccount(Execute(s, owner, [op] + b), r)
  {
    assert ([op] + b)[1..] == b;
    ReportsKeep(Step(s, owner, op), owner, b, r);
  }

  // ---------------------------------------------------------------- no order stops

  /** After whichever report of the account comes first, its peaks fit. */
  ghost predicate RoomAfterEach(s: State, owner: string -> Requirement, a: seq<Op>, final: map<CallId, Usage>, r: Requirement, limits: Amount) {
    forall op :: op in a && OnAccount(s, op, r) ==> RoomForPeaks(Step(s, owner, op), owner, final, r, limits)
  }

  lemma RoomIsNotOver(t: State, owner: string -> Requirement, final: map<CallId, Usage>, r: Requirement)
    requires ValidCalls(t, owner) && Approaches(t, final) && r in t.accounts && RoomForPeaks(t, owner, final, r, t.accounts[r].limits)
    ensures !OverLimit(t, owner, r)
  {
    StartsBetween(t, owner, final);
    BetweenIsNotOver(t, t, owner, final, r, t.accounts[r].limits, UsedAmount(t, r), Exposure(t, owner, r), UsedAmount(Ended(t, final), r));
  }

  lemma OpenFromHere(t: State, owner: string -> Requirement, ops: seq<Op>, final: map<CallId, Usage>, r: Requirement)
    requires Takeable(t, owner, ops, final) && r in t.accounts && !t.accounts[r].exhausted
    requires RoomForPeaks(t, owner, final, r, t.accounts[r].limits) && NoGroupStops(t.calls, ops, r)
    ensures !StoppedAccount(Execute(t, owner, ops), r)
  {
    StartsBetween(t, owner, final);
    NeverStops(t, t, owner, ops, final, r, t.accounts[r].limits);
  }

  lemma NoGroupStopsAlike(s: State, t: State, a: seq<Op>, ops: seq<Op>, r: Requirement)
    requires NoGroupStops(s.calls, a, r) && SameCalls(s, t) && forall op :: op in ops ==> op in a
    ensures NoGroupStops(t.calls, ops, r)
  {
  }

  /** `u` is `s` after reports of other accounts. */
  lemma {:induction false} RoomAfterEachIsEnough(s: State, u: State, owner: string -> Requirement, a: seq<Op>, ops: seq<Op>,
                                                 final: map<CallId, Usage>, r: Requirement)
    requires Takeable(s, owner, a, final) && Takeable(u, owner, ops, final) && Alike(s, u, r) && (forall op :: op in ops ==> op in a)
    requires !u.accounts[r].exhausted && NoGroupStops(s.calls, a, r) && RoomAfterEach(s, owner, a, final, r, s.accounts[r].limits)
    ensures !StoppedAccount(Execute(u, owner, ops), r)
    decreases |ops|
  {
    if ops != [] {
      var v := NextKeepsCalls(u, owner, ops, final, r);
      FirstReportStops(u, owner, ops, final, r);
      assert ops[0] in a;
      if OnAccount(u, ops[0], r) {
        FirstOfTheAccount(s, u, owner, a, ops, final, r);
        NoGroupStopsAlike(s, v, a, ops[1..], r);
        OpenFromHere(v, owner, ops[1..], final, r);
      } else {
        OtherIsAlike(u, owner, ops, final, r);
        AlikeTransitive(s, u, v, r);
        RoomAfterEachIsEnough(s, v, owner, a, ops[1..], final, r);
      }
    }
  }

  lemma FirstOfTheAccount(s: State, u: State, owner: string -> Requirement, a: seq<Op>, ops: seq<Op>, final: map<CallId, Usage>, r: Requirement)
    requires Takeable(s, owner, a, final) && Takeable(u, owner, ops, final) && Alike(s, u, r) && ops != [] && ops[0] in a
    requires OnAccount(u, ops[0], r) && NoGroupStops(s.calls, a, r) && RoomAfterEach(s, owner, a, final, r, s.accounts[r].limits)
    ensures var v := Step(u, owner, ops[0]);
      OnAccount(s, ops[0], r) && !ops[0].groupExhausted && Takeable(v, owner, ops[1..], final) && SameLimits(s, v, r) &&
      SameCalls(s, v) && RoomForPeaks(v, owner, final, r, s.accounts[r].limits) && !OverLimit(v, owner, r)
  {
    var op := ops[0];
    SomeAreTakeable(s, owner, a, [op], final);
    var v := NextKeepsCalls(u, owner, ops, final, r);
    var w := NextKeepsCalls(s, owner, [op], final, r);
    NextAreAlike(s, u, owner, [op], ops, final, r);
    SameForRoom(w, v, owner, final, r, s.accounts[r].limits);
    RoomIsNotOver(v, owner, final, r);
  }

  /** A first report after which the peaks do not fit can be continued so that the account stops. */
  lemma NoRoomAfterOneStops(s: State, owner: string -> Requirement, a: seq<Op>, op: Op, r: Requirement) returns (b: seq<Op>)
    requires Settleable(s, owner, a, r) && op in a && OnAccount(s, op, r)
    requires !RoomForPeaks(Step(s, owner, op), owner, Final(s, a), r, s.accounts[r].limits)
    ensures SameReports(a, b) && StoppedAccount(Execute(s, owner, b), r)
  {
    var t := SettleableNext(s, owner, a, op, r);
    b := a;
    if !StoppedAccount(t, r) {
      NoOrderStopsWithin(t, owner, a, r);
      b :| SameReports(a, b) && StoppedAccount(Execute(t, owner, b), r);
    }
    StoppedNext(s, owner, a, op, b, r);
    b := [op] + b;
  }

  /** No order of the reports stops an open account exactly when no report of it says its group is
      exhausted, its final use does not exhaust it, and the peaks of its calls and what repairs hold fit
      its limits together: from the start, or, when it starts over them, after whichever of its reports
      comes first. */
  lemma NoOrderStopsExactly(s: State, owner: string -> Requirement, a: seq<Op>, r: Requirement)
    requires Settleable(s, owner, a, r)
    ensures var limits, final := s.accounts[r].limits, Final(s, a);
      NoOrderStops(s, owner, a, r) <==>
        NoGroupStops(s.calls, a, r) &&
        if OverLimit(s, owner, r) then RoomAfterEach(s, owner, a, final, r, limits) else RoomForPeaks(s, owner, final, r, limits)
  {
    var limits, final := s.accounts[r].limits, Final(s, a);
    if !OverLimit(s, owner, r) {
      NoOrderStopsWithin(s, owner, a, r);
    } else if !NoGroupStops(s.calls, a, r) {
      var op :| op in a && OnAccount(s, op, r) && op.groupExhausted;
      GroupStops(s, owner, a, op, r);
      assert SameReports(a, [op] + a);
    } else if !RoomAfterEach(s, owner, a, final, r, limits) {
      var op :| op in a && OnAccount(s, op, r) && !RoomForPeaks(Step(s, owner, op), owner, final, r, limits);
      var b := NoRoomAfterOneStops(s, owner, a, op, r);
    } else {
      forall b: seq<Op> | SameReports(a, b) ensures !StoppedAccount(Execute(s, owner, b), r) {
        SettleableIsTakeable(s, owner, a, b, r);
        SameCallsItself(s);
        RoomAfterEachIsEnough(s, s, owner, a, b, final, r);
      }
    }
  }

  lemma SameCallsItself(s: State)
    ensures SameCalls(s, s)
  {
  }

  // ---------------------------------------------------------------- every order stops

  /** The final charge of the call is nowhere more than the present one. */
  predicate Falls(call: Call, final: Usage) { forall d: Dimension :: Natural(final.Known().At(d)) <= ChargedPart(call, d) }

  predicate Rises(call: Call, final: Usage) { forall d: Dimension :: ChargedPart(call, d) <= Natural(final.Known().At(d)) }

  /** A reservation that will be settled is too large in every dimension or in none. */
  predicate Untraded(call: Call, final: Usage) {
    call.usage.Settled() || !final.Settled() || Falls(call, final) || Rises(call, final)
  }

  predicate AllUntraded(s: State, final: map<CallId, Usage>, r: Requirement) {
    forall c :: c in CallsOf(s, r) && c in final ==> Untraded(s.calls[c], final[c])
  }

  lemma UntradedStays(before: Call, now: Call, final: Usage)
    requires before.usage.Valid() && OnTheWay(before, now, final) && final.Valid() && before.reserved.Positive() && before.reserved.turns == 1
    requires Untraded(before, final)
    ensures Untraded(now, final)
  {
    if !now.usage.Settled() && final.Settled() {
      forall d: Dimension ensures ChargedPart(before, d) <= ChargedPart(now, d) && (Rises(before, final) ==> ChargedPart(now, d) <= Natural(final.Known().At(d))) {
        KnownGrows(before.usage, now.usage, d);
        KnownGrows(now.usage, final, d);
        ChargeCovers(before.usage, before.reserved, d);
        ChargeCovers(now.usage, now.reserved, d);
      }
      if Falls(before, final) { assert Falls(now, final); } else { assert Rises(now, final); }
    }
  }

  lemma AllUntradedNext(s: State, t: State, owner: string -> Requirement, op: Op, final: map<CallId, Usage>, r: Requirement)
    requires ValidCalls(s, owner) && ValidCalls(t, owner) && Approaches(s, final) && AllUntraded(s, final, r)
    requires op.Settle? && Addressed(s, op) && t.calls == Merged(s, op).calls && Below(op.usage, final[IdOf(op)])
    ensures AllUntraded(t, final, r)
  {
    forall c | c in CallsOf(t, r) && c in final ensures Untraded(t.calls[c], final[c]) {
      assert c in CallsOf(s, r) && ValidCall(c, s.calls[c], owner, s.accounts) && ValidCall(c, t.calls[c], owner, t.accounts);
      MergeIsJoin(s.calls[c].usage, op.usage, final[c]);
      if c == IdOf(op) { UntradedStays(s.calls[c], t.calls[c], final[c]); }
    }
  }

  /** The calls whose reports only lower what they are charged. */
  function Falling(s: State, final: map<CallId, Usage>, r: Requirement): set<CallId> {
    set c | c in CallsOf(s, r) && c in final && Falls(s.calls[c], final[c])
  }

  /** A falling call's peak is its present charge; so is that of a call without reports. */
  lemma PeakOfFalling(call: Call, final: Usage, d: Dimension)
    requires call.usage.Valid() && final.Valid() && call.reserved.Positive() && call.reserved.turns == 1
    requires Falls(call, final) || final == call.usage
    ensures Peak(call, final, d) <= ChargedPart(call, d)
  {
    assert Falls(call, final) ==> Natural(final.Known().At(d)) <= ChargedPart(call, d);
    ChargeCovers(call.usage, call.reserved, d);
  }

  /** Once the falling calls are as they end, every peak is the final charge. */
  lemma PeakAfterFalling(before: Call, now: Call, final: Usage, d: Dimension)
    requires before.usage.Valid() && final.Valid() && before.reserved.Positive() && before.reserved.turns == 1
    requires Untraded(before, final) && Below(before.usage, final)
    requires now == if Falls(before, final) then before.(usage := final) else before
    ensures Peak(now, final, d) <= ChargedPart(before.(usage := final), d)
  {
    KnownGrows(before.usage, final, d);
    ChargeCovers(before.usage, before.reserved, d);
    ChargeCovers(final, before.reserved, d);
    assert Rises(before, final) ==> ChargedPart(before, d) <= Natural(final.Known().At(d));
  }

  lemma FinalOfSome(s: State, a: seq<Op>, ids: set<CallId>, c: CallId)
    requires (forall op :: op in a ==> op.Settle?) && c in s.calls
    ensures Final(s, Only(a, ids))[c] == if c in ids then Final(s, a)[c] else s.calls[c].usage
  {
    OnlyReports(a, ids, c);
  }

  lemma RoomBelow(s: State, owner: string -> Requirement, low: map<CallId, Usage>, final: map<CallId, Usage>)
    requires Room(s, owner, final) && Approaches(s, low) && Approaches(s, final)
    requires forall c :: c in s.calls ==> Below(low[c], final[c])
    ensures Room(s, owner, low)
  {
    forall r, d ensures RoomFor(s, owner, low, r, d) {
      assert RoomFor(s, owner, final, r, d);
      var a, b := Ceilings(s.calls, low, CallsOf(s, r), d), Ceilings(s.calls, final, CallsOf(s, r), d);
      forall c | c in a ensures c in b && a[c] <= b[c] { KnownGrows(low[c], final[c], d); }
      TotalMonotone(a, b);
    }
  }

  /** The reports of some calls alone can all be taken, towards their own end. */
  lemma SomeEndBelow(s: State, owner: string -> Requirement, a: seq<Op>, ids: set<CallId>, r: Requirement)
    requires Settleable(s, owner, a, r)
    ensures (forall op :: op in a ==> op.Settle?) && Approaches(s, Final(s, a))
    ensures var some, final, low := Only(a, ids), Final(s, a), Final(s, Only(a, ids));
      Takeable(s, owner, some, low) && forall c :: c in s.calls ==> Below(low[c], final[c])
  {
    SettleableIsTakeable(s, owner, a, a, r);
    var some, final := Only(a, ids), Final(s, a);
    SomeAreTakeable(s, owner, a, some, final);
    FinalIsAbove(s, owner, some);
    var low := Final(s, some);
    forall c | c in s.calls ensures Below(low[c], final[c]) {
      FinalOfSome(s, a, ids, c);
      MergeIsJoin(final[c], final[c], UNUSED);
    }
    RoomBelow(s, owner, low, final);
  }

  lemma FallingFits(s: State, owner: string -> Requirement, a: seq<Op>, r: Requirement, low: map<CallId, Usage>, d: Dimension)
    requires Within(s, owner, a, r) && (forall op :: op in a ==> op.Settle?) && low == Final(s, Only(a, Falling(s, Final(s, a), r)))
    requires Approaches(s, low)
    ensures PeakFits(s, owner, low, r, s.accounts[r].limits, d)
  {
    var peaks, charged := Peaks(s, low, r, d), ChargedParts(s.calls, CallsOf(s, r), d);
    forall c | c in peaks ensures c in charged && peaks[c] <= charged[c] {
      assert ValidCall(c, s.calls[c], owner, s.accounts);
      FinalOfSome(s, a, Falling(s, Final(s, a), r), c);
      PeakOfFalling(s.calls[c], low[c], d);
    }
    TotalMonotone(peaks, charged);
    FitsIn(Exposure(s, owner, r), s.accounts[r].limits, d);
  }

  lemma FitsIn(exposure: Amount, limits: Amount, d: Dimension)
    requires exposure.Fits(limits)
    ensures exposure.At(d) <= limits.At(d)
  {
  }

  lemma UseGrows(s: State, owner: string -> Requirement, low: map<CallId, Usage>, final: map<CallId, Usage>, r: Requirement, d: Dimension)
    requires Approaches(s, low) && Approaches(s, final) && forall c :: c in s.calls ==> Below(low[c], final[c])
    ensures Used(Ended(s, low), r, d) <= Used(Ended(s, final), r, d)
  {
    var e, f := Ended(s, low), Ended(s, final);
    var a, b := KnownParts(e.calls, CallsOf(e, r), d), KnownParts(f.calls, CallsOf(f, r), d);
    forall c | c in a ensures c in b && a[c] <= b[c] { KnownGrows(low[c], final[c], d); }
    TotalMonotone(a, b);
  }

  lemma LessIsNotExhausted(less: Amount, more: Amount, limits: Amount)
    requires !more.ExecutionExhausted(limits) && forall d: Dimension :: less.At(d) <= more.At(d)
    ensures !less.ExecutionExhausted(limits)
  {
    assert less.At(Tokens) <= more.At(Tokens) && less.At(Turns) <= more.At(Turns) && less.At(Seconds) <= more.At(Seconds);
  }

  /** The reports of the falling calls alone do not stop an account within its limits. */
  lemma FallingFirst(s: State, owner: string -> Requirement, a: seq<Op>, r: Requirement, some: seq<Op>)
    requires Within(s, owner, a, r) && NoGroupStops(s.calls, a, r) && !OverLimit(Ended(s, Final(s, a)), owner, r)
    requires (forall op :: op in a ==> op.Settle?) && some == Only(a, Falling(s, Final(s, a), r))
    ensures !StoppedAccount(Execute(s, owner, some), r)
  {
    SomeEndBelow(s, owner, a, Falling(s, Final(s, a), r), r);
    FallingHasRoom(s, owner, a, r, Final(s, some));
    NoGroupStopsAmong(s.calls, a, some, r);
    OpenFromHere(s, owner, some, Final(s, some), r);
  }

  lemma NoGroupStopsAmong(calls: map<CallId, Call>, a: seq<Op>, some: seq<Op>, r: Requirement)
    requires NoGroupStops(calls, a, r) && forall op :: op in some ==> op in a
    ensures NoGroupStops(calls, some, r)
  {
  }

  lemma FallingHasRoom(s: State, owner: string -> Requirement, a: seq<Op>, r: Requirement, low: map<CallId, Usage>)
    requires Within(s, owner, a, r) && (forall op :: op in a ==> op.Settle?) && low == Final(s, Only(a, Falling(s, Final(s, a), r)))
    requires Approaches(s, low) && Approaches(s, Final(s, a)) && (forall c :: c in s.calls ==> Below(low[c], Final(s, a)[c]))
    requires !OverLimit(Ended(s, Final(s, a)), owner, r)
    ensures RoomForPeaks(s, owner, low, r, s.accounts[r].limits)
  {
    forall d: Dimension ensures PeakFits(s, owner, low, r, s.accounts[r].limits, d) { FallingFits(s, owner, a, r, low, d); }
    UseOfSome(s, owner, low, Final(s, a), r, s.accounts[r].limits);
  }

  lemma UseOfSome(s: State, owner: string -> Requirement, low: map<CallId, Usage>, final: map<CallId, Usage>, r: Requirement, limits: Amount)
    requires Approaches(s, low) && Approaches(s, final) && (forall c :: c in s.calls ==> Below(low[c], final[c]))
    requires !UsedAmount(Ended(s, final), r).ExecutionExhausted(limits)
    ensures !UsedAmount(Ended(s, low), r).ExecutionExhausted(limits)
  {
    UseAmountGrows(s, owner, low, final, r, UsedAmount(Ended(s, low), r), UsedAmount(Ended(s, final), r));
    LessIsNotExhausted(UsedAmount(Ended(s, low), r), UsedAmount(Ended(s, final), r), limits);
  }

  lemma UseAmountGrows(s: State, owner: string -> Requirement, low: map<CallId, Usage>, final: map<CallId, Usage>, r: Requirement,
                       less: Amount, more: Amount)
    requires Approaches(s, low) && Approaches(s, final) && (forall c :: c in s.calls ==> Below(low[c], final[c]))
    requires less == UsedAmount(Ended(s, low), r) && more == UsedAmount(Ended(s, final), r)
    ensures forall d: Dimension :: less.At(d) <= more.At(d)
  {
    forall d: Dimension ensures less.At(d) <= more.At(d) {
      UseGrows(s, owner, low, final, r, d);
      UsedAt(Ended(s, low), r, d, less);
      UsedAt(Ended(s, final), r, d, more);
    }
  }

  lemma UsedAt(t: State, r: Requirement, d: Dimension, used: Amount)
    requires used == UsedAmount(t, r)
    ensures used.At(d) == Used(t, r, d)
  {
  }

  lemma {:induction false} TakeableAfter(s: State, owner: string -> Requirement, some: seq<Op>, rest: seq<Op>, final: map<CallId, Usage>)
    requires Takeable(s, owner, some + rest, final)
    ensures Takeable(Execute(s, owner, some), owner, rest, final)
    decreases |some|
  {
    if some == [] {
      assert some + rest == rest;
    } else {
      var t := TakeableRest(s, owner, some + rest, final);
      assert (some + rest)[1..] == some[1..] + rest;
      TakeableAfter(t, owner, some[1..], rest, final);
    }
  }

  lemma PeaksAfterFalling(s: State, t: State, owner: string -> Requirement, a: seq<Op>, r: Requirement, d: Dimension)
    requires Within(s, owner, a, r) && (forall op :: op in a ==> op.Settle?) && Approaches(s, Final(s, a)) && AllUntraded(s, Final(s, a), r)
    requires JoinedCalls(s, t, Only(a, Falling(s, Final(s, a), r))) && SameCalls(s, t) && t.holds == s.holds
    ensures Total(Peaks(t, Final(s, a), r, d)) + Held(t, owner, r, d) <= Exposed(Ended(s, Final(s, a)), owner, r, d)
  {
    var final, ids := Final(s, a), Falling(s, Final(s, a), r);
    var e := Ended(s, final);
    SameSums(s, t, owner, r);
    SameSums(s, e, owner, r);
    var peaks, charged := Peaks(t, final, r, d), ChargedParts(e.calls, CallsOf(e, r), d);
    forall c | c in peaks ensures c in charged && peaks[c] <= charged[c] {
      assert ValidCall(c, s.calls[c], owner, s.accounts) && JoinedAt(s.calls[c], t.calls[c], Only(a, ids), c);
      FinalOfSome(s, a, ids, c);
      PeakAfterFalling(s.calls[c], t.calls[c], final[c], d);
    }
    TotalMonotone(peaks, charged);
  }

  lemma RoomAfterFalling(s: State, t: State, owner: string -> Requirement, a: seq<Op>, r: Requirement)
    requires Within(s, owner, a, r) && (forall op :: op in a ==> op.Settle?) && Approaches(s, Final(s, a)) && AllUntraded(s, Final(s, a), r)
    requires JoinedCalls(s, t, Only(a, Falling(s, Final(s, a), r))) && SameCalls(s, t) && t.holds == s.holds
    requires !OverLimit(Ended(s, Final(s, a)), owner, r)
    ensures RoomForPeaks(t, owner, Final(s, a), r, s.accounts[r].limits)
  {
    var final, limits := Final(s, a), s.accounts[r].limits;
    var exposure := Exposure(Ended(s, final), owner, r);
    forall d: Dimension ensures PeakFits(t, owner, final, r, limits, d) {
      PeaksAfterFalling(s, t, owner, a, r, d);
      FitsIn(exposure, limits, d);
      AmountsAt(Ended(s, final), owner, r, d, UsedAmount(Ended(s, final), r), exposure);
    }
    EndedAlike(s, t, owner, a, Only(a, Falling(s, final, r)), r);
  }

  /** Whatever was merged on the way, the end is the same. */
  lemma EndedAlike(s: State, t: State, owner: string -> Requirement, a: seq<Op>, some: seq<Op>, r: Requirement)
    requires (forall op :: op in a ==> op.Settle?) && (forall op :: op in some ==> op.Settle?)
    requires JoinedCalls(s, t, some) && t.holds == s.holds
    ensures var final := Final(s, a);
      Ended(t, final).calls == Ended(s, final).calls && UsedAmount(Ended(t, final), r) == UsedAmount(Ended(s, final), r) &&
      Exposure(Ended(t, final), owner, r) == Exposure(Ended(s, final), owner, r)
  {
    var final := Final(s, a);
    forall c | c in s.calls ensures t.calls[c].(usage := final[c]) == s.calls[c].(usage := final[c]) {
      assert JoinedAt(s.calls[c], t.calls[c], some, c);
    }
    SameBalance(Ended(s, final), Ended(t, final), owner, r);
  }

  /** Falling calls first, then the others: with no trade between dimensions this order stops the account only if the end does. */
  lemma FallingThenAll(s: State, owner: string -> Requirement, a: seq<Op>, r: Requirement) returns (b: seq<Op>)
    requires Within(s, owner, a, r) && NoGroupStops(s.calls, a, r)
    requires AllUntraded(s, Final(s, a), r) && !OverLimit(Ended(s, Final(s, a)), owner, r)
    ensures SameReports(a, b) && !StoppedAccount(Execute(s, owner, b), r)
  {
    var final := Final(s, a);
    var some := Only(a, Falling(s, final, r));
    b := some + a;
    SettleableIsTakeable(s, owner, a, b, r);
    SomeAreTakeable(s, owner, a, some, final);
    FallingFirst(s, owner, a, r, some);
    AllReportsAreTaken(s, owner, some, final);
    ReportsKeep(s, owner, some, r);
    var t := Execute(s, owner, some);
    RoomAfterFalling(s, t, owner, a, r);
    TakeableAfter(s, owner, some, a, final);
    NoGroupStopsAlike(s, t, a, a, r);
    OpenFromHere(t, owner, a, final, r);
    ExecuteBoth(s, owner, some, a);
  }

  /** The account is over its limits here. */
  ghost predicate IsOver(t: State, owner: string -> Requirement, r: Requirement) { r in t.accounts && OverLimit(t, owner, r) }

  /** Whichever report of the account comes first, the account is over its limits after it. */
  ghost predicate EachOver(s: State, owner: string -> Requirement, a: seq<Op>, r: Requirement) {
    forall op :: op in a && OnAccount(s, op, r) ==> IsOver(Step(s, owner, op), owner, r)
  }

  lemma {:induction false} GroupStopsAnywhere(s: State, owner: string -> Requirement, ops: seq<Op>, final: map<CallId, Usage>, r: Requirement)
    requires Takeable(s, owner, ops, final) && r in s.accounts && !NoGroupStops(s.calls, ops, r)
    ensures StoppedAccount(Execute(s, owner, ops), r)
    decreases |ops|
  {
    var t := NextKeepsCalls(s, owner, ops, final, r);
    FirstReportStops(s, owner, ops, final, r);
    if OnAccount(s, ops[0], r) && ops[0].groupExhausted {
      ReportsKeep(t, owner, ops[1..], r);
    } else {
      GroupLater(s, t, ops, r);
      GroupStopsAnywhere(t, owner, ops[1..], final, r);
    }
  }

  lemma GroupLater(s: State, t: State, ops: seq<Op>, r: Requirement)
    requires ops != [] && SameCalls(s, t) && !NoGroupStops(s.calls, ops, r) && !(OnAccount(s, ops[0], r) && ops[0].groupExhausted)
    ensures !NoGroupStops(t.calls, ops[1..], r)
  {
    var op :| op in ops && OnAccount(s, op, r) && op.groupExhausted;
    assert op in ops[1..];
  }

  lemma ReportedLater(u: State, v: State, ops: seq<Op>, r: Requirement)
    requires ops != [] && SameCalls(u, v) && Reported(u, ops, r) && !OnAccount(u, ops[0], r)
    ensures Reported(v, ops[1..], r)
  {
    var op :| op in ops && OnAccount(u, op, r);
    assert op in ops[1..] && OnAccount(v, op, r);
  }

  lemma FirstIsOver(s: State, u: State, owner: string -> Requirement, a: seq<Op>, ops: seq<Op>, final: map<CallId, Usage>, r: Requirement)
    requires Takeable(s, owner, a, final) && Takeable(u, owner, ops, final) && Alike(s, u, r) && ops != [] && ops[0] in a
    requires OnAccount(u, ops[0], r) && EachOver(s, owner, a, r)
    ensures StoppedAccount(Step(u, owner, ops[0]), r)
  {
    SomeAreTakeable(s, owner, a, [ops[0]], final);
    NextAreAlike(s, u, owner, [ops[0]], ops, final, r);
    SameForBalance(Step(s, owner, ops[0]), Step(u, owner, ops[0]), owner, r);
    FirstReportStops(u, owner, ops, final, r);
  }

  lemma {:induction false} FirstOfAccountStops(s: State, u: State, owner: string -> Requirement, a: seq<Op>, ops: seq<Op>,
                                               final: map<CallId, Usage>, r: Requirement)
    requires Takeable(s, owner, a, final) && Takeable(u, owner, ops, final) && Alike(s, u, r) && (forall op :: op in ops ==> op in a)
    requires EachOver(s, owner, a, r) && Reported(u, ops, r)
    ensures StoppedAccount(Execute(u, owner, ops), r)
    decreases |ops|
  {
    var v := NextKeepsCalls(u, owner, ops, final, r);
    assert ops[0] in a;
    if OnAccount(u, ops[0], r) {
      FirstIsOver(s, u, owner, a, ops, final, r);
      ReportsKeep(v, owner, ops[1..], r);
    } else {
      OtherIsAlike(u, owner, ops, final, r);
      ReportedLater(u, v, ops, r);
      AlikeTransitive(s, u, v, r);
      FirstOfAccountStops(s, v, owner, a, ops[1..], final, r);
    }
  }

  lemma EndedIsOver(s: State, owner: string -> Requirement, a: seq<Op>, b: seq<Op>, r: Requirement)
    requires Settleable(s, owner, a, r) && SameReports(a, b)
    ensures IsOver(Execute(s, owner, b), owner, r) <==> IsOver(Ended(s, Final(s, a)), owner, r)
  {
    EndedBalance(s, owner, a, b, r);
  }

  lemma TheseStop(s: State, owner: string -> Requirement, a: seq<Op>, b: seq<Op>, r: Requirement)
    requires Settleable(s, owner, a, r) && SameReports(a, b) && Reported(s, a, r)
    requires !NoGroupStops(s.calls, a, r) || IsOver(Ended(s, Final(s, a)), owner, r) || EachOver(s, owner, a, r)
    ensures StoppedAccount(Execute(s, owner, b), r)
  {
    SettleableIsTakeable(s, owner, a, b, r);
    assert Reported(s, b, r);
    if !NoGroupStops(s.calls, a, r) {
      GroupStopsAnywhere(s, owner, b, Final(s, a), r);
    } else if IsOver(Ended(s, Final(s, a)), owner, r) {
      EndedIsOver(s, owner, a, b, r);
      OverAfterwardsStops(s, owner, b, Final(s, a), r);
    } else {
      SameCallsItself(s);
      FirstOfAccountStops(s, s, owner, a, b, Final(s, a), r);
    }
  }

  lemma UnreportedStays(s: State, owner: string -> Requirement, a: seq<Op>, r: Requirement)
    requires Settleable(s, owner, a, r) && !Reported(s, a, r)
    ensures !StoppedAccount(Execute(s, owner, a), r)
  {
    SettleableIsTakeable(s, owner, a, a, r);
    SameCallsItself(s);
    RoomAfterEachIsEnough(s, s, owner, a, a, Final(s, a), r);
  }

  lemma SomeOrderStaysOpen(s: State, owner: string -> Requirement, a: seq<Op>, r: Requirement) returns (b: seq<Op>)
    requires Settleable(s, owner, a, r) && AllUntraded(s, Final(s, a), r) && NoGroupStops(s.calls, a, r)
    requires !IsOver(Ended(s, Final(s, a)), owner, r) && !EachOver(s, owner, a, r)
    ensures SameReports(a, b) && !StoppedAccount(Execute(s, owner, b), r)
  {
    if !IsOver(s, owner, r) {
      b := FallingThenAll(s, owner, a, r);
    } else {
      var op :| op in a && OnAccount(s, op, r) && !IsOver(Step(s, owner, op), owner, r);
      var t := SettleableNext(s, owner, a, op, r);
      StillUntraded(s, t, owner, a, op, r);
      b := FallingThenAll(t, owner, a, r);
      StoppedNext(s, owner, a, op, b, r);
      b := [op] + b;
    }
  }

  lemma StillUntraded(s: State, t: State, owner: string -> Requirement, a: seq<Op>, op: Op, r: Requirement)
    requires Settleable(s, owner, a, r) && op in a && AllUntraded(s, Final(s, a), r) && NoGroupStops(s.calls, a, r)
    requires !IsOver(Ended(s, Final(s, a)), owner, r)
    requires op.Settle? && Addressed(s, op) && t.calls == Merged(s, op).calls && t.holds == s.holds && SameCalls(s, t) && SameLimits(s, t, r)
    requires Takeable(t, owner, a, Final(s, a))
    ensures AllUntraded(t, Final(s, a), r) && NoGroupStops(t.calls, a, r) && !IsOver(Ended(t, Final(s, a)), owner, r)
  {
    var final := Final(s, a);
    SettleableIsTakeable(s, owner, a, a, r);
    AllUntradedNext(s, t, owner, op, final, r);
    NoGroupStopsAlike(s, t, a, a, r);
    var e, f := Ended(s, final), Ended(t, final);
    forall c | c in s.calls ensures t.calls[c].(usage := final[c]) == s.calls[c].(usage := final[c]) { }
    SameBalance(e, f, owner, r);
  }

  /** Every order of the reports stops an open account exactly when one of them is of the account and
      one of those says its group is exhausted, or the final balance is over its limits, or whichever of
      them comes first leaves it over them; provided no reservation is too large in one dimension and
      too small in another. */
  lemma EveryOrderStopsExactly(s: State, owner: string -> Requirement, a: seq<Op>, r: Requirement)
    requires Settleable(s, owner, a, r) && AllUntraded(s, Final(s, a), r)
    ensures EveryOrderStops(s, owner, a, r) <==>
      Reported(s, a, r) && (!NoGroupStops(s.calls, a, r) || IsOver(Ended(s, Final(s, a)), owner, r) || EachOver(s, owner, a, r))
  {
    if !Reported(s, a, r) {
      UnreportedStays(s, owner, a, r);
      assert SameReports(a, a);
    } else if !NoGroupStops(s.calls, a, r) || IsOver(Ended(s, Final(s, a)), owner, r) || EachOver(s, owner, a, r) {
      forall b: seq<Op> | SameReports(a, b) ensures StoppedAccount(Execute(s, owner, b), r) { TheseStop(s, owner, a, b, r); }
    } else {
      var b := SomeOrderStaysOpen(s, owner, a, r);
    }
  }

  /** Traded or not, a final balance over the limits stops the account in every order, if any report is of it. */
  lemma FinalOverAlwaysStops(s: State, owner: string -> Requirement, a: seq<Op>, r: Requirement)
    requires Settleable(s, owner, a, r) && IsOver(Ended(s, Final(s, a)), owner, r)
    ensures EveryOrderStops(s, owner, a, r) <==> Reported(s, a, r)
  {
    if !Reported(s, a, r) {
      UnreportedStays(s, owner, a, r);
      assert SameReports(a, a);
    } else {
      forall b: seq<Op> | SameReports(a, b) ensures StoppedAccount(Execute(s, owner, b), r) { TheseStop(s, owner, a, b, r); }
    }
  }
}
