/** How long a pull request proof and the main publication admitted from it stay pinned
    (tools/remote-gate/evidence_admission.py: reserve, settle, sweep, merge_source;
    tools/install_remote_gate.py: window_bound). Times are milliseconds, GitHub's answers inputs. */
module MergeWindow {
  import opened Options
  import opened Json
  import opened EvidencePins

  /** What GitHub says about a pull request. */
  datatype Answer = Merged(at: int) | Open(head: string) | Closed

  function Member(v: Value, name: string): Value { if v.Obj? && name in v.fields then v.fields[name] else Null }

  predicate OfPullRequest(pin: Pin) { Member(pin.subject, "pull_request") != Null }

  // ---------------------------------------------------------------- the sweep between attempts

  /** A write the sweep may issue: hand a merged proof over to its main verification, or drop a pin. */
  predicate SweepWrite(op: Op, answers: string -> Answer, window: int) {
    (op.Release? && |op.ids| == 1) || (op.Extend? && answers(op.id).Merged? && op.until == answers(op.id).at + window)
  }

  /** What the sweep leaves of one pin. */
  predicate Settled(before: Pin, after: Pin, answer: Answer, window: int) {
    IsConfirmed(before) &&
    if !OfPullRequest(before) then after == before
    else match answer
      case Merged(at) => after == before.(expiresAt := Max(before.expiresAt, at + window))
      case Open(head) => after == before && Member(before.subject, "head") == Str(head)
      case Closed => false
  }

  lemma {:induction false} RunOpsOneMore(d: Disk, digest: Value -> string, s: State, ops: seq<Op>, op: Op)
    ensures RunOps(d, {}, digest, s, ops + [op]) == Apply(d, {}, digest, RunOps(d, {}, digest, s, ops), op)
    decreases |ops|
  {
    if ops == [] {
      assert RunOps(d, {}, digest, Apply(d, {}, digest, s, op), []) == Apply(d, {}, digest, s, op);
      assert ops + [op] == [op];
    } else {
      assert (ops + [op])[1..] == ops[1..] + [op];
      RunOpsOneMore(d, digest, Apply(d, {}, digest, s, ops[0]), ops[1..], op);
    }
  }

  /** A pin that ran out before its turn; nothing extends it any more. */
  predicate Lapsed(before: Pin, after: Pin, moment: int) { after == before && before.expiresAt <= moment }

  /** The write settle() or the sweep issues for one live pin, if any. */
  function Decision(k: string, pin: Pin, answer: Answer, window: int, moment: int): Option<Op> {
    if !IsConfirmed(pin) then Some(Release({k}, moment))
    else if !OfPullRequest(pin) then None
    else match answer
      case Merged(at) => Some(Extend(k, at + window, moment))
      case Open(head) => if Member(pin.subject, "head") == Str(head) then None else Some(Release({k}, moment))
      case Closed => Some(Release({k}, moment))
  }

  /** Other pins are as they were, or gone. */
  predicate OnlyChanges(before: map<string, Pin>, after: map<string, Pin>, k: string) {
    forall j :: j in after && j != k ==> j in before && after[j] == before[j]
  }

  ghost function Written(d: Disk, digest: Value -> string, s: State, write: Option<Op>): State {
    if write.None? then s else Apply(d, {}, digest, s, write.value)
  }

  lemma DecisionSettles(d: Disk, digest: Value -> string, s: State, k: string, pin: Pin, answer: Answer, window: int, moment: int)
    requires k in s.pins ==> s.pins[k] == pin
    ensures var write := Decision(k, pin, answer, window, moment);
      var t := Written(d, digest, s, write);
      OnlyChanges(s.pins, t.pins, k) && (write.None? ==> Settled(pin, pin, answer, window)) &&
      (write.Some? && write.value.Release? ==> k !in t.pins) &&
      (write.Some? && write.value.Extend? && Stored(d, {}, digest, s.pins, write.value).Some? ==>
        k in t.pins && Settled(pin, t.pins[k], answer, window)) &&
      (write.Some? && write.value.Extend? && k !in Live(s.pins, moment) ==> t == s)
  {
  }

  /** A confirmed proof is kept: of main always, of a pull request while it is open at that head, and once it is merged. */
  predicate Kept(pin: Pin, answer: Answer) {
    "status" in pin.publication && pin.publication["status"] == Str("confirmed") &&
    (Member(pin.subject, "pull_request") == Null || answer.Merged? || (answer.Open? && Member(pin.subject, "head") == Str(answer.head)))
  }

  /** No other live pin is touched. */
  predicate OthersStay(before: map<string, Pin>, after: map<string, Pin>, k: string, moment: int) {
    forall j :: j in before && j != k && moment < before[j].expiresAt ==> j in after && after[j] == before[j]
  }

  /** The pins after the write for one pin: without it, with a later expiry, or as they were; live ones only after a write. */
  lemma DecisionStores(d: Disk, digest: Value -> string, s: State, k: string, pin: Pin, answer: Answer, window: int, moment: int)
    requires k in s.pins ==> s.pins[k] == pin
    ensures var t := Written(d, digest, s, Decision(k, pin, answer, window, moment));
      var extended := answer.Merged? && Member(pin.subject, "pull_request") != Null && k in s.pins && moment < pin.expiresAt;
      OthersStay(s.pins, t.pins, k, moment) &&
      (!Kept(pin, answer) ==> t.pins == map j | j in s.pins && j != k && moment < s.pins[j].expiresAt :: s.pins[j]) &&
      (Kept(pin, answer) && !extended ==> t == s) &&
      (Kept(pin, answer) && extended ==>
        var expires := if answer.at + window > pin.expiresAt then answer.at + window else pin.expiresAt;
        t.pins == if IntWidth(expires) != IntWidth(pin.expiresAt) then s.pins
          else map j | j in s.pins && moment < s.pins[j].expiresAt :: if j == k then pin.(expiresAt := expires) else s.pins[j])
  {
  }

  method SettlePin(root: PinRoot, ghost d: Disk, ghost digest: Value -> string, k: string, pin: Pin, answer: Answer, window: int, moment: int)
    returns (complete: bool)
    requires k in root.pins ==> root.pins[k] == pin
    modifies root
    ensures root.Contents() == Written(d, digest, old(root.Contents()), Decision(k, pin, answer, window, moment))
    ensures OnlyChanges(old(root.pins), root.pins, k)
    ensures complete && k in root.pins ==> Settled(pin, root.pins[k], answer, window) || Lapsed(pin, root.pins[k], moment)
    ensures OthersStay(old(root.pins), root.pins, k, moment)
    ensures !Kept(pin, answer) ==> complete && root.pins == map j | j in old(root.pins) && j != k && moment < old(root.pins)[j].expiresAt :: old(root.pins)[j]
    ensures Kept(pin, answer) && !(answer.Merged? && Member(pin.subject, "pull_request") != Null && k in old(root.pins) && moment < pin.expiresAt) ==>
      complete && root.pins == old(root.pins)
    ensures Kept(pin, answer) && answer.Merged? && Member(pin.subject, "pull_request") != Null && k in old(root.pins) && moment < pin.expiresAt ==>
      var expires := if answer.at + window > pin.expiresAt then answer.at + window else pin.expiresAt;
      (complete <==> IntWidth(expires) == IntWidth(pin.expiresAt)) &&
      root.pins == if !complete then old(root.pins)
        else map j | j in old(root.pins) && moment < old(root.pins)[j].expiresAt :: if j == k then pin.(expiresAt := expires) else old(root.pins)[j]
  {
    var write := Decision(k, pin, answer, window, moment);
    DecisionSettles(d, digest, root.Contents(), k, pin, answer, window, moment);
    DecisionStores(d, digest, root.Contents(), k, pin, answer, window, moment);
    complete := true;
    if write.Some? {
      if write.value.Release? {
        var dropped := root.ReleasePins(d, {}, digest, write.value.ids, write.value.moment);
      } else {
        var extended := root.ExtendPin(d, {}, digest, write.value.id, write.value.until, write.value.moment);
        complete := extended == Ok(true) || extended == Ok(false);
      }
    }
  }

  /** Every extension among these writes is of a pull request's pin. */
  ghost predicate ExtendsOnlyProofs(d: Disk, current: set<Run>, digest: Value -> string, s: State, ops: seq<Op>)
    decreases |ops|
  {
    ops != [] ==>
      (ops[0].Extend? && ops[0].id in s.pins ==> OfPullRequest(s.pins[ops[0].id])) &&
      ExtendsOnlyProofs(d, current, digest, Apply(d, current, digest, s, ops[0]), ops[1..])
  }

  lemma {:induction false} ExtendsOneMore(d: Disk, digest: Value -> string, s: State, ops: seq<Op>, op: Op)
    requires ExtendsOnlyProofs(d, {}, digest, s, ops)
    requires var t := RunOps(d, {}, digest, s, ops); op.Extend? && op.id in t.pins ==> OfPullRequest(t.pins[op.id])
    ensures ExtendsOnlyProofs(d, {}, digest, s, ops + [op])
    decreases |ops|
  {
    if ops == [] {
      assert (ops + [op])[1..] == [];
    } else {
      assert (ops + [op])[1..] == ops[1..] + [op];
      ExtendsOneMore(d, digest, Apply(d, {}, digest, s, ops[0]), ops[1..], op);
    }
  }

  method SweepPin(root: PinRoot, ghost d: Disk, ghost digest: Value -> string, ghost s: State, ghost done: seq<Op>, k: string, pin: Pin,
                  answers: string -> Answer, window: int, moment: int)
    returns (complete: bool, ghost ops: seq<Op>)
    requires root.Contents() == RunOps(d, {}, digest, s, done) && forall op :: op in done ==> SweepWrite(op, answers, window)
    requires ExtendsOnlyProofs(d, {}, digest, s, done)
    requires k in root.pins ==> root.pins[k] == pin
    modifies root
    ensures root.Contents() == RunOps(d, {}, digest, s, ops) && forall op :: op in ops ==> SweepWrite(op, answers, window)
    ensures ExtendsOnlyProofs(d, {}, digest, s, ops)
    ensures OnlyChanges(old(root.pins), root.pins, k)
    ensures complete && k in root.pins ==> Settled(pin, root.pins[k], answers(k), window) || Lapsed(pin, root.pins[k], moment)
    ensures OthersStay(old(root.pins), root.pins, k, moment)
    ensures k in old(root.pins) && Kept(pin, answers(k)) ==> k in root.pins && root.pins[k].expiresAt >= pin.expiresAt
  {
    ghost var write := Decision(k, pin, answers(k), window, moment);
    ops := done;
    if write.Some? {
      RunOpsOneMore(d, digest, s, done, write.value);
      ExtendsOneMore(d, digest, s, done, write.value);
      ops := done + [write.value];
    }
    complete := SettlePin(root, d, digest, k, pin, answers(k), window, moment);
  }

  /** sweep(): `answers` are GitHub's, `clock(k)` the k-th reading of the time. A pin whose expiry would
      change its printed width stops the sweep. */
  method Sweep(root: PinRoot, ghost d: Disk, ghost digest: Value -> string, answers: string -> Answer, window: int, clock: nat -> int)
    returns (complete: bool, ghost ops: seq<Op>, moment: int)
    requires forall i: nat, j: nat :: i <= j ==> clock(i) <= clock(j)
    modifies root
    ensures root.Contents() == RunOps(d, {}, digest, old(root.Contents()), ops)
    ensures ExtendsOnlyProofs(d, {}, digest, old(root.Contents()), ops)
    ensures forall op :: op in ops ==> SweepWrite(op, answers, window)
    ensures complete ==> forall k :: k in Live(root.pins, moment) && k in Live(old(root.pins), clock(0)) ==>
      Settled(old(root.pins)[k], root.pins[k], answers(k), window)
    ensures complete ==> KeptStay(Live(old(root.pins), clock(0)), root.pins, answers, moment)
  {
    ops := [];
    var live := Live(root.pins, clock(0));
    var left := live.Keys;
    var readings := 1;
    while left != {}
      invariant left <= live.Keys && readings >= 1
      invariant root.Contents() == RunOps(d, {}, digest, old(root.Contents()), ops)
      invariant ExtendsOnlyProofs(d, {}, digest, old(root.Contents()), ops)
      invariant forall op :: op in ops ==> SweepWrite(op, answers, window)
      invariant Swept(live, root.pins, left, answers, window, clock(readings))
      decreases left
    {
      var k :| k in left;
      ghost var before := root.pins;
      complete, ops := SweepPin(root, d, digest, old(root.Contents()), ops, k, live[k], answers, window, clock(readings));
      if !complete { moment := clock(readings); return; }
      SweptByOne(live, before, root.pins, left, k, answers, window, clock(readings), clock(readings + 1));
      left := left - {k};
      readings := readings + 1;
    }
    complete, moment := true, clock(readings);
  }

  /** A live proof that its answer keeps is still there, unless it has run out. */
  predicate KeptStay(live: map<string, Pin>, pins: map<string, Pin>, answers: string -> Answer, moment: int) {
    forall k :: k in live && Kept(live[k], answers(k)) && moment < live[k].expiresAt ==> k in pins && pins[k].expiresAt >= live[k].expiresAt
  }

  /** A sweep that still has these pins before it. */
  predicate Swept(live: map<string, Pin>, pins: map<string, Pin>, left: set<string>, answers: string -> Answer, window: int, moment: int) {
    (forall k :: k in pins && k in left && k in live ==> pins[k] == live[k]) &&
    (forall k :: k in pins && k in live && k !in left ==>
      Settled(live[k], pins[k], answers(k), window) || Lapsed(live[k], pins[k], moment)) &&
    KeptStay(live, pins, answers, moment)
  }

  lemma SweptByOne(live: map<string, Pin>, before: map<string, Pin>, after: map<string, Pin>, left: set<string>, k: string,
                   answers: string -> Answer, window: int, moment: int, next: int)
    requires k in left && k in live && left <= live.Keys && moment <= next && Swept(live, before, left, answers, window, moment)
    requires OnlyChanges(before, after, k) && OthersStay(before, after, k, moment)
    requires k in after ==> Settled(live[k], after[k], answers(k), window) || Lapsed(live[k], after[k], moment)
    requires k in before && Kept(live[k], answers(k)) ==> k in after && after[k].expiresAt >= live[k].expiresAt
    ensures Swept(live, after, left - {k}, answers, window, next)
  {
  }

  // ---------------------------------------------------------------- how long a proof lives

  /** After the pin itself, the proof is written only by extensions past the one time its pull request
      was merged, an answer that is never in the future. */
  predicate AskedOf(op: Op, k: string, merged: int, window: int) {
    (op.PinRun? ==> op.id != k) && (op.Extend? && op.id == k ==> op.until == merged + window && merged <= op.moment)
  }

  /** `deadline` is the expiry the proof was pinned with. It keeps that expiry or, merged before it,
      expires one window after the merge: less than one window later, however often it is swept. */
  lemma {:induction false} ProofLivesAtMost(d: Disk, current: set<Run>, digest: Value -> string, s: State, ops: seq<Op>, k: string,
                                            deadline: int, merged: int, window: int)
    requires k in s.pins && (s.pins[k].expiresAt == deadline || (s.pins[k].expiresAt == merged + window && deadline - window < merged < deadline))
    requires forall op :: op in ops ==> AskedOf(op, k, merged, window)
    requires window > 0
    ensures var t := RunOps(d, current, digest, s, ops);
      k in t.pins ==> t.pins[k].expiresAt == deadline || (t.pins[k].expiresAt == merged + window && deadline - window < merged < deadline)
    decreases |ops|
  {
    if ops != [] {
      var t := Apply(d, current, digest, s, ops[0]);
      assert AskedOf(ops[0], k, merged, window);
      if k in t.pins { ProofLivesAtMost(d, current, digest, t, ops[1..], k, deadline, merged, window); }
      else {
        forall op | op in ops[1..] ensures !(op.PinRun? && op.id == k) { assert AskedOf(op, k, merged, window); }
        DroppedStaysDropped(d, current, digest, t, ops[1..], k);
      }
    }
  }

  lemma {:induction false} DroppedStaysDropped(d: Disk, current: set<Run>, digest: Value -> string, s: State, ops: seq<Op>, k: string)
    requires k !in s.pins && forall op :: op in ops ==> !(op.PinRun? && op.id == k)
    ensures k !in RunOps(d, current, digest, s, ops).pins
    decreases |ops|
  {
    if ops != [] {
      assert !(ops[0].PinRun? && ops[0].id == k);
      DroppedStaysDropped(d, current, digest, Apply(d, current, digest, s, ops[0]), ops[1..], k);
    }
  }

  // ---------------------------------------------------------------- answers that change

  /** After the pin itself, the proof is extended only past one of these merge times, none of them in the
      future of the answer that gave it. */
  predicate AnsweredFrom(op: Op, k: string, merges: set<int>, window: int) {
    (op.PinRun? ==> op.id != k) && (op.Extend? && op.id == k ==> op.until - window in merges && op.until - window <= op.moment)
  }

  /** Writes in the order of their times, answered from these merge times. */
  predicate Schedule(ops: seq<Op>, k: string, merges: set<int>, window: int) {
    (forall op :: op in ops ==> AnsweredFrom(op, k, merges, window)) &&
    forall i, j :: 0 <= i < j < |ops| ==> ops[i].moment <= ops[j].moment
  }

  /** Of the answers, `used` have extended the proof already. */
  predicate ExtendedBy(expiry: int, used: set<int>, deadline: int, window: int) {
    (expiry == deadline || expiry < deadline + |used| * window) && forall m :: m in used ==> m + window <= expiry
  }

  lemma ExtendedOnceMore(expiry: int, used: set<int>, deadline: int, window: int, m: int) returns (more: set<int>)
    requires ExtendedBy(expiry, used, deadline, window) && m < expiry && window > 0
    ensures ExtendedBy(Max(expiry, m + window), more, deadline, window) && more <= used + {m}
  {
    if m + window <= expiry {
      more := used;
    } else {
      more := used + {m};
      assert |more| * window == |used| * window + window;
    }
  }

  lemma {:induction false} ExtendedOverRun(d: Disk, current: set<Run>, digest: Value -> string, s: State, ops: seq<Op>, k: string,
                                           merges: set<int>, used: set<int>, deadline: int, window: int)
    requires k in s.pins && ExtendedBy(s.pins[k].expiresAt, used, deadline, window) && used <= merges && window > 0
    requires forall op :: op in ops ==> AnsweredFrom(op, k, merges, window)
    ensures var t := RunOps(d, current, digest, s, ops);
      k in t.pins ==> exists all: set<int> :: all <= merges && ExtendedBy(t.pins[k].expiresAt, all, deadline, window)
    decreases |ops|
  {
    if ops != [] {
      var t := Apply(d, current, digest, s, ops[0]);
      assert AnsweredFrom(ops[0], k, merges, window);
      if k in t.pins {
        var more := used;
        if ops[0].Extend? && ops[0].id == k && t != s {
          more := ExtendedOnceMore(s.pins[k].expiresAt, used, deadline, window, ops[0].until - window);
        }
        ExtendedOverRun(d, current, digest, t, ops[1..], k, merges, more, deadline, window);
      } else {
        forall op | op in ops[1..] ensures !(op.PinRun? && op.id == k) { assert AnsweredFrom(op, k, merges, window); }
        DroppedStaysDropped(d, current, digest, t, ops[1..], k);
      }
    }
  }

  /** With n different merge times among the answers, a proof outlives its expiry by less than n windows. */
  lemma MergeTimesBound(d: Disk, current: set<Run>, digest: Value -> string, s: State, ops: seq<Op>, k: string, merges: set<int>, window: int)
    requires k in s.pins && window > 0 && forall op :: op in ops ==> AnsweredFrom(op, k, merges, window)
    ensures var deadline, t := s.pins[k].expiresAt, RunOps(d, current, digest, s, ops);
      k in t.pins ==> t.pins[k].expiresAt == deadline || t.pins[k].expiresAt < deadline + |merges| * window
  {
    var deadline, t := s.pins[k].expiresAt, RunOps(d, current, digest, s, ops);
    ExtendedOverRun(d, current, digest, s, ops, k, merges, {}, deadline, window);
    if k in t.pins {
      var all: set<int> :| all <= merges && ExtendedBy(t.pins[k].expiresAt, all, deadline, window);
      BoundedByAll(t.pins[k].expiresAt, all, merges, deadline, window);
    }
  }

  lemma BoundedByAll(expiry: int, all: set<int>, merges: set<int>, deadline: int, window: int)
    requires all <= merges && ExtendedBy(expiry, all, deadline, window) && window > 0
    ensures expiry == deadline || expiry < deadline + |merges| * window
  {
    Fewer(all, merges);
    Scaled(|all|, |merges|, window);
  }

  lemma Scaled(a: nat, b: nat, window: int)
    requires a <= b && window > 0
    ensures a * window <= b * window
  {
  }

  lemma Fewer(a: set<int>, b: set<int>)
    requires a <= b
    ensures |a| <= |b|
  {
    assert b == a + (b - a);
  }

  /** Some schedule of answers with these merge times keeps the proof for a window or more past its expiry. */
  ghost predicate SomeScheduleOutlives(d: Disk, current: set<Run>, digest: Value -> string, s: State, k: string, merges: set<int>, window: int)
    requires k in s.pins
  {
    var limit := s.pins[k].expiresAt + window;
    exists ops: seq<Op> :: OutlivesBy(d, current, digest, s, ops, k, merges, window, limit)
  }

  ghost predicate OutlivesBy(d: Disk, current: set<Run>, digest: Value -> string, s: State, ops: seq<Op>, k: string, merges: set<int>,
                             window: int, limit: int)
  {
    Schedule(ops, k, merges, window) && var t := RunOps(d, current, digest, s, ops); k in t.pins && t.pins[k].expiresAt >= limit
  }

  /** The first answer is before the expiry, the second after it but before the expiry the first one gives. */
  predicate Chains(a: int, b: int, deadline: int, window: int) {
    a < deadline <= b < a + window && IntWidth(a + window) == IntWidth(deadline) == IntWidth(b + window)
  }

  predicate SomePairChains(merges: set<int>, deadline: int, window: int) {
    exists a, b :: a in merges && b in merges && Chains(a, b, deadline, window)
  }

  /** The expiry of a proof that has not yet outlived it by a window. */
  predicate OneWindow(expiry: int, deadline: int, merges: set<int>, window: int) {
    expiry == deadline ||
    (deadline < expiry < deadline + window && expiry - window in merges && IntWidth(expiry) == IntWidth(deadline))
  }

  /** The one-window bound fails for some schedule exactly when two of the merge times chain. */
  lemma OneWindowExactly(d: Disk, current: set<Run>, digest: Value -> string, s: State, k: string, merges: set<int>, window: int)
    requires k in s.pins && window > 0
    ensures SomeScheduleOutlives(d, current, digest, s, k, merges, window) <==> SomePairChains(merges, s.pins[k].expiresAt, window)
  {
    if SomePairChains(merges, s.pins[k].expiresAt, window) {
      PairOutlives(d, current, digest, s, k, merges, window);
    } else if SomeScheduleOutlives(d, current, digest, s, k, merges, window) {
      var ops: seq<Op> :| OutlivesBy(d, current, digest, s, ops, k, merges, window, s.pins[k].expiresAt + window);
      OutlivingChains(d, current, digest, s, ops, k, merges, s.pins[k].expiresAt, window);
    }
  }

  lemma PairOutlives(d: Disk, current: set<Run>, digest: Value -> string, s: State, k: string, merges: set<int>, window: int)
    requires k in s.pins && window > 0 && SomePairChains(merges, s.pins[k].expiresAt, window)
    ensures SomeScheduleOutlives(d, current, digest, s, k, merges, window)
  {
    var a, b :| a in merges && b in merges && Chains(a, b, s.pins[k].expiresAt, window);
    var ops := ChainOutlives(d, current, digest, s, k, merges, window, a, b);
  }

  lemma ChainOutlives(d: Disk, current: set<Run>, digest: Value -> string, s: State, k: string, merges: set<int>, window: int, a: int, b: int)
    returns (ops: seq<Op>)
    requires k in s.pins && window > 0 && a in merges && b in merges && Chains(a, b, s.pins[k].expiresAt, window)
    ensures OutlivesBy(d, current, digest, s, ops, k, merges, window, s.pins[k].expiresAt + window)
  {
    ops := [Extend(k, a + window, a), Extend(k, b + window, b)];
    var t := Apply(d, current, digest, s, ops[0]);
    var u := Apply(d, current, digest, t, ops[1]);
    assert ops[1..] == [ops[1]] && ops[1..][1..] == [];
    assert RunOps(d, current, digest, s, ops) == RunOps(d, current, digest, t, [ops[1]]) == RunOps(d, current, digest, u, []) == u;
  }

  lemma {:induction false} OutlivingChains(d: Disk, current: set<Run>, digest: Value -> string, s: State, ops: seq<Op>, k: string,
                                           merges: set<int>, deadline: int, window: int)
    requires k in s.pins && window > 0 && OneWindow(s.pins[k].expiresAt, deadline, merges, window)
    requires forall op :: op in ops ==> AnsweredFrom(op, k, merges, window)
    requires var t := RunOps(d, current, digest, s, ops); k in t.pins && t.pins[k].expiresAt >= deadline + window
    ensures SomePairChains(merges, deadline, window)
    decreases |ops|
  {
    var t := Apply(d, current, digest, s, ops[0]);
    assert AnsweredFrom(ops[0], k, merges, window);
    if k !in t.pins {
      forall op | op in ops[1..] ensures !(op.PinRun? && op.id == k) { assert AnsweredFrom(op, k, merges, window); }
      DroppedStaysDropped(d, current, digest, t, ops[1..], k);
      assert false;
    } else if t.pins[k].expiresAt < deadline + window {
      OutlivingChains(d, current, digest, t, ops[1..], k, merges, deadline, window);
    } else {
      assert Chains(s.pins[k].expiresAt - window, ops[0].until - window, deadline, window);
    }
  }

  /** Two sweeps answered with different merge times, whole seconds both, extend a proof by more than a window. */
  lemma VaryingAnswersExtendTwice(d: Disk, digest: Value -> string, s: State, k: string)
    requires k in s.pins && s.pins[k].expiresAt == 15_500
    ensures SomeScheduleOutlives(d, {}, digest, s, k, {15_000, 24_000}, 10_000)
  {
    WidthGrows(15_500, 25_000);
    assert IntWidth(15_500) == 5 && IntWidth(25_000) == 5 && IntWidth(34_000) == 5;
    assert Chains(15_000, 24_000, 15_500, 10_000);
    OneWindowExactly(d, {}, digest, s, k, {15_000, 24_000}, 10_000);
  }

  lemma {:induction false} WidthGrows(a: nat, b: nat)
    requires a <= b
    ensures IntWidth(a) <= IntWidth(b)
    decreases b
  {
    if a >= 10 { WidthGrows(a / 10, b / 10); }
  }

  /** n different whole-second merge times can extend it by n windows less a second each: while the printed
      width stays, the bound of n windows is approached. */
  lemma {:induction false} BoundIsApproached(d: Disk, current: set<Run>, digest: Value -> string, s: State, k: string, window: int, n: nat)
    returns (merges: set<int>, ops: seq<Op>)
    requires k in s.pins && window > 1000 && s.pins[k].expiresAt >= 0
    requires IntWidth(s.pins[k].expiresAt + n * window) == IntWidth(s.pins[k].expiresAt)
    ensures |merges| == n && forall m :: m in merges ==> m % 1000 == 0 && m >= s.pins[k].expiresAt - 1000
    ensures forall op :: op in ops ==> op.moment >= s.pins[k].expiresAt - 1000
    ensures OutlivesBy(d, current, digest, s, ops, k, merges, window, s.pins[k].expiresAt + n * (window - 1000))
    decreases n
  {
    if n == 0 {
      merges, ops := {}, [];
    } else {
      var deadline := s.pins[k].expiresAt;
      var m := (deadline - 1) / 1000 * 1000;
      NextExpiry(deadline, m, window, n);
      var t := Apply(d, current, digest, s, Extend(k, m + window, m));
      ExtendedTo(d, current, digest, s, k, m, window);
      var others, rest := BoundIsApproached(d, current, digest, t, k, window, n - 1);
      merges, ops := {m} + others, [Extend(k, m + window, m)] + rest;
      OneMoreTime(m, others, Extend(k, m + window, m), rest, deadline, m + window, n);
      OneMoreAnswer(d, current, digest, s, k, window, m, others, rest, m + window + (n - 1) * (window - 1000));
      LowerLimit(d, current, digest, s, ops, k, merges, window, m + window + (n - 1) * (window - 1000), deadline + n * (window - 1000));
    }
  }

  /** The last whole second before an expiry, as a merge time, moves it on by all but a second of the window. */
  lemma NextExpiry(deadline: nat, m: int, window: int, n: nat)
    requires n > 0 && window > 1000 && m == (deadline - 1) / 1000 * 1000 && IntWidth(deadline + n * window) == IntWidth(deadline)
    ensures m % 1000 == 0 && deadline - 1000 <= m < deadline < m + window && IntWidth(m + window) == IntWidth(deadline)
    ensures IntWidth(m + window + (n - 1) * window) == IntWidth(deadline)
    ensures m + window + (n - 1) * (window - 1000) >= deadline + n * (window - 1000)
  {
    LastSecond(deadline, m);
    OneStepLess(n, window);
    var rest, all := (n - 1) * window, n * window;
    WidthsBetween(deadline, m + window, m + window + rest, deadline + all);
  }

  lemma LastSecond(deadline: nat, m: int)
    requires m == (deadline - 1) / 1000 * 1000
    ensures m % 1000 == 0 && deadline - 1000 <= m < deadline
  {
  }

  lemma ExtendedTo(d: Disk, current: set<Run>, digest: Value -> string, s: State, k: string, m: int, window: int)
    requires k in s.pins && m < s.pins[k].expiresAt < m + window && IntWidth(m + window) == IntWidth(s.pins[k].expiresAt)
    ensures var t := Apply(d, current, digest, s, Extend(k, m + window, m)); k in t.pins && t.pins[k].expiresAt == m + window
  {
  }

  lemma LowerLimit(d: Disk, current: set<Run>, digest: Value -> string, s: State, ops: seq<Op>, k: string, merges: set<int>, window: int,
                   limit: int, lower: int)
    requires OutlivesBy(d, current, digest, s, ops, k, merges, window, limit) && lower <= limit
    ensures OutlivesBy(d, current, digest, s, ops, k, merges, window, lower)
  {
  }

  lemma OneMoreAnswer(d: Disk, current: set<Run>, digest: Value -> string, s: State, k: string, window: int, m: int,
                      others: set<int>, rest: seq<Op>, limit: int)
    requires var write := Extend(k, m + window, m);
      OutlivesBy(d, current, digest, Apply(d, current, digest, s, write), rest, k, others, window, limit)
    requires forall op :: op in rest ==> op.moment >= m
    ensures OutlivesBy(d, current, digest, s, [Extend(k, m + window, m)] + rest, k, {m} + others, window, limit)
  {
    var write := Extend(k, m + window, m);
    var ops := [write] + rest;
    assert ops[1..] == rest;
    forall op | op in ops ensures AnsweredFrom(op, k, {m} + others, window) { assert op in rest ==> AnsweredFrom(op, k, others, window); }
    forall i, j | 0 <= i < j < |ops| ensures ops[i].moment <= ops[j].moment {
      assert ops[j] in rest && ops[j] == rest[j - 1];
    }
  }

  /** A merge time before the next expiry is one more than those after it, and no earlier than a second before this one. */
  lemma OneMoreTime(m: int, others: set<int>, op: Op, rest: seq<Op>, deadline: int, next: int, n: nat)
    requires n > 0 && m % 1000 == 0 && deadline - 1000 <= m < next - 1000 && deadline <= next && op.moment == m
    requires |others| == n - 1 && forall o :: o in others ==> o % 1000 == 0 && o >= next - 1000
    requires forall o :: o in rest ==> o.moment >= next - 1000
    ensures |{m} + others| == n && forall o :: o in {m} + others ==> o % 1000 == 0 && o >= deadline - 1000
    ensures forall o :: o in [op] + rest ==> o.moment >= deadline - 1000
    ensures forall o :: o in rest ==> o.moment >= m
  {
    assert m !in others;
  }

  lemma OneStepLess(n: nat, window: int)
    requires n > 0 && window > 1000
    ensures n * window == (n - 1) * window + window && n * (window - 1000) == (n - 1) * (window - 1000) + window - 1000
    ensures (n - 1) * window >= 0
  {
  }

  lemma WidthsBetween(a: nat, b: nat, c: nat, e: nat)
    requires a <= b <= c <= e && IntWidth(a) == IntWidth(e)
    ensures IntWidth(b) == IntWidth(a) && IntWidth(c) == IntWidth(a)
  {
    WidthGrows(a, b);
    WidthGrows(b, c);
    WidthGrows(c, e);
  }

  // ---------------------------------------------------------------- the main publication admitted from it

  /** The windows an installation accepts, in seconds. */
  predicate WindowsAccepted(window: int, ttl: int, limit: int) { 0 < window <= ttl && ttl + 2 * window <= limit }

  lemma {:induction false} SubjectStays(d: Disk, current: set<Run>, digest: Value -> string, s: State, ops: seq<Op>, k: string)
    requires k in s.pins && !OfPullRequest(s.pins[k]) && ExtendsOnlyProofs(d, current, digest, s, ops)
    requires forall op :: op in ops ==> !(op.PinRun? && op.id == k)
    ensures var t := RunOps(d, current, digest, s, ops); k in t.pins ==> t.pins[k].expiresAt == s.pins[k].expiresAt
    decreases |ops|
  {
    if ops != [] {
      var t := Apply(d, current, digest, s, ops[0]);
      assert !(ops[0].PinRun? && ops[0].id == k);
      if k in t.pins { SubjectStays(d, current, digest, t, ops[1..], k); }
      else { DroppedStaysDropped(d, current, digest, t, ops[1..], k); }
    }
  }

  /** An admission of a main commit: its proof is among the found ones, and its own pin is stored afterwards. */
  ghost predicate Admission(d: Disk, current: set<Run>, digest: Value -> string, s: State, k: string, subject: Value, found: int,
                            between: seq<Op>, pin: Op, window: int)
  {
    k in Matching(s.pins, subject, found) && pin.PinRun? && !OfPullRequest(pin.pin) &&
    pin.pin.expiresAt == pin.moment + window * 1000 && found <= pin.moment &&
    Stored(d, current, digest, RunOps(d, current, digest, s, between).pins, pin).Some?
  }

  /** A proof pinned at `start` and found confirmed lets its merge be pinned. As long as that main pin is
      stored, through every later sweep, it ends within the installed retention of the proof's start, plus
      the delay between finding and pinning. */
  lemma MainPinEndsInTime(d: Disk, current: set<Run>, digest: Value -> string, s: State, before: seq<Op>, between: seq<Op>, pin: Op,
                          after: seq<Op>, k: string, subject: Value, start: int, merged: int, found: int, window: int, ttl: int, limit: int)
    requires WindowsAccepted(window, ttl, limit) && k in s.pins && s.pins[k].expiresAt == start + ttl * 1000
    requires forall op :: op in before ==> AskedOf(op, k, merged, window * 1000)
    requires var t := RunOps(d, current, digest, s, before); Admission(d, current, digest, t, k, subject, found, between, pin, window)
    requires forall op :: op in after ==> !(op.PinRun? && op.id == pin.id)
    requires var t := RunOps(d, current, digest, RunOps(d, current, digest, s, before), between);
      ExtendsOnlyProofs(d, current, digest, Apply(d, current, digest, t, pin), after)
    ensures var t := RunOps(d, current, digest, RunOps(d, current, digest, s, before), between);
      var u := RunOps(d, current, digest, Apply(d, current, digest, t, pin), after);
      pin.id in u.pins ==>
        u.pins[pin.id].expiresAt < start + (ttl + 2 * window) * 1000 + (pin.moment - found) &&
        u.pins[pin.id].expiresAt < start + limit * 1000 + (pin.moment - found)
  {
    var t := RunOps(d, current, digest, RunOps(d, current, digest, s, before), between);
    ProofLivesAtMost(d, current, digest, s, before, k, start + ttl * 1000, merged, window * 1000);
    SubjectStays(d, current, digest, Apply(d, current, digest, t, pin), after, pin.id);
  }
}
