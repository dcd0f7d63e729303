/** Delivery of action notifications (apps/notifier/bark.py): one worker under a lock, every database
    transaction durable, a crash possible between any two of them. */
module Notifier {
  import opened Strings

  type Key = string

  const ATTEMPTS: nat := 3
  const DEADLINE := 600
  const TIMEOUT := 10

  /** Seconds before the attempt after this one. */
  function Backoff(ordinal: nat): int { if ordinal <= 1 then 30 else 120 }

  datatype Progress = Pending | Sending | Accepted | Failed | Obsolete
  datatype Outcome = Taken | Rejected | Retryable | Unknown

  datatype Delivery = Delivery(firstSeen: int, deadline: int, attempts: nat, nextAttempt: int, progress: Progress)

  /** `checked` is when the deadline was looked at before the attempt; kept for the record only. */
  datatype Attempt = Attempt(started: int, checked: int, outcome: Outcome)
  datatype AttemptId = AttemptId(key: Key, ordinal: nat)

  /** What the worker holds in memory: the rows it selected, and the one it has claimed or sent. */
  datatype Worker = Idle | Looping(rows: seq<Key>) | Claimed(key: Key, rows: seq<Key>) | Sent(key: Key, rows: seq<Key>)

  datatype State = State(
    clock: int, deliveries: map<Key, Delivery>, attempts: map<AttemptId, Attempt>, worker: Worker, sends: seq<AttemptId>)

  /** Stop is the end of a tick, a failure inside it, or the death of the process. */
  datatype Op =
    | Receive(key: Key, now: int)
    | Begin(items: set<Key>, now: int, rows: seq<Key>)
    | Pass(now: int)
    | Claim(checked: int, started: int)
    | Send
    | Conclude(outcome: Outcome)
    | Stop

  const EMPTY := State(0, map[], map[], Idle, [])

  predicate Open(d: Delivery) { d.progress == Pending || d.progress == Sending }

  function NewDelivery(now: int): Delivery { Delivery(now, now + DEADLINE, 0, now, Pending) }

  // ---------------------------------------------------------------- synchronize()

  /** One row after a synchronisation: unseen actions are inserted, resolved ones obsolete, expired ones failed. */
  function SyncedRow(d: Delivery, active: bool, now: int): Delivery {
    if Open(d) && !active then d.(progress := Obsolete)
    else if Open(d) && (d.deadline <= now || d.attempts >= ATTEMPTS) then d.(progress := Failed)
    else d
  }

  function Inserted(deliveries: map<Key, Delivery>, items: set<Key>, now: int): map<Key, Delivery> {
    map k | k in deliveries.Keys + items :: if k in deliveries then deliveries[k] else NewDelivery(now)
  }

  function Synced(deliveries: map<Key, Delivery>, items: set<Key>, now: int): map<Key, Delivery> {
    map k | k in deliveries.Keys + items :: SyncedRow(Inserted(deliveries, items, now)[k], k in items, now)
  }

  function DroppedRow(d: Delivery, active: bool): Delivery { if Open(d) && !active then d.(progress := Obsolete) else d }

  function Dropped(deliveries: map<Key, Delivery>, items: set<Key>): map<Key, Delivery> {
    map k | k in deliveries :: DroppedRow(deliveries[k], k in items)
  }

  function ExpiredRow(d: Delivery, now: int): Delivery {
    if Open(d) && (d.deadline <= now || d.attempts >= ATTEMPTS) then d.(progress := Failed) else d
  }

  function Expired(deliveries: map<Key, Delivery>, now: int): map<Key, Delivery> {
    map k | k in deliveries :: ExpiredRow(deliveries[k], now)
  }

  /** Inserting, dropping and expiring one after another is what each row undergoes alone. */
  lemma SyncedInThree(deliveries: map<Key, Delivery>, items: set<Key>, now: int)
    ensures Synced(deliveries, items, now) == Expired(Dropped(Inserted(deliveries, items, now), items), now)
  {
  }

  predicate Due(d: Delivery, now: int) { Open(d) && d.nextAttempt <= now && d.deadline > now + TIMEOUT && d.attempts < ATTEMPTS }

  predicate Distinct(rows: seq<Key>) { forall i, j :: 0 <= i < j < |rows| ==> rows[i] != rows[j] }

  /** Rows are taken in the order they were first seen, and by their keys among those seen at once. */
  predicate Earlier(deliveries: map<Key, Delivery>, a: Key, b: Key)
    requires a in deliveries && b in deliveries
  {
    deliveries[a].firstSeen < deliveries[b].firstSeen || (deliveries[a].firstSeen == deliveries[b].firstSeen && StringBefore(a, b))
  }

  lemma EarlierTransitive(deliveries: map<Key, Delivery>, a: Key, b: Key, c: Key)
    requires a in deliveries && b in deliveries && c in deliveries && Earlier(deliveries, a, b) && Earlier(deliveries, b, c)
    ensures Earlier(deliveries, a, c)
  {
    if StringBefore(a, b) && StringBefore(b, c) { StringsTransitive(a, b, c); }
  }

  /** The earlier of one row and the first of others comes before all of them. */
  lemma EarlierByOne(deliveries: map<Key, Delivery>, keys: set<Key>, first: Key, next: Key)
    requires keys <= deliveries.Keys && next in deliveries && first in keys && next !in keys
    requires forall k :: k in keys && k != first ==> Earlier(deliveries, first, k)
    ensures if Earlier(deliveries, next, first) then forall k :: k in keys ==> Earlier(deliveries, next, k) else Earlier(deliveries, first, next)
  {
    StringsAreOrdered(next, first);
    if Earlier(deliveries, next, first) {
      forall k | k in keys ensures Earlier(deliveries, next, k) {
        if k != first { EarlierTransitive(deliveries, next, first, k); }
      }
    }
  }

  lemma OrderedAreDistinct(deliveries: map<Key, Delivery>, rows: seq<Key>)
    requires (forall k :: k in rows ==> k in deliveries) && forall i, j :: 0 <= i < j < |rows| ==> Earlier(deliveries, rows[i], rows[j])
    ensures Distinct(rows)
  {
    forall i, j | 0 <= i < j < |rows| ensures rows[i] != rows[j] { StringsAreOrdered(rows[i], rows[j]); }
  }

  /** These rows of the due ones were taken, the earliest first, and these are left. */
  predicate Picked(deliveries: map<Key, Delivery>, due: set<Key>, rows: seq<Key>, left: set<Key>) {
    due <= deliveries.Keys && left <= due && (forall k :: k in due ==> (k in rows <==> k !in left)) && (forall k :: k in rows ==> k in due) &&
    (forall i, j :: 0 <= i < j < |rows| ==> Earlier(deliveries, rows[i], rows[j])) &&
    forall row, k :: row in rows && k in left ==> Earlier(deliveries, row, k)
  }

  lemma PickedByOne(deliveries: map<Key, Delivery>, due: set<Key>, rows: seq<Key>, left: set<Key>, k: Key)
    requires Picked(deliveries, due, rows, left) && k in left && forall other :: other in left && other != k ==> Earlier(deliveries, k, other)
    ensures Picked(deliveries, due, rows + [k], left - {k})
  {
    assert forall i :: 0 <= i < |rows| ==> rows[i] in rows;
  }

  // ---------------------------------------------------------------- steps

  /** The state recorded for a concluded attempt. */
  function Concluded(outcome: Outcome, ordinal: nat): Progress {
    if outcome == Taken then Accepted else if outcome == Rejected || ordinal == ATTEMPTS then Failed else Pending
  }

  predicate Enabled(s: State, op: Op) {
    match op
    case Receive(key, now) => now >= s.clock && key !in s.deliveries
    case Begin(items, now, rows) =>
      s.worker.Idle? && now >= s.clock && Distinct(rows) &&
      forall k :: k in rows ==> k in Synced(s.deliveries, items, now) && Due(Synced(s.deliveries, items, now)[k], now)
    case Pass(now) => s.worker.Looping? && s.worker.rows != [] && now >= s.clock
    case Claim(checked, started) =>
      s.worker.Looping? && s.worker.rows != [] && s.clock <= checked <= started && s.worker.rows[0] in s.deliveries &&
      checked + TIMEOUT < s.deliveries[s.worker.rows[0]].deadline
    case Send => s.worker.Claimed? && s.worker.key in s.deliveries
    case Conclude(outcome) => s.worker.Sent? && s.worker.key in s.deliveries && AttemptId(s.worker.key, s.deliveries[s.worker.key].attempts) in s.attempts
    case Stop => true
  }

  function Perform(s: State, op: Op): State
    requires Enabled(s, op)
  {
    match op
    case Receive(key, now) => s.(clock := now, deliveries := s.deliveries[key := NewDelivery(now)])
    case Begin(items, now, rows) => s.(clock := now, deliveries := Synced(s.deliveries, items, now), worker := Looping(rows))
    case Pass(now) => s.(clock := now, worker := Looping(s.worker.rows[1..]))
    case Claim(checked, started) =>
      var k, rest := s.worker.rows[0], s.worker.rows[1..];
      var d := s.deliveries[k];
      s.(clock := started,
         deliveries := s.deliveries[k := d.(progress := Sending, attempts := d.attempts + 1, nextAttempt := started + Backoff(d.attempts + 1))],
         attempts := s.attempts[AttemptId(k, d.attempts + 1) := Attempt(started, checked, Unknown)],
         worker := Claimed(k, rest))
    case Send =>
      s.(sends := s.sends + [AttemptId(s.worker.key, s.deliveries[s.worker.key].attempts)], worker := Sent(s.worker.key, s.worker.rows))
    case Conclude(outcome) =>
      var k := s.worker.key;
      var d := s.deliveries[k];
      var id := AttemptId(k, d.attempts);
      s.(deliveries := s.deliveries[k := d.(progress := Concluded(outcome, d.attempts))],
         attempts := s.attempts[id := s.attempts[id].(outcome := outcome)],
         worker := Looping(s.worker.rows))
    case Stop => s.(worker := Idle)
  }

  function Step(s: State, op: Op): State { if Enabled(s, op) then Perform(s, op) else s }

  function Run(s: State, ops: seq<Op>): State
    decreases |ops|
  {
    if ops == [] then s else Run(Step(s, ops[0]), ops[1..])
  }

  // ---------------------------------------------------------------- what every step keeps

  predicate Recorded(s: State, k: Key, o: nat) { AttemptId(k, o) in s.attempts }

  /** The attempts of one delivery are numbered 1 to its count, at most three, backed off, each checked
      against the deadline first; its next attempt waits for the last one's backoff. */
  predicate Orderly(s: State, k: Key)
    requires k in s.deliveries
  {
    var d := s.deliveries[k];
    d.attempts <= ATTEMPTS &&
    (forall o: nat :: o <= d.attempts && 1 <= o ==> Recorded(s, k, o)) &&
    (forall o: nat :: 1 <= o < d.attempts ==> Apart(s, k, o)) &&
    (forall o: nat :: 1 <= o <= d.attempts ==> Checked(s, k, o)) &&
    (d.attempts > 0 ==> Recorded(s, k, d.attempts) && d.nextAttempt == s.attempts[AttemptId(k, d.attempts)].started + Backoff(d.attempts))
  }

  predicate Apart(s: State, k: Key, o: nat) {
    Recorded(s, k, o) && Recorded(s, k, o + 1) &&
    s.attempts[AttemptId(k, o + 1)].started >= s.attempts[AttemptId(k, o)].started + Backoff(o)
  }

  predicate Checked(s: State, k: Key, o: nat) {
    Recorded(s, k, o) && k in s.deliveries &&
    var a := s.attempts[AttemptId(k, o)];
    a.checked <= a.started && a.checked + TIMEOUT < s.deliveries[k].deadline
  }

  predicate AttemptsBelong(s: State) {
    forall id :: id in s.attempts ==> id.key in s.deliveries && 1 <= id.ordinal <= s.deliveries[id.key].attempts
  }

  /** The rows still to be tried are open and due; the claimed one is being sent. */
  predicate Selected(s: State) {
    (s.worker.Looping? || s.worker.Claimed? || s.worker.Sent? ==>
      Distinct(s.worker.rows) &&
      forall k :: k in s.worker.rows ==>
        k in s.deliveries && Open(s.deliveries[k]) && s.deliveries[k].nextAttempt <= s.clock && s.deliveries[k].attempts < ATTEMPTS) &&
    (s.worker.Claimed? || s.worker.Sent? ==>
      s.worker.key !in s.worker.rows && s.worker.key in s.deliveries && s.deliveries[s.worker.key].progress == Sending &&
      s.deliveries[s.worker.key].attempts > 0)
  }

  /** Every send has an attempt of its own. */
  predicate SentOnce(s: State) {
    (forall i, j :: 0 <= i < j < |s.sends| ==> s.sends[i] != s.sends[j]) &&
    (forall id :: id in s.sends ==> id in s.attempts) &&
    (s.worker.Claimed? && s.worker.key in s.deliveries ==> AttemptId(s.worker.key, s.deliveries[s.worker.key].attempts) !in s.sends)
  }

  predicate Inv(s: State) { (forall k :: k in s.deliveries ==> Orderly(s, k)) && AttemptsBelong(s) && Selected(s) && SentOnce(s) }

  /** Rows that change only in progress, and rows added without attempts, stay orderly. */
  lemma OrderlyStays(s: State, t: State, k: Key)
    requires k in s.deliveries && k in t.deliveries && Orderly(s, k)
    requires t.deliveries[k] == s.deliveries[k].(progress := t.deliveries[k].progress)
    requires forall o: nat :: Recorded(s, k, o) ==>
      Recorded(t, k, o) && t.attempts[AttemptId(k, o)] == s.attempts[AttemptId(k, o)].(outcome := t.attempts[AttemptId(k, o)].outcome)
    ensures Orderly(t, k)
  {
    forall o: nat | 1 <= o < s.deliveries[k].attempts ensures Apart(t, k, o) { assert Apart(s, k, o); }
    forall o: nat | 1 <= o <= s.deliveries[k].attempts ensures Checked(t, k, o) { assert Checked(s, k, o); }
  }

  lemma BeginKeepsInv(s: State, op: Op)
    requires Inv(s) && op.Begin? && Enabled(s, op)
    ensures Inv(Perform(s, op))
  {
    var t := Perform(s, op);
    forall k | k in t.deliveries ensures Orderly(t, k) {
      if k in s.deliveries { OrderlyStays(s, t, k); }
    }
  }

  lemma ReceiveKeepsInv(s: State, op: Op)
    requires Inv(s) && op.Receive? && Enabled(s, op)
    ensures Inv(Perform(s, op))
  {
    var t := Perform(s, op);
    forall k | k in t.deliveries ensures Orderly(t, k) {
      if k in s.deliveries { OrderlyStays(s, t, k); }
    }
  }

  lemma ClaimedIsOrderly(s: State, op: Op)
    requires Inv(s) && op.Claim? && Enabled(s, op)
    ensures var t, k := Perform(s, op), s.worker.rows[0]; k in t.deliveries && Orderly(t, k)
  {
    var t, k := Perform(s, op), s.worker.rows[0];
    var d := s.deliveries[k];
    assert k in s.worker.rows && Orderly(s, k);
    forall o: nat | 1 <= o <= d.attempts + 1 ensures Recorded(t, k, o) { assert o <= d.attempts ==> Recorded(s, k, o); }
    forall o: nat | 1 <= o < d.attempts + 1 ensures Apart(t, k, o) {
      if o < d.attempts { assert Apart(s, k, o); }
    }
    forall o: nat | 1 <= o <= d.attempts + 1 ensures Checked(t, k, o) {
      if o <= d.attempts { assert Checked(s, k, o); }
    }
  }

  lemma ClaimKeepsInv(s: State, op: Op)
    requires Inv(s) && op.Claim? && Enabled(s, op)
    ensures Inv(Perform(s, op))
  {
    var t, k := Perform(s, op), s.worker.rows[0];
    ClaimedIsOrderly(s, op);
    assert k in s.worker.rows && AttemptId(k, s.deliveries[k].attempts + 1) !in s.attempts;
    forall other | other in t.deliveries && other != k ensures Orderly(t, other) { OrderlyStays(s, t, other); }
    ClaimedIsSelected(s, op);
    assert AttemptsBelong(t) by {
      forall id | id in t.attempts ensures id.key in t.deliveries && 1 <= id.ordinal <= t.deliveries[id.key].attempts {
        assert id != AttemptId(k, s.deliveries[k].attempts + 1) ==> id in s.attempts;
      }
    }
  }

  lemma ClaimedIsSelected(s: State, op: Op)
    requires Inv(s) && op.Claim? && Enabled(s, op)
    ensures Selected(Perform(s, op)) && SentOnce(Perform(s, op))
  {
    var t, k := Perform(s, op), s.worker.rows[0];
    assert k in s.worker.rows && AttemptId(k, s.deliveries[k].attempts + 1) !in s.attempts;
    forall other | other in t.worker.rows ensures other in s.worker.rows && other != k { }
  }

  lemma SendKeepsInv(s: State, op: Op)
    requires Inv(s) && op.Send? && Enabled(s, op)
    ensures Inv(Perform(s, op))
  {
    var t := Perform(s, op);
    assert Orderly(s, s.worker.key) && Recorded(s, s.worker.key, s.deliveries[s.worker.key].attempts);
    forall k | k in t.deliveries ensures Orderly(t, k) { OrderlyStays(s, t, k); }
  }

  lemma ConcludeKeepsInv(s: State, op: Op)
    requires Inv(s) && op.Conclude? && Enabled(s, op)
    ensures Inv(Perform(s, op))
  {
    var t := Perform(s, op);
    forall k | k in t.deliveries ensures Orderly(t, k) { OrderlyStays(s, t, k); }
  }

  lemma StepKeepsInv(s: State, op: Op)
    requires Inv(s)
    ensures Inv(Step(s, op))
  {
    if Enabled(s, op) {
      match op
      case Receive(_, _) => ReceiveKeepsInv(s, op);
      case Begin(_, _, _) => BeginKeepsInv(s, op);
      case Claim(_, _) => ClaimKeepsInv(s, op);
      case Send => SendKeepsInv(s, op);
      case Conclude(_) => ConcludeKeepsInv(s, op);
      case Pass(_) => forall k | k in s.deliveries ensures Orderly(Perform(s, op), k) { OrderlyStays(s, Perform(s, op), k); }
      case Stop => forall k | k in s.deliveries ensures Orderly(Perform(s, op), k) { OrderlyStays(s, Perform(s, op), k); }
    }
  }

  lemma {:induction false} RunKeepsInv(s: State, ops: seq<Op>)
    requires Inv(s)
    ensures Inv(Run(s, ops))
    decreases |ops|
  {
    if ops != [] {
      StepKeepsInv(s, ops[0]);
      RunKeepsInv(Step(s, ops[0]), ops[1..]);
    }
  }

  // ---------------------------------------------------------------- the promises

  /** With crashes anywhere: a delivery has at most three attempts, numbered without gaps; each started
      at least the backoff after the one before; each was checked against deadline minus timeout before. */
  lemma AttemptsAreBounded(ops: seq<Op>, k: Key)
    requires k in Run(EMPTY, ops).deliveries
    ensures var s := Run(EMPTY, ops);
      var n := s.deliveries[k].attempts;
      n <= 3 && (forall o: nat :: Recorded(s, k, o) <==> 1 <= o <= n) &&
      (n >= 2 ==> Recorded(s, k, 1) && Recorded(s, k, 2) && s.attempts[AttemptId(k, 2)].started >= s.attempts[AttemptId(k, 1)].started + 30) &&
      (n >= 3 ==> Recorded(s, k, 2) && Recorded(s, k, 3) && s.attempts[AttemptId(k, 3)].started >= s.attempts[AttemptId(k, 2)].started + 120) &&
      forall o: nat :: 1 <= o <= n ==> Checked(s, k, o)
  {
    RunKeepsInv(EMPTY, ops);
    var s := Run(EMPTY, ops);
    assert Orderly(s, k);
    if s.deliveries[k].attempts >= 2 { assert Apart(s, k, 1); }
    if s.deliveries[k].attempts >= 3 { assert Apart(s, k, 2); }
  }

  /** Nothing is sent twice under one attempt, and nothing without one: a key is sent at most three times. */
  lemma SendsAreBounded(ops: seq<Op>, i: nat, j: nat)
    requires i < j < |Run(EMPTY, ops).sends|
    ensures var s := Run(EMPTY, ops);
      s.sends[i] != s.sends[j] && s.sends[i] in s.attempts && 1 <= s.sends[i].ordinal <= 3 && s.sends[i].key in s.deliveries
  {
    RunKeepsInv(EMPTY, ops);
    var s := Run(EMPTY, ops);
    assert s.sends[i] in s.sends && Orderly(s, s.sends[i].key);
  }

  /** A delivery that is accepted, failed or obsolete never changes again. */
  lemma {:induction false} ClosedForGood(s: State, ops: seq<Op>, k: Key)
    requires Inv(s) && k in s.deliveries && !Open(s.deliveries[k])
    ensures k in Run(s, ops).deliveries && Run(s, ops).deliveries[k] == s.deliveries[k]
    decreases |ops|
  {
    if ops != [] {
      var t := Step(s, ops[0]);
      assert t.deliveries[k] == s.deliveries[k];
      StepKeepsInv(s, ops[0]);
      ClosedForGood(t, ops[1..], k);
    }
  }

  /** The check reads the clock before the attempt reads it again: an attempt may start when less than the
      timeout, or nothing at all, is left before the deadline. */
  lemma StartMayMissTheDeadline(k: Key)
    ensures var ops := [Begin({k}, 0, [k]), Claim(589, 700)];
      var s := Run(EMPTY, ops);
      Recorded(s, k, 1) && k in s.deliveries && s.attempts[AttemptId(k, 1)].started > s.deliveries[k].deadline
  {
    var ops := LateClaim(k, 589, 700);
  }

  /** Every recorded attempt that started within `delay` of its deadline check started before its deadline. */
  ghost predicate PromptIsInTime(delay: nat) {
    forall ops: seq<Op>, k: Key, o: nat ::
      var s := Run(EMPTY, ops);
      Recorded(s, k, o) && s.attempts[AttemptId(k, o)].started - s.attempts[AttemptId(k, o)].checked <= delay ==>
        k in s.deliveries && s.attempts[AttemptId(k, o)].started < s.deliveries[k].deadline
  }

  /** In every run an attempt starts before its deadline when it starts at most this long after the
      check, exactly when that is at most the timeout. */
  lemma StartsInTimeExactly(delay: nat)
    ensures PromptIsInTime(delay) <==> delay <= 10
  {
    if delay <= TIMEOUT {
      forall ops: seq<Op>, k: Key, o: nat | Recorded(Run(EMPTY, ops), k, o) &&
          Run(EMPTY, ops).attempts[AttemptId(k, o)].started - Run(EMPTY, ops).attempts[AttemptId(k, o)].checked <= delay
        ensures var s := Run(EMPTY, ops); k in s.deliveries && s.attempts[AttemptId(k, o)].started < s.deliveries[k].deadline
      {
        RunKeepsInv(EMPTY, ops);
        AttemptsAreBounded(ops, k);
        assert Checked(Run(EMPTY, ops), k, o);
      }
    } else {
      var ops := LateClaim("", DEADLINE - TIMEOUT - 1, DEADLINE);
      assert Recorded(Run(EMPTY, ops), "", 1);
    }
  }

  /** A new action, tried at once after one look at the clock and started after another. */
  lemma LateClaim(k: Key, checked: int, started: int) returns (ops: seq<Op>)
    requires 0 <= checked <= started && checked + TIMEOUT < DEADLINE
    ensures ops == [Begin({k}, 0, [k]), Claim(checked, started)]
    ensures var s := Run(EMPTY, ops);
      Recorded(s, k, 1) && k in s.deliveries && s.deliveries[k].deadline == DEADLINE &&
      s.attempts[AttemptId(k, 1)].started == started && s.attempts[AttemptId(k, 1)].checked == checked
  {
    var first, second := Begin({k}, 0, [k]), Claim(checked, started);
    assert Synced(map[], {k}, 0)[k] == NewDelivery(0);
    var s := Perform(EMPTY, first);
    assert Enabled(s, second);
    var t := Perform(s, second);
    ops := [first, second];
    assert ops[1..] == [second] && [second][1..] == [];
    assert Run(EMPTY, ops) == Run(s, [second]) == Run(t, []) == t;
  }

  // ---------------------------------------------------------------- one tick as it runs

  const BATCH := 100

  /** What the world answers for one selected row: still an action, the two clock readings, the delivery. */
  datatype Reading = Reading(active: bool, checked: int, started: int, outcome: Outcome)

  /** The state after the turn of the first selected row. */
  function AfterRow(s: State, r: Reading): State
    requires s.worker.Looping? && s.worker.rows != []
  {
    var k := s.worker.rows[0];
    if k in s.deliveries && r.active && r.checked + TIMEOUT < s.deliveries[k].deadline
    then Step(Step(Step(s, Claim(r.checked, r.started)), Send), Conclude(r.outcome)) else Step(s, Pass(r.checked))
  }

  /** What one row of the batch has become: an active one that is looked at more than ten seconds before its
      deadline has one more attempt, recorded and sent, and its outcome decides what follows; any other is as it was. */
  predicate Handled(s: State, t: State, k: Key, r: Reading) {
    k in s.deliveries && k in t.deliveries &&
    var d := s.deliveries[k];
    if r.active && r.checked + 10 < d.deadline then
      var id := AttemptId(k, d.attempts + 1);
      id in t.attempts && t.attempts[id] == Attempt(r.started, r.checked, r.outcome) && id in t.sends &&
      t.deliveries[k] == Delivery(d.firstSeen, d.deadline, d.attempts + 1, r.started + if d.attempts == 0 then 30 else 120,
        if r.outcome == Taken then Accepted else if r.outcome == Rejected || d.attempts == 2 then Failed else Pending)
    else t.deliveries[k] == d
  }

  /** Nothing but this row, its attempts and more sends. */
  predicate OnlyRow(s: State, t: State, k: Key) {
    k in t.deliveries && t.deliveries == s.deliveries[k := t.deliveries[k]] &&
    (forall id :: id in s.attempts && id.key != k ==> id in t.attempts && t.attempts[id] == s.attempts[id]) &&
    forall id :: id in s.sends ==> id in t.sends
  }

  /** A later row leaves it so. */
  lemma HandledStays(s: State, t: State, u: State, k: Key, r: Reading, other: Key)
    requires Handled(s, t, k, r) && k != other && OnlyRow(t, u, other)
    ensures Handled(s, u, k, r)
  {
  }

  class Ledger {
    var clock: int
    var deliveries: map<Key, Delivery>
    var attempts: map<AttemptId, Attempt>
    ghost var worker: Worker
    ghost var sends: seq<AttemptId>

    ghost function Contents(): State reads this { State(clock, deliveries, attempts, worker, sends) }

    constructor ()
      ensures Contents() == EMPTY
    {
      clock, deliveries, attempts, worker, sends := 0, map[], map[], Idle, [];
    }

    method InsertSeen(items: set<Key>, now: int)
      modifies this`deliveries
      ensures deliveries == Inserted(old(deliveries), items, now)
    {
      var left := items;
      while left != {}
        invariant left <= items
        invariant deliveries == Inserted(old(deliveries), items - left, now)
        decreases left
      {
        var k :| k in left;
        left := left - {k};
        if k !in deliveries { deliveries := deliveries[k := NewDelivery(now)]; }
      }
      assert items - left == items;
    }

    method DropResolved(items: set<Key>)
      modifies this`deliveries
      ensures deliveries == Dropped(old(deliveries), items)
    {
      ghost var before := deliveries;
      var left := deliveries.Keys;
      while left != {}
        invariant left <= before.Keys == deliveries.Keys
        invariant forall k :: k in before ==> deliveries[k] == if k in left then before[k] else DroppedRow(before[k], k in items)
        decreases left
      {
        var k :| k in left;
        left := left - {k};
        if Open(deliveries[k]) && k !in items { deliveries := deliveries[k := deliveries[k].(progress := Obsolete)]; }
      }
    }

    /** Three passes over the rows: insert what is new, drop what is resolved, fail what has expired. */
    method Synchronize(items: set<Key>, now: int)
      modifies this`deliveries
      ensures deliveries == Synced(old(deliveries), items, now)
    {
      InsertSeen(items, now);
      DropResolved(items);
      FailExpired(now);
      SyncedInThree(old(deliveries), items, now);
    }

    method FailExpired(now: int)
      modifies this`deliveries
      ensures deliveries == Expired(old(deliveries), now)
    {
      var before := deliveries;
      deliveries := map k | k in before :: ExpiredRow(before[k], now);
    }

    /** The earliest of some rows. */
    method SelectFirst(keys: set<Key>) returns (first: Key)
      requires keys != {} && keys <= deliveries.Keys
      ensures first in keys && forall k :: k in keys && k != first ==> Earlier(deliveries, first, k)
    {
      first :| first in keys;
      var left := keys - {first};
      while left != {}
        invariant left <= keys && first in keys - left && forall k :: k in keys - left && k != first ==> Earlier(deliveries, first, k)
        decreases left
      {
        var k :| k in left;
        left := left - {k};
        EarlierByOne(deliveries, keys - left - {k}, first, k);
        if Earlier(deliveries, k, first) { first := k; }
      }
    }

    /** The earliest due rows, in order, at most the batch. */
    method SelectDue(now: int) returns (rows: seq<Key>)
      ensures Distinct(rows) && BatchOf(rows, deliveries, now)
    {
      rows := [];
      ghost var due := set k | k in deliveries && Due(deliveries[k], now);
      var left := set k | k in deliveries && Due(deliveries[k], now);
      while left != {} && |rows| < BATCH
        invariant |rows| <= BATCH && Picked(deliveries, due, rows, left)
        decreases left
      {
        var k := SelectFirst(left);
        PickedByOne(deliveries, due, rows, left, k);
        rows, left := rows + [k], left - {k};
      }
      OrderedAreDistinct(deliveries, rows);
    }

    /** The attempt is on disk before anything is sent. */
    method TryRow(k: Key, checked: int, started: int, outcome: Outcome)
      requires worker.Looping? && worker.rows != [] && worker.rows[0] == k && Enabled(Contents(), Claim(checked, started))
      modifies this
      ensures Contents() == Step(Step(Step(old(Contents()), Claim(checked, started)), Send), Conclude(outcome))
      ensures worker == Looping(old(worker.rows)[1..]) && clock == started
    {
      var ordinal := deliveries[k].attempts + 1;
      clock := started;
      deliveries := deliveries[k := deliveries[k].(progress := Sending, attempts := ordinal, nextAttempt := started + Backoff(ordinal))];
      attempts := attempts[AttemptId(k, ordinal) := Attempt(started, checked, Unknown)];
      worker := Claimed(k, worker.rows[1..]);
      ghost var claimed := Contents();
      assert claimed == Step(old(Contents()), Claim(checked, started));
      sends, worker := sends + [AttemptId(k, ordinal)], Sent(k, worker.rows);
      ghost var sent := Contents();
      assert sent == Step(claimed, Send);
      deliveries := deliveries[k := deliveries[k].(progress := Concluded(outcome, ordinal))];
      attempts := attempts[AttemptId(k, ordinal) := attempts[AttemptId(k, ordinal)].(outcome := outcome)];
      worker := Looping(worker.rows);
      assert Contents() == Step(sent, Conclude(outcome));
    }

    /** One selected row: tried, or passed over when it is no longer an action or too late. */
    method HandleRow(k: Key, r: Reading)
      requires Inv(Contents()) && worker.Looping? && worker.rows != [] && worker.rows[0] == k && clock <= r.checked <= r.started
      modifies this
      ensures Contents() == AfterRow(old(Contents()), r)
    {
      assert k in worker.rows;
      if r.active && r.checked + TIMEOUT < deliveries[k].deadline {
        TryRow(k, r.checked, r.started, r.outcome);
      } else {
        clock, worker := r.checked, Looping(worker.rows[1..]);
      }
    }

    method Start(items: set<Key>, now: int) returns (rows: seq<Key>, ghost ops: seq<Op>)
      requires worker.Idle? && now >= clock && Inv(Contents())
      modifies this
      ensures Contents() == Run(old(Contents()), ops) && Inv(Contents()) && worker == Looping(rows) && clock == now && |rows| <= BATCH
      ensures deliveries == Synced(old(deliveries), items, now) && attempts == old(attempts) && sends == old(sends)
      ensures BatchOf(rows, deliveries, now)
    {
      ghost var s := Contents();
      Synchronize(items, now);
      rows := SelectDue(now);
      clock, worker := now, Looping(rows);
      ghost var begin := Begin(items, now, rows);
      StepKeepsInv(s, begin);
      ops := [] + [begin];
      RunOneMore(s, [], begin);
      assert Contents() == Step(s, begin);
    }

    /** The selected rows, one after another. */
    method HandleBatch(ghost s: State, ghost done: seq<Op>, ghost synced: State, batch: seq<Key>, answers: seq<Reading>, now: int)
      returns (ghost ops: seq<Op>)
      requires Timed(answers, now) && Ticking(s, done, synced, Contents(), batch, 0, answers, now)
      modifies this
      ensures Ticking(s, ops, synced, Contents(), batch, |batch|, answers, now)
    {
      ops := done;
      for i := 0 to |batch|
        invariant Ticking(s, ops, synced, Contents(), batch, i, answers, now)
      {
        ghost var t;
        t, ops := TickByOne(s, ops, synced, Contents(), batch, i, answers, now);
        HandleRow(batch[i], answers[i]);
      }
    }

    /** A tick that is not interrupted is a run of the steps; the clock never goes back. It handles each row of one
        batch, all due rows when these are fewer than a hundred, as its reading says, and leaves every other row as
        the synchronisation made it. */
    method Tick(items: set<Key>, now: int, answers: seq<Reading>) returns (ghost rows: seq<Key>, ghost ops: seq<Op>)
      requires worker.Idle? && now >= clock && |answers| >= BATCH && Inv(Contents())
      requires Timed(answers, now)
      modifies this
      ensures Contents() == Run(old(Contents()), ops) && worker.Idle? && Inv(Contents())
      ensures BatchHandled(old(Contents()).(deliveries := Synced(old(deliveries), items, now)), Contents(), rows, |rows|, answers)
      ensures BatchOf(rows, Synced(old(deliveries), items, now), now)
    {
      ghost var s := Contents();
      var batch;
      batch, ops := Start(items, now);
      rows := batch;
      ghost var synced := s.(deliveries := deliveries);
      TickBegins(s, ops, synced, Contents(), batch, answers, now);
      ops := HandleBatch(s, ops, synced, batch, answers, now);
      TickEnds(s, ops, synced, Contents(), batch, answers, now);
      worker := Idle;
      ops := ops + [Stop];
    }
  }

  /** A batch is of distinct rows in the order they were first seen, each unfinished, past its backoff, more than ten
      seconds from its deadline and with an attempt left; another such row is left out only by a hundred earlier ones. */
  predicate BatchOf(rows: seq<Key>, deliveries: map<Key, Delivery>, now: int) {
    |rows| <= 100 && (forall k :: k in rows ==> k in deliveries) &&
    (forall i, j :: 0 <= i < j < |rows| ==> Earlier(deliveries, rows[i], rows[j])) &&
    forall k :: k in deliveries ==>
      var d := deliveries[k];
      var ready := (d.progress == Pending || d.progress == Sending) && d.nextAttempt <= now && d.deadline > now + 10 && d.attempts < 3;
      (k in rows ==> ready) && (ready && k !in rows ==> |rows| == 100 && forall row :: row in rows ==> Earlier(deliveries, row, k))
  }

  /** The first i rows of the batch are handled as their readings say, and every other row is as it was. */
  predicate BatchHandled(s: State, t: State, rows: seq<Key>, i: nat, answers: seq<Reading>) {
    i <= |rows| <= |answers| && Distinct(rows) && t.deliveries.Keys == s.deliveries.Keys &&
    (forall j :: 0 <= j < i ==> Handled(s, t, rows[j], answers[j])) &&
    forall k :: k in s.deliveries && k !in rows[..i] ==> t.deliveries[k] == s.deliveries[k]
  }

  /** The readings of the clock come one after another. */
  predicate Timed(answers: seq<Reading>, now: int) {
    (forall i :: 0 <= i < |answers| ==> now <= answers[i].checked <= answers[i].started) &&
    forall i, j :: 0 <= i < j < |answers| ==> answers[i].started <= answers[j].checked
  }

  /** A tick that began in `s` and has handled the first i rows of its batch. */
  ghost predicate Ticking(s: State, ops: seq<Op>, synced: State, t: State, rows: seq<Key>, i: nat, answers: seq<Reading>, now: int) {
    i <= |rows| <= |answers| && t == Run(s, ops) && Inv(t) && t.worker == Looping(rows[i..]) &&
    t.clock <= (if i == 0 then now else answers[i - 1].started) && BatchHandled(synced, t, rows, i, answers)
  }

  lemma TickBegins(s: State, ops: seq<Op>, synced: State, t: State, rows: seq<Key>, answers: seq<Reading>, now: int)
    requires t == Run(s, ops) && Inv(t) && t.worker == Looping(rows) && t.clock == now && t.deliveries == synced.deliveries
    requires |rows| <= |answers| && Distinct(rows)
    ensures Ticking(s, ops, synced, t, rows, 0, answers, now)
  {
    assert rows[0..] == rows;
  }

  lemma TickEnds(s: State, ops: seq<Op>, synced: State, t: State, rows: seq<Key>, answers: seq<Reading>, now: int)
    requires Ticking(s, ops, synced, t, rows, |rows|, answers, now)
    ensures var u := t.(worker := Idle); u == Run(s, ops + [Stop]) && Inv(u) && BatchHandled(synced, u, rows, |rows|, answers)
  {
    StepKeepsInv(t, Stop);
    RunOneMore(s, ops, Stop);
    BatchStays(synced, t, t.(worker := Idle), rows, answers);
  }

  lemma BatchStays(s: State, t: State, u: State, rows: seq<Key>, answers: seq<Reading>)
    requires BatchHandled(s, t, rows, |rows|, answers) && u.deliveries == t.deliveries && u.attempts == t.attempts && u.sends == t.sends
    ensures BatchHandled(s, u, rows, |rows|, answers)
  {
    forall j | 0 <= j < |rows| ensures Handled(s, u, rows[j], answers[j]) { assert Handled(s, t, rows[j], answers[j]); }
  }

  lemma TickByOne(s: State, done: seq<Op>, synced: State, before: State, rows: seq<Key>, i: nat, answers: seq<Reading>, now: int)
    returns (t: State, ops: seq<Op>)
    requires i < |rows| && Ticking(s, done, synced, before, rows, i, answers, now) && Timed(answers, now)
    ensures before.worker.Looping? && before.worker.rows != [] && before.worker.rows[0] == rows[i] && Inv(before)
    ensures before.clock <= answers[i].checked <= answers[i].started
    ensures t == AfterRow(before, answers[i]) && Ticking(s, ops, synced, t, rows, i + 1, answers, now)
  {
    assert rows[i..][0] == rows[i] && rows[i..][1..] == rows[i + 1..];
    assert rows[i] in before.worker.rows;
    if i > 0 { assert answers[i - 1].started <= answers[i].checked; }
    ops := RowIsRun(s, done, before, rows[i], answers[i]);
    t := AfterRow(before, answers[i]);
    BatchByOne(synced, before, t, rows, i, answers);
  }

  lemma BatchByOne(s: State, before: State, t: State, rows: seq<Key>, i: nat, answers: seq<Reading>)
    requires i < |rows| && BatchHandled(s, before, rows, i, answers) && rows[i] in s.deliveries
    requires Handled(before, t, rows[i], answers[i]) && OnlyRow(before, t, rows[i])
    ensures BatchHandled(s, t, rows, i + 1, answers)
  {
    assert rows[i] !in rows[..i] && rows[..i + 1] == rows[..i] + [rows[i]];
    HandledFrom(s, before, t, rows[i], answers[i]);
    forall j | 0 <= j < i ensures Handled(s, t, rows[j], answers[j]) {
      HandledStays(s, before, t, rows[j], answers[j], rows[i]);
    }
  }

  /** One row's turn is a run of the steps, and handles it. */
  lemma RowIsRun(s: State, done: seq<Op>, before: State, k: Key, r: Reading) returns (ops: seq<Op>)
    requires before == Run(s, done) && Inv(before) && before.worker.Looping? && before.worker.rows != [] && before.worker.rows[0] == k
    requires before.clock <= r.checked <= r.started
    ensures var t := AfterRow(before, r);
      t == Run(s, ops) && Inv(t) && t.worker == Looping(before.worker.rows[1..]) && t.clock <= r.started &&
      Handled(before, t, k, r) && OnlyRow(before, t, k)
  {
    assert k in before.worker.rows;
    RowIsHandled(before, k, r);
    if r.active && r.checked + TIMEOUT < before.deliveries[k].deadline {
      var claim, conclude := Claim(r.checked, r.started), Conclude(r.outcome);
      RunOneMore(s, done, claim);
      RunOneMore(s, done + [claim], Send);
      RunOneMore(s, done + [claim] + [Send], conclude);
      StepKeepsInv(before, claim);
      StepKeepsInv(Step(before, claim), Send);
      StepKeepsInv(Step(Step(before, claim), Send), conclude);
      ops := done + [claim] + [Send] + [conclude];
    } else {
      RunOneMore(s, done, Pass(r.checked));
      StepKeepsInv(before, Pass(r.checked));
      ops := done + [Pass(r.checked)];
    }
  }

  lemma RowIsHandled(before: State, k: Key, r: Reading)
    requires Inv(before) && before.worker.Looping? && before.worker.rows != [] && before.worker.rows[0] == k
    requires before.clock <= r.checked <= r.started
    ensures var t := AfterRow(before, r);
      Handled(before, t, k, r) && OnlyRow(before, t, k) && t.worker == Looping(before.worker.rows[1..]) && t.clock <= r.started
  {
    assert k in before.worker.rows;
    if r.active && r.checked + TIMEOUT < before.deliveries[k].deadline { TriedIsHandled(before, k, r); }
  }

  lemma TriedIsHandled(before: State, k: Key, r: Reading)
    requires before.worker.Looping? && before.worker.rows != [] && before.worker.rows[0] == k && k in before.deliveries
    requires before.clock <= r.checked <= r.started && r.active && r.checked + TIMEOUT < before.deliveries[k].deadline
    requires before.deliveries[k].attempts < ATTEMPTS
    ensures var t := AfterRow(before, r);
      Handled(before, t, k, r) && OnlyRow(before, t, k) && t.worker == Looping(before.worker.rows[1..]) && t.clock == r.started
  {
    var claimed := Step(before, Claim(r.checked, r.started));
    var sent := Step(claimed, Send);
    assert claimed == Perform(before, Claim(r.checked, r.started)) && sent == Perform(claimed, Send);
    assert sent.sends == before.sends + [AttemptId(k, before.deliveries[k].attempts + 1)];
    assert sent.sends[|before.sends|] == AttemptId(k, before.deliveries[k].attempts + 1);
  }

  /** A row that was as synchronised when its turn came. */
  lemma HandledFrom(s: State, before: State, t: State, k: Key, r: Reading)
    requires Handled(before, t, k, r) && k in s.deliveries && k in before.deliveries && before.deliveries[k] == s.deliveries[k]
    ensures Handled(s, t, k, r)
  {
  }

  /** Each row after a synchronisation: an action seen for the first time has ten minutes and three attempts; an open
      row whose action is gone is obsolete; one whose time or attempts are up has failed; every other is as it was. */
  lemma SyncedExactly(deliveries: map<Key, Delivery>, items: set<Key>, now: int, k: Key)
    ensures var t := Synced(deliveries, items, now);
      (k in t <==> k in deliveries || k in items) &&
      (k in items && k !in deliveries ==> t[k] == Delivery(now, now + 600, 0, now, Pending)) &&
      (k in deliveries ==>
        var d := deliveries[k];
        var unfinished := d.progress == Pending || d.progress == Sending;
        t[k] == if unfinished && k !in items then d.(progress := Obsolete)
          else if unfinished && (d.deadline <= now || d.attempts >= 3) then d.(progress := Failed) else d)
  {
  }

  lemma {:induction false} RunOneMore(s: State, ops: seq<Op>, op: Op)
    ensures Run(s, ops + [op]) == Step(Run(s, ops), op)
    decreases |ops|
  {
    if ops == [] {
      assert ops + [op] == [op] && [op][1..] == [];
      assert Run(Step(s, op), []) == Step(s, op);
    } else {
      assert (ops + [op])[1..] == ops[1..] + [op];
      RunOneMore(Step(s, ops[0]), ops[1..], op);
    }
  }
}
