/** The append-only validation ledger (tools/evidence_ledger.py).

    An identity that the program obtains as a SHA-256 of fresh or canonical bytes is a number
    here. `input_key` and `execution_key` are digests of the values they name; the model keeps
    the value itself, which is what a digest without collisions amounts to. */
module EvidenceLedger {

  type Id = nat

  datatype Inputs = Inputs(approval: string, commit: string, environment: string, tree: string)
  datatype Executed = Executed(approval: string, environment: string, tree: string)

  datatype Kind = Start | Pass | Fail | Revoke
  datatype Event = Event(kind: Kind, validationId: Id, attempt: Id, inputKey: Inputs, executionKey: Executed)

  datatype Row = Row(path: string, sha256: Id)
  datatype Outcome = Passed | Failed
  datatype Record = Record(outcome: Outcome, attempt: Id, inputs: Inputs, evidence: map<string, Row>)

  datatype State = State(events: seq<Event>, records: map<Id, Record>)

  datatype Category = Missing | Blocked | Mismatch | Tampered
  datatype Result<+T> = Ok(value: T) | Refused(category: Category)

  const EMPTY := State([], map[])

  /** keys() accepts only non-empty identities. */
  predicate Named(inputs: Inputs) {
    inputs.approval != "" && inputs.commit != "" && inputs.environment != "" && inputs.tree != ""
  }

  function Execution(inputs: Inputs): Executed {
    Executed(inputs.approval, inputs.environment, inputs.tree)
  }

  // ---------------------------------------------------------------- reading the index

  predicate Concludes(event: Event) { event.kind == Pass || event.kind == Fail }

  function StartedUnder(events: seq<Event>, key: Executed): set<Id> {
    set i | 0 <= i < |events| && events[i].kind == Start && events[i].executionKey == key :: events[i].attempt
  }

  function ConcludedUnder(events: seq<Event>, key: Executed): set<Id> {
    set i | 0 <= i < |events| && Concludes(events[i]) && events[i].executionKey == key :: events[i].attempt
  }

  function Pending(events: seq<Event>, key: Executed): set<Id> {
    StartedUnder(events, key) - ConcludedUnder(events, key)
  }

  function Announced(events: seq<Event>, inputs: Inputs): set<Id> {
    set i | 0 <= i < |events| && events[i].kind == Start && events[i].inputKey == inputs :: events[i].attempt
  }

  /** What unconcluded() reports for exactly these inputs. */
  function Unconcluded(events: seq<Event>, inputs: Inputs): set<Id> {
    Pending(events, Execution(inputs)) * Announced(events, inputs)
  }

  predicate Starts(events: seq<Event>, i: int, attempt: Id) {
    0 <= i < |events| && events[i].kind == Start && events[i].attempt == attempt
  }

  predicate Decides(events: seq<Event>, j: int, attempt: Id) {
    0 <= j < |events| && Concludes(events[j]) && events[j].attempt == attempt
  }

  predicate Admits(events: seq<Event>, i: int, validationId: Id) {
    0 <= i < |events| && events[i].kind == Pass && events[i].validationId == validationId
  }

  /** Index of the last PASS of this validation among the first n events; -1 when there is none. */
  function LastAdmission(events: seq<Event>, validationId: Id, n: nat): (at: int)
    requires n <= |events|
    ensures -1 <= at < n
    ensures at >= 0 ==> Admits(events, at, validationId)
    ensures forall i :: at < i < n ==> !Admits(events, i, validationId)
  {
    if n == 0 then -1
    else if Admits(events, n - 1, validationId) then n - 1
    else LastAdmission(events, validationId, n - 1)
  }

  /** Event j comes after an admission of this validation and contradicts it. */
  predicate Supersedes(events: seq<Event>, validationId: Id, j: int) {
    0 <= j < |events| && events[j].kind != Pass &&
    var at := LastAdmission(events, validationId, j);
    at >= 0 && events[j].executionKey == events[at].executionKey
  }

  ghost predicate Stands(events: seq<Event>, validationId: Id) {
    var at := LastAdmission(events, validationId, |events|);
    at >= 0 &&
    (forall j :: !Supersedes(events, validationId, j)) &&
    Pending(events, events[at].executionKey) == {}
  }

  // ---------------------------------------------------------------- writing the index

  /** One completed write. RecordOnly is record() killed between its record file and its event. */
  datatype Op =
    | Begin(inputs: Inputs, attempt: Id)
    | Conclude(outcome: Outcome, attempt: Id, inputs: Inputs, evidence: map<string, Row>, validationId: Id)
    | RecordOnly(outcome: Outcome, attempt: Id, inputs: Inputs, evidence: map<string, Row>, validationId: Id)
    | Withdraw(validationId: Id)

  /** The refusals of begin(), record() and revoke(); the attempt and validation identities are
      digests over fresh nonces, so an identity already in use cannot be drawn again. */
  predicate Enabled(s: State, op: Op) {
    match op
    case Begin(inputs, attempt) => Named(inputs) && forall i :: 0 <= i < |s.events| ==> s.events[i].attempt != attempt
    case Conclude(outcome, attempt, inputs, evidence, validationId) => Recordable(s, outcome, attempt, inputs, evidence, validationId)
    case RecordOnly(outcome, attempt, inputs, evidence, validationId) => Recordable(s, outcome, attempt, inputs, evidence, validationId)
    case Withdraw(validationId) => validationId in s.records && s.records[validationId].outcome == Passed
  }

  predicate Recordable(s: State, outcome: Outcome, attempt: Id, inputs: Inputs, evidence: map<string, Row>, validationId: Id) {
    Named(inputs) && (outcome == Passed ==> evidence != map[]) &&
    attempt in Unconcluded(s.events, inputs) && validationId !in s.records
  }

  function Written(s: State, op: Op): seq<Event> {
    match op
    case Begin(inputs, attempt) => [Event(Start, attempt, attempt, inputs, Execution(inputs))]
    case Conclude(outcome, attempt, inputs, evidence, validationId) =>
      [Event(if outcome == Passed then Pass else Fail, validationId, attempt, inputs, Execution(inputs))]
    case RecordOnly(outcome, attempt, inputs, evidence, validationId) => []
    case Withdraw(validationId) =>
      if validationId !in s.records then []
      else
        var record := s.records[validationId];
        [Event(Revoke, validationId, record.attempt, record.inputs, Execution(record.inputs))]
  }

  function Stored(s: State, op: Op): map<Id, Record> {
    if op.Conclude? || op.RecordOnly?
    then s.records[op.validationId := Record(op.outcome, op.attempt, op.inputs, op.evidence)]
    else s.records
  }

  function Apply(s: State, op: Op): State {
    if Enabled(s, op) then State(s.events + Written(s, op), Stored(s, op)) else s
  }

  function Run(s: State, ops: seq<Op>): State
    decreases |ops|
  {
    if ops == [] then s else Run(Apply(s, ops[0]), ops[1..])
  }

  // ---------------------------------------------------------------- what every run keeps

  predicate Keyed(s: State) {
    forall i :: 0 <= i < |s.events| ==>
      Named(s.events[i].inputKey) && s.events[i].executionKey == Execution(s.events[i].inputKey)
  }

  predicate StartsOnce(s: State) {
    forall i, j :: 0 <= i < j < |s.events| && s.events[i].kind == Start && s.events[j].kind == Start ==>
      s.events[i].attempt != s.events[j].attempt
  }

  /** Some start before position n announced this attempt for exactly these inputs. */
  predicate StartedBy(events: seq<Event>, n: int, attempt: Id, inputs: Inputs) {
    exists i :: 0 <= i < n && i < |events| && events[i].kind == Start && events[i].attempt == attempt && events[i].inputKey == inputs
  }

  predicate ConclusionsAnnounced(s: State) {
    forall j :: 0 <= j < |s.events| && s.events[j].kind != Start ==>
      StartedBy(s.events, j, s.events[j].attempt, s.events[j].inputKey)
  }

  predicate ConcludesOnce(s: State) {
    forall i, j :: 0 <= i < j < |s.events| && Concludes(s.events[i]) && Concludes(s.events[j]) ==>
      s.events[i].attempt != s.events[j].attempt
  }

  predicate Backed(s: State) {
    (forall i :: 0 <= i < |s.events| && s.events[i].kind in {Pass, Fail, Revoke} ==>
      s.events[i].validationId in s.records &&
      var record := s.records[s.events[i].validationId];
      record.attempt == s.events[i].attempt && record.inputs == s.events[i].inputKey &&
      (record.outcome == Passed <==> s.events[i].kind != Fail)) &&
    (forall v :: v in s.records ==> StartedBy(s.events, |s.events|, s.records[v].attempt, s.records[v].inputs))
  }

  predicate AdmittedOnce(s: State) {
    forall i, j :: 0 <= i < j < |s.events| && s.events[i].kind == Pass && s.events[j].kind == Pass ==>
      s.events[i].validationId != s.events[j].validationId
  }

  predicate Valid(s: State) {
    Keyed(s) && StartsOnce(s) && ConclusionsAnnounced(s) && ConcludesOnce(s) && Backed(s) && AdmittedOnce(s)
  }

  lemma StartedByExtends(events: seq<Event>, more: seq<Event>, n: int, m: int, attempt: Id, inputs: Inputs)
    requires StartedBy(events, n, attempt, inputs) && n <= m
    ensures StartedBy(events + more, m, attempt, inputs)
  {
    var i :| 0 <= i < n && i < |events| && events[i].kind == Start && events[i].attempt == attempt && events[i].inputKey == inputs;
    assert (events + more)[i] == events[i];
  }

  /** An attempt record() accepts was announced for exactly its inputs and has no conclusion at all. */
  lemma UnconcludedIsOpen(s: State, attempt: Id, inputs: Inputs)
    requires Valid(s)
    ensures attempt in Unconcluded(s.events, inputs) <==>
      StartedBy(s.events, |s.events|, attempt, inputs) && forall j :: !Decides(s.events, j, attempt)
  {
    var events := s.events;
    if attempt in Announced(events, inputs) {
      var i :| 0 <= i < |events| && events[i].kind == Start && events[i].inputKey == inputs && events[i].attempt == attempt;
      assert StartedBy(events, |events|, attempt, inputs);
      assert attempt in StartedUnder(events, Execution(inputs));
      forall j | Decides(events, j, attempt)
        ensures events[j].executionKey == Execution(inputs)
      {
        assert StartedBy(events, j, attempt, events[j].inputKey);
      }
      if attempt in ConcludedUnder(events, Execution(inputs)) {
        var j :| 0 <= j < |events| && Concludes(events[j]) && events[j].executionKey == Execution(inputs) && events[j].attempt == attempt;
        assert Decides(events, j, attempt);
      }
      assert forall j :: Decides(events, j, attempt) ==> attempt in ConcludedUnder(events, Execution(inputs));
    }
  }

  lemma AppendedStartedBy(s: State, op: Op)
    requires Valid(s) && Enabled(s, op)
    ensures ConclusionsAnnounced(Apply(s, op))
    ensures forall v :: v in s.records ==>
      StartedBy(Apply(s, op).events, |Apply(s, op).events|, s.records[v].attempt, s.records[v].inputs)
  {
    var t, more := Apply(s, op), Written(s, op);
    if op.Conclude? || op.RecordOnly? { UnconcludedIsOpen(s, op.attempt, op.inputs); }
    forall j | 0 <= j < |t.events| && t.events[j].kind != Start
      ensures StartedBy(t.events, j, t.events[j].attempt, t.events[j].inputKey)
    {
      var n := if j < |s.events| then j else |s.events|;
      if j < |s.events| { assert t.events[j] == s.events[j]; }
      StartedByExtends(s.events, more, n, j, t.events[j].attempt, t.events[j].inputKey);
    }
    forall v | v in s.records
      ensures StartedBy(t.events, |t.events|, s.records[v].attempt, s.records[v].inputs)
    {
      StartedByExtends(s.events, more, |s.events|, |t.events|, s.records[v].attempt, s.records[v].inputs);
    }
  }

  lemma AppendedOnce(s: State, op: Op)
    requires Valid(s) && Enabled(s, op)
    ensures StartsOnce(Apply(s, op)) && ConcludesOnce(Apply(s, op)) && AdmittedOnce(Apply(s, op)) && Keyed(Apply(s, op))
  {
    var t, n := Apply(s, op), |s.events|;
    if op.Conclude? { UnconcludedIsOpen(s, op.attempt, op.inputs); }
    forall i, j | 0 <= i < j < |t.events|
      ensures t.events[i].kind == Start && t.events[j].kind == Start ==> t.events[i].attempt != t.events[j].attempt
      ensures Concludes(t.events[i]) && Concludes(t.events[j]) ==> t.events[i].attempt != t.events[j].attempt
      ensures t.events[i].kind == Pass && t.events[j].kind == Pass ==> t.events[i].validationId != t.events[j].validationId
    {
      assert t.events[i] == s.events[i];
      if j < n {
        assert t.events[j] == s.events[j];
      } else if Concludes(s.events[i]) {
        assert Decides(s.events, i, s.events[i].attempt);
      }
    }
  }

  lemma AppendedBacked(s: State, op: Op)
    requires Valid(s) && Enabled(s, op)
    ensures Backed(Apply(s, op))
  {
    AppendedStartedBy(s, op);
    var t := Apply(s, op);
    if op.Conclude? || op.RecordOnly? {
      UnconcludedIsOpen(s, op.attempt, op.inputs);
      StartedByExtends(s.events, Written(s, op), |s.events|, |t.events|, op.attempt, op.inputs);
    }
    forall i | 0 <= i < |t.events| && t.events[i].kind in {Pass, Fail, Revoke}
      ensures t.events[i].validationId in t.records &&
        var record := t.records[t.events[i].validationId];
        record.attempt == t.events[i].attempt && record.inputs == t.events[i].inputKey &&
        (record.outcome == Passed <==> t.events[i].kind != Fail)
    {
      if i < |s.events| { assert t.events[i] == s.events[i]; }
    }
  }

  lemma ApplyKeepsValid(s: State, op: Op)
    requires Valid(s)
    ensures Valid(Apply(s, op))
  {
    if Enabled(s, op) {
      AppendedStartedBy(s, op);
      AppendedOnce(s, op);
      AppendedBacked(s, op);
    }
  }

  lemma {:induction false} RunKeepsValid(s: State, ops: seq<Op>)
    requires Valid(s)
    ensures Valid(Run(s, ops))
    decreases |ops|
  {
    if ops != [] {
      ApplyKeepsValid(s, ops[0]);
      RunKeepsValid(Apply(s, ops[0]), ops[1..]);
    }
  }

  /** In every ledger built by begin, record and revoke, with crashes between record()'s two writes:
      an attempt starts once, concludes at most once, after its start, and for exactly the inputs
      the start announced, commit included. */
  lemma ConclusionBindsItsStart(ops: seq<Op>, i: int, j: int, attempt: Id)
    requires var events := Run(EMPTY, ops).events; Decides(events, j, attempt) && Starts(events, i, attempt)
    ensures var events := Run(EMPTY, ops).events;
      i < j && events[j].inputKey == events[i].inputKey && events[j].executionKey == events[i].executionKey &&
      (forall k :: Decides(events, k, attempt) ==> k == j) && (forall k :: Starts(events, k, attempt) ==> k == i)
  {
    RunKeepsValid(EMPTY, ops);
    var events := Run(EMPTY, ops).events;
    assert StartedBy(events, j, attempt, events[j].inputKey);
  }

  /** No later start, FAIL or revocation has the execution key of event i. */
  ghost predicate Unopposed(events: seq<Event>, i: int) {
    0 <= i < |events| &&
    forall j :: i < j < |events| && events[j].kind != Pass ==> events[j].executionKey != events[i].executionKey
  }

  /** Every start of this execution key has a conclusion behind it. */
  ghost predicate AllConcluded(events: seq<Event>, key: Executed) {
    forall k :: 0 <= k < |events| && events[k].kind == Start && events[k].executionKey == key ==>
      exists c :: k < c && Decides(events, c, events[k].attempt)
  }

  /** In such a ledger a PASS stands exactly when it was admitted, no later start, FAIL or
      revocation has its execution key, and no start of that key is unconcluded. */
  lemma StandsExactly(ops: seq<Op>, validationId: Id)
    ensures var events := Run(EMPTY, ops).events;
      Stands(events, validationId) <==>
      exists i :: Admits(events, i, validationId) && Unopposed(events, i) && AllConcluded(events, events[i].executionKey)
  {
    var s := Run(EMPTY, ops);
    RunKeepsValid(EMPTY, ops);
    var events := s.events;
    var at := LastAdmission(events, validationId, |events|);
    if at >= 0 {
      assert Admits(events, at, validationId);
      forall i | Admits(events, i, validationId) ensures i == at { }
      SupersededExactly(s, validationId, at);
      NothingPendingExactly(s, events[at].executionKey);
    }
  }

  lemma SupersededExactly(s: State, validationId: Id, at: int)
    requires Valid(s) && Admits(s.events, at, validationId)
    ensures forall j :: Supersedes(s.events, validationId, j) <==>
      at < j < |s.events| && s.events[j].kind != Pass && s.events[j].executionKey == s.events[at].executionKey
  {
    forall j | 0 <= j < |s.events|
      ensures LastAdmission(s.events, validationId, j) == if at < j then at else -1
    {
      var last := LastAdmission(s.events, validationId, j);
      assert last >= 0 ==> Admits(s.events, last, validationId);
      assert at < j && last < at ==> !Admits(s.events, at, validationId);
    }
  }

  lemma NothingPendingExactly(s: State, key: Executed)
    requires Valid(s)
    ensures Pending(s.events, key) == {} <==> AllConcluded(s.events, key)
  {
    var events := s.events;
    forall k | 0 <= k < |events| && events[k].kind == Start && events[k].executionKey == key
      ensures events[k].attempt in Pending(events, key) <==> !exists c :: k < c && Decides(events, c, events[k].attempt)
    {
      UnconcludedIsOpen(s, events[k].attempt, events[k].inputKey);
      assert events[k].attempt in Announced(events, events[k].inputKey);
      assert events[k].attempt in StartedUnder(events, key);
      forall c | Decides(events, c, events[k].attempt) ensures k < c {
        assert StartedBy(events, c, events[c].attempt, events[c].inputKey);
      }
      assert StartedBy(events, |events|, events[k].attempt, events[k].inputKey);
    }
  }

  /** Whatever is appended later, even by other writers than this program: a superseded PASS never stands again. */
  lemma SupersededForever(events: seq<Event>, more: seq<Event>, validationId: Id, j: int)
    requires Supersedes(events, validationId, j)
    ensures !Stands(events + more, validationId)
  {
    LastAdmissionOfPrefix(events, more, validationId, j);
    assert Supersedes(events + more, validationId, j);
  }

  lemma {:induction false} LastAdmissionOfPrefix(events: seq<Event>, more: seq<Event>, validationId: Id, n: nat)
    requires n <= |events|
    ensures LastAdmission(events + more, validationId, n) == LastAdmission(events, validationId, n)
  {
    if n > 0 {
      assert (events + more)[n - 1] == events[n - 1];
      LastAdmissionOfPrefix(events, more, validationId, n - 1);
    }
  }

  // ---------------------------------------------------------------- current(): the newest PASS decides for all

  predicate PassOf(events: seq<Event>, i: int, inputs: Inputs) {
    0 <= i < |events| && events[i].kind == Pass && events[i].inputKey == inputs
  }

  predicate Newest(events: seq<Event>, i: int, inputs: Inputs) {
    PassOf(events, i, inputs) && forall k :: i < k < |events| ==> !PassOf(events, k, inputs)
  }

  /** current() looks only at the newest PASS of the inputs, yet it refuses only when no PASS of them stands. */
  lemma NewestPassDecides(ops: seq<Op>, inputs: Inputs, newest: int)
    requires var events := Run(EMPTY, ops).events;
      Newest(events, newest, inputs)
    ensures var events := Run(EMPTY, ops).events;
      Stands(events, events[newest].validationId) <==>
      exists i :: PassOf(events, i, inputs) && Stands(events, events[i].validationId)
  {
    RunKeepsValid(EMPTY, ops);
    var s := Run(EMPTY, ops);
    if i :| PassOf(s.events, i, inputs) && Stands(s.events, s.events[i].validationId) {
      NewerPassStands(s, i, newest);
    }
    if Stands(s.events, s.events[newest].validationId) { assert PassOf(s.events, newest, inputs); }
  }

  /** Nothing that supersedes a PASS leaves an earlier PASS of the same inputs standing. */
  lemma NewerPassStands(s: State, older: int, newer: int)
    requires Valid(s) && 0 <= older <= newer < |s.events|
    requires s.events[older].kind == Pass && s.events[newer].kind == Pass && s.events[older].inputKey == s.events[newer].inputKey
    requires Stands(s.events, s.events[older].validationId)
    ensures Stands(s.events, s.events[newer].validationId)
  {
    var v, w := s.events[older].validationId, s.events[newer].validationId;
    assert Admits(s.events, older, v) && Admits(s.events, newer, w);
    SupersededExactly(s, v, older);
    SupersededExactly(s, w, newer);
    assert forall j :: Supersedes(s.events, w, j) ==> Supersedes(s.events, v, j);
    assert LastAdmission(s.events, v, |s.events|) == older && LastAdmission(s.events, w, |s.events|) == newer;
  }

  // ---------------------------------------------------------------- the ledger directory

  /** evidence files as they are now: path to digest; a path that is absent has no file. */
  type Files = map<string, Id>

  predicate EvidenceIntact(evidence: map<string, Row>, files: Files) {
    forall name :: name in evidence ==> evidence[name].path in files && files[evidence[name].path] == evidence[name].sha256
  }

  /** What an attempt needs to be concluded, by the events that name it. */
  lemma AcceptableExactly(s: State, attempt: Id, inputs: Inputs)
    ensures Valid(s) ==>
      (attempt in Unconcluded(s.events, inputs) <==>
        (exists i :: 0 <= i < |s.events| && s.events[i].kind == Start && s.events[i].attempt == attempt && s.events[i].inputKey == inputs) &&
        forall j :: 0 <= j < |s.events| && s.events[j].kind in {Pass, Fail} ==> s.events[j].attempt != attempt)
  {
    if Valid(s) {
      UnconcludedIsOpen(s, attempt, inputs);
      forall j ensures Decides(s.events, j, attempt) <==> 0 <= j < |s.events| && s.events[j].kind in {Pass, Fail} && s.events[j].attempt == attempt { }
    }
  }

  class Directory {
    var events: seq<Event>
    var records: map<Id, Record>

    function Contents(): State reads this { State(events, records) }

    constructor ()
      ensures Contents() == EMPTY
    {
      events, records := [], map[];
    }

    method Begin(inputs: Inputs, attempt: Id) returns (r: Result<Id>)
      requires forall i :: 0 <= i < |events| ==> events[i].attempt != attempt
      modifies this
      ensures Contents() == Apply(old(Contents()), Op.Begin(inputs, attempt))
      ensures r == if inputs.approval != "" && inputs.commit != "" && inputs.environment != "" && inputs.tree != "" then Ok(attempt) else Refused(Mismatch)
      ensures records == old(records) &&
        events == old(events) + if r.Ok? then [Event(Start, attempt, attempt, inputs, Executed(inputs.approval, inputs.environment, inputs.tree))] else []
    {
      if !Named(inputs) { return Refused(Mismatch); }
      events := events + [Event(Start, attempt, attempt, inputs, Execution(inputs))];
      r := Ok(attempt);
    }

    /** pending(): one pass over the index with two growing sets. */
    method FindPending(key: Executed) returns (attempts: set<Id>)
      ensures attempts == Pending(events, key)
    {
      var started, concluded := {}, {};
      for i := 0 to |events|
        invariant started == StartedUnder(events[..i], key)
        invariant concluded == ConcludedUnder(events[..i], key)
      {
        var event := events[i];
        assert events[..i + 1] == events[..i] + [event];
        assert forall k :: 0 <= k < i ==> events[..i + 1][k] == events[..i][k];
        StartedStep(events, i, key);
        if event.executionKey == key {
          if event.kind == Start {
            started := started + {event.attempt};
          } else if event.kind != Revoke {
            concluded := concluded + {event.attempt};
          }
        }
      }
      assert events[..|events|] == events;
      attempts := started - concluded;
    }

    method ConcludeAttempt(outcome: Outcome, attempt: Id, inputs: Inputs, evidence: map<string, Row>, validationId: Id) returns (r: Result<Id>)
      requires validationId !in records
      modifies this
      ensures Contents() == Apply(old(Contents()), Op.Conclude(outcome, attempt, inputs, evidence, validationId))
      ensures r.Refused? ==> r.category == Mismatch && Contents() == old(Contents())
      ensures r.Ok? ==>
        r.value == validationId && records == old(records)[validationId := Record(outcome, attempt, inputs, evidence)] &&
        events == old(events) + [Event(if outcome == Passed then Pass else Fail, validationId, attempt, inputs,
                                       Executed(inputs.approval, inputs.environment, inputs.tree))]
      ensures old(Valid(Contents())) ==>
        (r.Ok? <==>
          inputs.approval != "" && inputs.commit != "" && inputs.environment != "" && inputs.tree != "" &&
          (outcome == Passed ==> evidence != map[]) &&
          (exists i :: 0 <= i < |old(events)| && old(events)[i].kind == Start && old(events)[i].attempt == attempt && old(events)[i].inputKey == inputs) &&
          forall j :: 0 <= j < |old(events)| && old(events)[j].kind in {Pass, Fail} ==> old(events)[j].attempt != attempt)
    {
      AcceptableExactly(Contents(), attempt, inputs);
      if !Named(inputs) || (outcome == Passed && evidence == map[]) { return Refused(Mismatch); }
      var open := FindPending(Execution(inputs));
      if attempt !in open * Announced(events, inputs) { return Refused(Mismatch); }
      records := records[validationId := Record(outcome, attempt, inputs, evidence)];
      events := events + [Event(if outcome == Passed then Pass else Fail, validationId, attempt, inputs, Execution(inputs))];
      r := Ok(validationId);
    }

    method RevokePass(validationId: Id) returns (r: Result<Id>)
      modifies this
      ensures Contents() == Apply(old(Contents()), Op.Withdraw(validationId))
      ensures r.Ok? <==> validationId in old(records) && old(records)[validationId].outcome == Passed
      ensures validationId !in old(records) ==> r == Refused(Missing)
      ensures validationId in old(records) && !r.Ok? ==> r == Refused(Mismatch)
      ensures records == old(records) && (!r.Ok? ==> events == old(events))
      ensures r.Ok? ==>
        var record := old(records)[validationId];
        events == old(events) + [Event(Revoke, validationId, record.attempt, record.inputs,
                                       Executed(record.inputs.approval, record.inputs.environment, record.inputs.tree))]
    {
      if validationId !in records { return Refused(Missing); }
      var record := records[validationId];
      if record.outcome != Passed { return Refused(Mismatch); }
      events := events + [Event(Revoke, validationId, record.attempt, record.inputs, Execution(record.inputs))];
      r := Ok(validationId);
    }

    /** standing(): the scan keeps the admitting event and stops at the first event that contradicts it. */
    method Standing(validationId: Id) returns (r: Result<int>)
      ensures r.Ok? <==> Stands(events, validationId)
      ensures r.Ok? ==> r.value == LastAdmission(events, validationId, |events|)
      ensures r == Refused(Missing) <==> forall i :: !Admits(events, i, validationId)
      ensures r.Ok? || r == Refused(Missing) || r == Refused(Blocked)
    {
      var admitted := -1;
      for i := 0 to |events|
        invariant admitted == LastAdmission(events, validationId, i)
        invariant forall j :: 0 <= j < i ==> !Supersedes(events, validationId, j)
      {
        if events[i].kind == Pass && events[i].validationId == validationId {
          admitted := i;
        } else if admitted >= 0 && events[i].kind != Pass && events[i].executionKey == events[admitted].executionKey {
          assert Supersedes(events, validationId, i);
          assert Admits(events, admitted, validationId);
          return Refused(Blocked);
        }
      }
      if admitted < 0 { return Refused(Missing); }
      assert Admits(events, admitted, validationId);
      var open := FindPending(events[admitted].executionKey);
      if open != {} { return Refused(Blocked); }
      r := Ok(admitted);
    }

    /** verify(): admission of one PASS against the caller's exact inputs and the files as they are now. */
    method Verify(validationId: Id, inputs: Inputs, files: Files) returns (r: Result<Record>)
      ensures r.Ok? <==> Verifies(Contents(), validationId, inputs, files)
      ensures r.Ok? <==>
        inputs.approval != "" && inputs.commit != "" && inputs.environment != "" && inputs.tree != "" &&
        validationId in records && records[validationId].outcome == Passed && records[validationId].inputs == inputs &&
        Stands(events, validationId) && Bound(events, validationId, inputs) &&
        forall name :: name in records[validationId].evidence ==>
          var row := records[validationId].evidence[name]; row.path in files && files[row.path] == row.sha256
      ensures r.Ok? ==> r.value == records[validationId]
    {
      if !Named(inputs) { return Refused(Mismatch); }
      if validationId !in records { return Refused(Missing); }
      var record := records[validationId];
      if record.outcome != Passed || record.inputs != inputs { return Refused(Mismatch); }
      var at := Standing(validationId);
      if at.Refused? { return Refused(at.category); }
      if events[at.value].inputKey != inputs || events[at.value].executionKey != Execution(inputs) { return Refused(Tampered); }
      if !EvidenceIntact(record.evidence, files) {
        return Refused(if exists name :: name in record.evidence && record.evidence[name].path !in files then Missing else Tampered);
      }
      r := Ok(record);
    }

    /** latest_pass(): the newest PASS of exactly these inputs. */
    method LatestPass(inputs: Inputs) returns (latest: int)
      ensures latest == -1 ==> forall i :: !PassOf(events, i, inputs)
      ensures latest != -1 ==> Newest(events, latest, inputs)
    {
      latest := -1;
      for i := 0 to |events|
        invariant latest == -1 ==> forall k :: PassOf(events, k, inputs) ==> i <= k
        invariant latest != -1 ==> PassOf(events, latest, inputs) && forall k :: PassOf(events, k, inputs) && k < i ==> k <= latest
      {
        if events[i].kind == Pass && events[i].inputKey == inputs { latest := i; }
      }
    }

    method Current(inputs: Inputs, files: Files) returns (r: Result<Record>)
      ensures r.Ok? <==> exists i :: Newest(events, i, inputs) && Verifies(Contents(), events[i].validationId, inputs, files)
      ensures r.Ok? ==> forall i :: Newest(events, i, inputs) ==> Contents().records[events[i].validationId] == r.value
    {
      if !Named(inputs) { return Refused(Mismatch); }
      var latest := LatestPass(inputs);
      if latest == -1 { return Refused(Blocked); }
      r := Verify(events[latest].validationId, inputs, files);
    }
  }

  /** The index names the same inputs for the PASS as its record does. */
  predicate Bound(events: seq<Event>, validationId: Id, inputs: Inputs) {
    var at := LastAdmission(events, validationId, |events|);
    at >= 0 && events[at].inputKey == inputs && events[at].executionKey == Execution(inputs)
  }

  ghost predicate Verifies(s: State, validationId: Id, inputs: Inputs, files: Files) {
    Named(inputs) && validationId in s.records && s.records[validationId].outcome == Passed &&
    s.records[validationId].inputs == inputs && Stands(s.events, validationId) &&
    Bound(s.events, validationId, inputs) && EvidenceIntact(s.records[validationId].evidence, files)
  }

  lemma StartedStep(events: seq<Event>, i: nat, key: Executed)
    requires i < |events|
    ensures StartedUnder(events[..i + 1], key) == StartedUnder(events[..i], key) +
      (if events[i].kind == Start && events[i].executionKey == key then {events[i].attempt} else {})
    ensures ConcludedUnder(events[..i + 1], key) == ConcludedUnder(events[..i], key) +
      (if Concludes(events[i]) && events[i].executionKey == key then {events[i].attempt} else {})
  {
    var before, after := events[..i], events[..i + 1];
    assert forall k :: 0 <= k < i ==> after[k] == before[k];
    assert after[i] == events[i];
    forall a | a in StartedUnder(before, key) ensures a in StartedUnder(after, key) {
      var k :| 0 <= k < |before| && before[k].kind == Start && before[k].executionKey == key && before[k].attempt == a;
      assert after[k] == before[k];
    }
    forall a | a in ConcludedUnder(before, key) ensures a in ConcludedUnder(after, key) {
      var k :| 0 <= k < |before| && Concludes(before[k]) && before[k].executionKey == key && before[k].attempt == a;
      assert after[k] == before[k];
    }
  }

  /** In a ledger this program wrote the index never disagrees with a record, so verify() answers
      with exactly the record, inputs, standing and evidence facts. */
  lemma RecordsNeverDisagree(ops: seq<Op>, validationId: Id)
    requires Stands(Run(EMPTY, ops).events, validationId)
    ensures var s := Run(EMPTY, ops);
      validationId in s.records && s.records[validationId].outcome == Passed &&
      Bound(s.events, validationId, s.records[validationId].inputs)
  {
    RunKeepsValid(EMPTY, ops);
    var s := Run(EMPTY, ops);
    var at := LastAdmission(s.events, validationId, |s.events|);
    assert s.events[at].kind in {Pass, Fail, Revoke};
  }
}
