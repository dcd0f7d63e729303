/** Requirement truth: versions, requests, reviewed snapshots and the authorization test
    (apps/server/src/business.rs). Every command runs in one serialized transaction. */
module Requirements {
  import opened Options

  type RepositoryId = int
  type RequirementId = nat

  /** What a registered repository may never change, and the rest of its document. */
  datatype Identity = Identity(remote: string, delivery: string, github: Option<int>)
  datatype Document = Document(identity: Identity, revoked: bool, policy: string)

  datatype Repository = Repository(version: int, document: Document, revokedThrough: int)
  datatype Phase = Draft | Ready | Started
  datatype Requirement = Requirement(version: int, phase: Phase, contract: string, repository: RepositoryId, revision: nat)
  datatype Revision = Revision(requirement: RequirementId, number: nat)
  datatype Snapshot = Snapshot(repository: RepositoryId, repositoryVersion: int, contract: string, document: Document)

  datatype Command =
    | Save(repository: Option<RepositoryId>, request: string, version: int, document: Document)
    | Create(repository: Option<RepositoryId>, request: string, version: int, contract: string)
    | Edit(id: RequirementId, repository: Option<RepositoryId>, request: string, version: int, contract: string)
    | Review(id: RequirementId, request: string, version: int, repositoryVersion: int)
    | Withdraw(id: RequirementId, request: string, version: int, repositoryVersion: int)

  datatype View = View(id: RequirementId, requirement: Requirement, authorizationValid: bool, snapshots: seq<Snapshot>)
  datatype Result = Registered(id: RepositoryId, version: int, document: Document) | Shown(view: View)
  datatype Status = Conflict | Unprocessable | NotFound | Internal
  datatype Answer = Ok(result: Result) | Error(status: Status)

  datatype Request = Request(command: Command, result: Result)

  /** The order of what happened; kept for the record only. */
  datatype Happening =
    | Saved(repository: RepositoryId, revoked: bool)
    | Reviewed(id: RequirementId, revision: nat, repository: RepositoryId)

  datatype State = State(
    repositories: map<RepositoryId, Repository>, requirements: map<RequirementId, Requirement>,
    snapshots: map<Revision, Snapshot>, requests: map<string, Request>, next: RequirementId, log: seq<Happening>)

  const EMPTY := State(map[], map[], map[], map[], 1, [])

  /** The checks of repositories, contracts and reviews that look at nothing else. */
  datatype Rules = Rules(
    requestValid: string -> bool, repositoryValid: Document -> bool, contractValid: string -> bool, permits: (string, Document) -> bool)

  // ---------------------------------------------------------------- reading a requirement

  function Or<T>(o: Option<T>, default: T): T { if o.Some? then o.value else default }

  /** authorization_valid, computed from the current rows only. */
  predicate AuthorizationValid(s: State, id: RequirementId)
    requires id in s.requirements
  {
    var r := s.requirements[id];
    r.phase == Ready && r.repository in s.repositories && !s.repositories[r.repository].document.revoked &&
    (if Revision(id, r.revision) in s.snapshots then s.snapshots[Revision(id, r.revision)].repositoryVersion else 0) >
      s.repositories[r.repository].revokedThrough
  }

  function Snapshots(s: State, id: RequirementId, n: nat): seq<Snapshot> {
    if n == 0 then []
    else Snapshots(s, id, n - 1) + if Revision(id, n) in s.snapshots then [s.snapshots[Revision(id, n)]] else []
  }

  function Read(s: State, id: RequirementId): View
    requires id in s.requirements
  {
    View(id, s.requirements[id], AuthorizationValid(s, id), Snapshots(s, id, s.requirements[id].revision))
  }

  // ---------------------------------------------------------------- commands

  function Key(c: Command): string { c.request }

  predicate GithubTaken(s: State, id: RepositoryId, github: Option<int>) {
    github.Some? && exists other :: other in s.repositories && other != id && s.repositories[other].document.identity.github == github
  }

  /** Registering or updating a repository. A first save that already revokes leaves revokedThrough at 0. */
  function SaveRepository(s: State, rules: Rules, c: Command): (State, Answer)
    requires c.Save?
  {
    var id := Or(c.repository, 1);
    var known := id in s.repositories;
    if !rules.repositoryValid(c.document) || id <= 0 then (s, Error(Unprocessable))
    else if c.version != (if known then s.repositories[id].version else 0) then (s, Error(Conflict))
    else if known && s.repositories[id].document.identity != c.document.identity then (s, Error(Unprocessable))
    else if GithubTaken(s, id, c.document.identity.github) then (s, Error(Internal))
    else
      var through := if !known then 0 else if c.document.revoked then c.version + 1 else s.repositories[id].revokedThrough;
      (s.(repositories := s.repositories[id := Repository(c.version + 1, c.document, through)],
          log := s.log + [Saved(id, c.document.revoked)]),
       Ok(Registered(id, c.version + 1, c.document)))
  }

  function Put(s: State, id: RequirementId, r: Requirement): State { s.(requirements := s.requirements[id := r]) }

  function Answered(s: State, id: RequirementId): (State, Answer)
    requires id in s.requirements
  {
    (s, Ok(Shown(Read(s, id))))
  }

  function NewRequirement(s: State, rules: Rules, c: Command): (State, Answer)
    requires c.Create?
  {
    if c.version != 0 then (s, Error(Conflict))
    else if !rules.contractValid(c.contract) then (s, Error(Unprocessable))
    else if Or(c.repository, 1) <= 0 then (s, Error(Internal))
    else Answered(Put(s, s.next, Requirement(1, Draft, c.contract, Or(c.repository, 1), 0)).(next := s.next + 1), s.next)
  }

  /** The refusal of a command on a requirement; None when it may go on. */
  function Editable(s: State, id: RequirementId, version: int, phase: Phase, grouped: bool): Option<Status> {
    if grouped then Some(Conflict)
    else if id !in s.requirements then Some(NotFound)
    else if s.requirements[id].version != version || s.requirements[id].phase != phase then Some(Conflict)
    else None
  }

  function EditRequirement(s: State, rules: Rules, c: Command, grouped: bool): (State, Answer)
    requires c.Edit?
  {
    var refusal := Editable(s, c.id, c.version, Draft, grouped);
    if refusal.Some? then (s, Error(refusal.value))
    else if !rules.contractValid(c.contract) then (s, Error(Unprocessable))
    else if Or(c.repository, 1) <= 0 then (s, Error(Internal))
    else
      var r := s.requirements[c.id];
      Answered(Put(s, c.id, r.(contract := c.contract, version := r.version + 1, repository := Or(c.repository, 1))), c.id)
  }

  function ReviewRequirement(s: State, rules: Rules, c: Command, grouped: bool): (State, Answer)
    requires c.Review?
  {
    var refusal := Editable(s, c.id, c.version, Draft, grouped);
    if refusal.Some? then (s, Error(refusal.value))
    else
      var r := s.requirements[c.id];
      if r.repository !in s.repositories || s.repositories[r.repository].version != c.repositoryVersion then (s, Error(Conflict))
      else
        var p := s.repositories[r.repository];
        if p.document.revoked || !rules.contractValid(r.contract) || !rules.permits(r.contract, p.document) then (s, Error(Unprocessable))
        else
          var n := r.revision + 1;
          Answered(Put(s, c.id, r.(phase := Ready, version := r.version + 1, revision := n)).(
            snapshots := s.snapshots[Revision(c.id, n) := Snapshot(r.repository, p.version, r.contract, p.document)],
            log := s.log + [Reviewed(c.id, n, r.repository)]), c.id)
  }

  function Unready(s: State, c: Command, grouped: bool): (State, Answer)
    requires c.Withdraw?
  {
    var refusal := Editable(s, c.id, c.version, Ready, grouped);
    if refusal.Some? then (s, Error(refusal.value))
    else Answered(Put(s, c.id, s.requirements[c.id].(phase := Draft, version := s.requirements[c.id].version + 1)), c.id)
  }

  function Applied(s: State, rules: Rules, c: Command, grouped: bool): (State, Answer) {
    match c
    case Save(_, _, _, _) => SaveRepository(s, rules, c)
    case Create(_, _, _, _) => NewRequirement(s, rules, c)
    case Edit(_, _, _, _, _) => EditRequirement(s, rules, c, grouped)
    case Review(_, _, _, _) => ReviewRequirement(s, rules, c, grouped)
    case Withdraw(_, _, _, _) => Unready(s, c, grouped)
  }

  /** A command, or delivery moving a reviewed requirement on; `grouped`: it belongs to a group. */
  datatype Op = Do(command: Command, grouped: bool) | Advance(id: RequirementId)

  function Executed(s: State, rules: Rules, c: Command, grouped: bool): (State, Answer) {
    if !rules.requestValid(Key(c)) then (s, Error(Unprocessable))
    else if Key(c) in s.requests then (s, if s.requests[Key(c)].command == c then Ok(s.requests[Key(c)].result) else Error(Conflict))
    else
      var (t, answer) := Applied(s, rules, c, grouped);
      if answer.Error? then (s, answer) else (t.(requests := t.requests[Key(c) := Request(c, answer.result)]), answer)
  }

  function Step(s: State, rules: Rules, op: Op): State {
    match op
    case Do(command, grouped) => Executed(s, rules, command, grouped).0
    case Advance(id) =>
      if id in s.requirements && s.requirements[id].phase != Draft
      then Put(s, id, s.requirements[id].(phase := Started, version := s.requirements[id].version + 1)) else s
  }

  function Run(s: State, rules: Rules, ops: seq<Op>): State
    decreases |ops|
  {
    if ops == [] then s else Run(Step(s, rules, ops[0]), rules, ops[1..])
  }

  // ---------------------------------------------------------------- what the saves of a repository amount to

  predicate SaveOf(h: Happening, r: RepositoryId) { h.Saved? && h.repository == r }

  function Saves(log: seq<Happening>, r: RepositoryId): nat {
    if log == [] then 0 else Saves(log[..|log| - 1], r) + if SaveOf(log[|log| - 1], r) then 1 else 0
  }

  function LastRevokes(log: seq<Happening>, r: RepositoryId): bool {
    log != [] && if SaveOf(log[|log| - 1], r) then log[|log| - 1].revoked else LastRevokes(log[..|log| - 1], r)
  }

  /** The number of the last revoking save after the first save; 0 without one. */
  function RevokedThrough(log: seq<Happening>, r: RepositoryId): nat {
    if log == [] then 0
    else if SaveOf(log[|log| - 1], r) && log[|log| - 1].revoked && Saves(log[..|log| - 1], r) > 0 then Saves(log, r)
    else RevokedThrough(log[..|log| - 1], r)
  }

  predicate RevokedAfter(log: seq<Happening>, r: RepositoryId, j: nat) {
    exists k :: j < k < |log| && SaveOf(log[k], r) && log[k].revoked
  }

  /** A review of a repository that was saved and not revoked: the two numbers compare as the history says. */
  lemma {:induction false} NumbersTellHistory(log: seq<Happening>, r: RepositoryId, j: nat)
    requires j < |log| && !SaveOf(log[j], r) && Saves(log[..j], r) > 0 && !LastRevokes(log[..j], r)
    ensures Saves(log[..j], r) <= Saves(log, r)
    ensures !LastRevokes(log, r) && Saves(log[..j], r) > RevokedThrough(log, r) <==> !RevokedAfter(log, r, j)
    decreases |log|
  {
    var front, last := log[..|log| - 1], log[|log| - 1];
    if j == |log| - 1 {
      assert log[..j] == front;
      LastSaveIsCurrent(front, r);
    } else {
      assert log[..j] == front[..j];
      NumbersTellHistory(front, r, j);
      if SaveOf(last, r) && last.revoked { assert RevokedAfter(log, r, j); }
      if RevokedAfter(front, r, j) {
        var k :| j < k < |front| && SaveOf(front[k], r) && front[k].revoked;
        assert SaveOf(log[k], r) && log[k].revoked;
        RevokedNumberIsLater(front, r, j, k);
        RevokedNumberIsLater(log, r, j, k);
      }
    }
  }

  /** Unless the last save revokes, no revoking save has the newest number. */
  lemma {:induction false} LastSaveIsCurrent(log: seq<Happening>, r: RepositoryId)
    ensures RevokedThrough(log, r) <= Saves(log, r)
    ensures Saves(log, r) > 0 && !LastRevokes(log, r) ==> RevokedThrough(log, r) < Saves(log, r)
    decreases |log|
  {
    if log != [] { LastSaveIsCurrent(log[..|log| - 1], r); }
  }

  lemma {:induction false} RevokedNumberIsLater(log: seq<Happening>, r: RepositoryId, j: nat, k: nat)
    requires j < k < |log| && SaveOf(log[k], r) && log[k].revoked && Saves(log[..j], r) > 0
    ensures RevokedThrough(log, r) > Saves(log[..j], r)
    decreases |log|
  {
    var front := log[..|log| - 1];
    assert log[..j] == front[..j];
    SavesGrow(front, r, j);
    if k < |front| {
      RevokedNumberIsLater(front, r, j, k);
    } else {
      assert front[..j] == log[..j];
    }
  }

  lemma {:induction false} SavesGrow(log: seq<Happening>, r: RepositoryId, j: nat)
    requires j <= |log|
    ensures Saves(log[..j], r) <= Saves(log, r)
    decreases |log|
  {
    if j < |log| {
      assert log[..j] == log[..|log| - 1][..j];
      SavesGrow(log[..|log| - 1], r, j);
    } else {
      assert log[..j] == log;
    }
  }

  // ---------------------------------------------------------------- what every run keeps

  predicate RepositoryTrue(s: State, r: RepositoryId) {
    if r in s.repositories then
      s.repositories[r].version == Saves(s.log, r) > 0 && s.repositories[r].document.revoked == LastRevokes(s.log, r) &&
      s.repositories[r].revokedThrough == RevokedThrough(s.log, r)
    else Saves(s.log, r) == 0
  }

  ghost predicate RepositoriesTrue(s: State) { forall r: RepositoryId :: RepositoryTrue(s, r) }

  predicate ReviewTrue(s: State, j: nat)
    requires j < |s.log| && s.log[j].Reviewed?
  {
    var id, n, r := s.log[j].id, s.log[j].revision, s.log[j].repository;
    Saves(s.log[..j], r) > 0 && !LastRevokes(s.log[..j], r) &&
    Revision(id, n) in s.snapshots && s.snapshots[Revision(id, n)].repository == r &&
    s.snapshots[Revision(id, n)].repositoryVersion == Saves(s.log[..j], r) && Numbered(s, id, n)
  }

  predicate Numbered(s: State, id: RequirementId, n: nat) { id in s.requirements && 1 <= n <= s.requirements[id].revision }

  predicate ReviewsTrue(s: State) {
    (forall j: nat :: j < |s.log| && s.log[j].Reviewed? ==> ReviewTrue(s, j)) &&
    (forall v :: v in s.snapshots ==> Numbered(s, v.requirement, v.number)) &&
    forall id :: id in s.requirements ==> id < s.next && (s.requirements[id].phase == Ready ==> ReviewedNow(s, id))
  }

  predicate IsReviewOf(h: Happening, id: RequirementId, n: nat) { h.Reviewed? && h.id == id && h.revision == n }

  /** The current revision was reviewed, of the repository the requirement names. */
  predicate ReviewedNow(s: State, id: RequirementId)
    requires id in s.requirements
  {
    exists j :: 0 <= j < |s.log| && s.log[j] == Reviewed(id, s.requirements[id].revision, s.requirements[id].repository)
  }

  predicate ReviewedOnce(log: seq<Happening>) {
    forall i, j :: 0 <= i < j < |log| && log[i].Reviewed? && log[j].Reviewed? ==> log[i].id != log[j].id || log[i].revision != log[j].revision
  }

  ghost predicate Inv(s: State) { RepositoriesTrue(s) && ReviewsTrue(s) && ReviewedOnce(s.log) }

  lemma SavedRepository(s: State, t: State, id: RepositoryId)
    requires RepositoriesTrue(s) && id in t.repositories && t.repositories == s.repositories[id := t.repositories[id]]
    requires t.log == s.log + [Saved(id, t.repositories[id].document.revoked)]
    requires t.repositories[id].version == 1 + if id in s.repositories then s.repositories[id].version else 0
    requires t.repositories[id].revokedThrough ==
      if id !in s.repositories then 0
      else if t.repositories[id].document.revoked then t.repositories[id].version else s.repositories[id].revokedThrough
    ensures RepositoriesTrue(t)
  {
    assert t.log[..|s.log|] == s.log;
    LastSaveIsCurrent(s.log, id);
    forall r: RepositoryId ensures RepositoryTrue(t, r) { assert RepositoryTrue(s, r); }
  }

  lemma SaveKeepsInv(s: State, rules: Rules, c: Command)
    requires Inv(s) && c.Save?
    ensures Inv(SaveRepository(s, rules, c).0)
  {
    var t := SaveRepository(s, rules, c).0;
    if t.log != s.log {
      SavedRepository(s, t, Or(c.repository, 1));
      LogGrows(s, t);
    }
  }

  /** Appending to the log, and nothing that takes requirements, revisions or snapshots away, keeps the reviews. */
  lemma LogGrows(s: State, t: State)
    requires ReviewsTrue(s) && ReviewedOnce(s.log) && |t.log| == |s.log| + 1 && t.log[..|s.log|] == s.log && t.log[|s.log|].Saved?
    requires t.requirements == s.requirements && t.snapshots == s.snapshots && t.next == s.next
    ensures ReviewsTrue(t) && ReviewedOnce(t.log)
  {
    forall j: nat | j < |t.log| && t.log[j].Reviewed? ensures j < |s.log| && t.log[j] == s.log[j] && ReviewTrue(t, j) {
      ReviewStays(s, t, j);
    }
    forall id | id in t.requirements && t.requirements[id].phase == Ready ensures ReviewedNow(t, id) {
      assert ReviewedNow(s, id);
      var j :| 0 <= j < |s.log| && s.log[j] == Reviewed(id, s.requirements[id].revision, s.requirements[id].repository);
      assert t.log[j] == s.log[j];
    }
  }

  lemma ReviewStays(s: State, t: State, j: nat)
    requires ReviewsTrue(s) && |s.log| <= |t.log| && t.log[..|s.log|] == s.log && j < |t.log| && t.log[j].Reviewed?
    requires j < |s.log| || (|t.log| == |s.log| + 1 && t.log[|s.log|].Saved?)
    requires forall v :: v in s.snapshots ==> v in t.snapshots && t.snapshots[v] == s.snapshots[v]
    requires forall id, n: nat :: Numbered(s, id, n) ==> Numbered(t, id, n)
    ensures j < |s.log| && t.log[j] == s.log[j] && ReviewTrue(t, j)
  {
    assert t.log[j] == s.log[j] && t.log[..j] == s.log[..j];
    assert ReviewTrue(s, j);
  }

  /** A requirement written without a review: never made Ready by it. */
  lemma PutKeepsInv(s: State, id: RequirementId, r: Requirement, next: RequirementId)
    requires Inv(s) && r.phase != Ready && next >= s.next && id < next
    requires if id in s.requirements then r.revision >= s.requirements[id].revision else id == s.next && r.revision == 0
    ensures Inv(Put(s, id, r).(next := next))
  {
    var t := Put(s, id, r).(next := next);
    forall j: nat | j < |t.log| && t.log[j].Reviewed? ensures ReviewTrue(t, j) { assert ReviewTrue(s, j); }
    forall other | other in t.requirements && t.requirements[other].phase == Ready ensures ReviewedNow(t, other) {
      var j :| 0 <= j < |s.log| && s.log[j] == Reviewed(other, s.requirements[other].revision, s.requirements[other].repository);
      assert t.log[j] == s.log[j];
    }
    forall q: RepositoryId ensures RepositoryTrue(t, q) { assert RepositoryTrue(s, q); }
  }

  lemma ReviewKeepsInv(s: State, rules: Rules, c: Command, grouped: bool)
    requires Inv(s) && c.Review?
    ensures Inv(ReviewRequirement(s, rules, c, grouped).0)
  {
    var t := ReviewRequirement(s, rules, c, grouped).0;
    if t.log != s.log {
      var r, n := s.requirements[c.id], s.requirements[c.id].revision + 1;
      assert t.log == s.log + [Reviewed(c.id, n, r.repository)];
      assert RepositoryTrue(s, r.repository);
      forall q: RepositoryId ensures RepositoryTrue(t, q) { assert RepositoryTrue(s, q) && t.log[..|s.log|] == s.log; }
      ReviewAdded(s, t, c.id, n);
    }
  }

  lemma ReviewAdded(s: State, t: State, id: RequirementId, n: nat)
    requires ReviewsTrue(s) && ReviewedOnce(s.log) && id in s.requirements && n == s.requirements[id].revision + 1
    requires var p := s.requirements[id].repository;
      p in s.repositories && RepositoryTrue(s, p) && !s.repositories[p].document.revoked &&
      t.log == s.log + [Reviewed(id, n, p)] && t.next == s.next && t.snapshots.Keys == s.snapshots.Keys + {Revision(id, n)} &&
      (forall v :: v in s.snapshots && v != Revision(id, n) ==> t.snapshots[v] == s.snapshots[v]) &&
      t.snapshots[Revision(id, n)].repository == p && t.snapshots[Revision(id, n)].repositoryVersion == s.repositories[p].version
    requires id in t.requirements && t.requirements == s.requirements[id := t.requirements[id]] && t.requirements[id].revision == n
    requires t.requirements[id].repository == s.requirements[id].repository
    ensures ReviewsTrue(t) && ReviewedOnce(t.log)
  {
    var p := s.requirements[id].repository;
    forall j: nat | j < |t.log| && t.log[j].Reviewed? ensures ReviewTrue(t, j) {
      if j < |s.log| {
        assert t.log[j] == s.log[j] && t.log[..j] == s.log[..j];
        assert ReviewTrue(s, j);
      } else {
        assert t.log[..j] == s.log;
      }
    }
    forall other | other in t.requirements && t.requirements[other].phase == Ready ensures ReviewedNow(t, other) {
      if other == id {
        assert t.log[|s.log|] == Reviewed(id, n, p);
      } else {
        var j :| 0 <= j < |s.log| && s.log[j] == Reviewed(other, s.requirements[other].revision, s.requirements[other].repository);
        assert t.log[j] == s.log[j];
      }
    }
    forall i, j | 0 <= i < j < |t.log| && t.log[i].Reviewed? && t.log[j].Reviewed?
      ensures t.log[i].id != t.log[j].id || t.log[i].revision != t.log[j].revision
    {
      assert t.log[i] == s.log[i] && ReviewTrue(s, i);
      if j < |s.log| { assert t.log[j] == s.log[j]; }
    }
  }

  lemma AppliedKeepsInv(s: State, rules: Rules, c: Command, grouped: bool)
    requires Inv(s)
    ensures Inv(Applied(s, rules, c, grouped).0)
  {
    match c
    case Save(_, _, _, _) => SaveKeepsInv(s, rules, c);
    case Review(_, _, _, _) => ReviewKeepsInv(s, rules, c, grouped);
    case Create(_, _, _, _) => PutKeepsInv(s, s.next, Requirement(1, Draft, c.contract, Or(c.repository, 1), 0), s.next + 1);
    case Edit(_, _, _, _, _) => EditKeepsInv(s, rules, c, grouped);
    case Withdraw(_, _, _, _) => WithdrawKeepsInv(s, c, grouped);
  }

  lemma EditKeepsInv(s: State, rules: Rules, c: Command, grouped: bool)
    requires Inv(s) && c.Edit?
    ensures Inv(EditRequirement(s, rules, c, grouped).0)
  {
    if c.id in s.requirements {
      var r := s.requirements[c.id];
      PutKeepsInv(s, c.id, r.(contract := c.contract, version := r.version + 1, repository := Or(c.repository, 1), phase := Draft), s.next);
    }
  }

  lemma WithdrawKeepsInv(s: State, c: Command, grouped: bool)
    requires Inv(s) && c.Withdraw?
    ensures Inv(Unready(s, c, grouped).0)
  {
    if c.id in s.requirements {
      var r := s.requirements[c.id];
      PutKeepsInv(s, c.id, r.(phase := Draft, version := r.version + 1), s.next);
    }
  }

  lemma StepKeepsInv(s: State, rules: Rules, op: Op)
    requires Inv(s)
    ensures Inv(Step(s, rules, op))
  {
    match op
    case Do(command, grouped) =>
      AppliedKeepsInv(s, rules, command, grouped);
      var t := Applied(s, rules, command, grouped).0;
      RequestsDoNotMatter(t, Step(s, rules, op).requests);
    case Advance(id) =>
      if id in s.requirements {
        var r := s.requirements[id];
        PutKeepsInv(s, id, r.(phase := Started, version := r.version + 1), s.next);
      }
  }

  lemma RequestsDoNotMatter(s: State, requests: map<string, Request>)
    requires Inv(s)
    ensures Inv(s.(requests := requests))
  {
    var t := s.(requests := requests);
    forall r: RepositoryId ensures RepositoryTrue(t, r) { assert RepositoryTrue(s, r); }
    forall j: nat | j < |t.log| && t.log[j].Reviewed? ensures ReviewTrue(t, j) { assert ReviewTrue(s, j); }
    forall id | id in t.requirements && t.requirements[id].phase == Ready ensures ReviewedNow(t, id) { assert ReviewedNow(s, id); }
  }

  lemma {:induction false} RunKeepsInv(s: State, rules: Rules, ops: seq<Op>)
    requires Inv(s)
    ensures Inv(Run(s, rules, ops))
    decreases |ops|
  {
    if ops != [] {
      StepKeepsInv(s, rules, ops[0]);
      RunKeepsInv(Step(s, rules, ops[0]), rules, ops[1..]);
    }
  }

  /** The two numbers authorization_valid compares stand for history: a requirement is authorized exactly
      when it is Ready and its repository has had no revoking save since its current revision was reviewed. */
  lemma AuthorizationIsHistory(rules: Rules, ops: seq<Op>, id: RequirementId)
    requires id in Run(EMPTY, rules, ops).requirements
    ensures var s := Run(EMPTY, rules, ops);
      var r := s.requirements[id];
      AuthorizationValid(s, id) <==>
        r.phase == Ready && exists j: nat :: j < |s.log| && s.log[j] == Reviewed(id, r.revision, r.repository) && !RevokedAfter(s.log, r.repository, j)
  {
    RunKeepsInv(EMPTY, rules, ops);
    var s := Run(EMPTY, rules, ops);
    if s.requirements[id].phase == Ready { ComparisonIsHistory(s, id); }
  }

  lemma ComparisonIsHistory(s: State, id: RequirementId)
    requires Inv(s) && id in s.requirements && s.requirements[id].phase == Ready
    ensures var r := s.requirements[id];
      AuthorizationValid(s, id) <==>
        exists j: nat :: j < |s.log| && s.log[j] == Reviewed(id, r.revision, r.repository) && !RevokedAfter(s.log, r.repository, j)
  {
    var r := s.requirements[id];
    assert ReviewedNow(s, id);
    var j: nat :| j < |s.log| && s.log[j] == Reviewed(id, r.revision, r.repository);
    assert ReviewTrue(s, j) && RepositoryTrue(s, r.repository);
    NumbersTellHistory(s.log, r.repository, j);
    forall k: nat | k < |s.log| && s.log[k] == Reviewed(id, r.revision, r.repository) ensures k == j { }
  }

  // ---------------------------------------------------------------- what is never taken back

  /** Requests with their results, snapshots and the log only grow; versions and revisions never go back. */
  predicate Extends(s: State, t: State) {
    (forall k :: k in s.requests ==> k in t.requests && t.requests[k] == s.requests[k]) &&
    (forall v :: v in s.snapshots ==> v in t.snapshots && t.snapshots[v] == s.snapshots[v]) &&
    |s.log| <= |t.log| && t.log[..|s.log|] == s.log &&
    forall id :: id in s.requirements ==>
      id in t.requirements && s.requirements[id].version <= t.requirements[id].version &&
      s.requirements[id].revision <= t.requirements[id].revision
  }

  lemma AppliedExtends(s: State, rules: Rules, c: Command, grouped: bool)
    requires Inv(s)
    ensures Extends(s, Applied(s, rules, c, grouped).0)
  {
    match c
    case Create(_, _, _, _) => assert s.next !in s.requirements;
    case Review(_, _, _, _) => ReviewExtends(s, rules, c, grouped);
    case _ =>
  }

  lemma ReviewExtends(s: State, rules: Rules, c: Command, grouped: bool)
    requires Inv(s) && c.Review?
    ensures Extends(s, ReviewRequirement(s, rules, c, grouped).0)
  {
    if c.id in s.requirements {
      var v := Revision(c.id, s.requirements[c.id].revision + 1);
      assert v in s.snapshots ==> Numbered(s, v.requirement, v.number);
    }
  }

  lemma StepExtends(s: State, rules: Rules, op: Op)
    requires Inv(s)
    ensures Extends(s, Step(s, rules, op))
  {
    if op.Do? { AppliedExtends(s, rules, op.command, op.grouped); }
  }

  lemma {:induction false} RunExtends(s: State, rules: Rules, ops: seq<Op>)
    requires Inv(s)
    ensures Extends(s, Run(s, rules, ops)) && Inv(Run(s, rules, ops))
    decreases |ops|
  {
    if ops != [] {
      StepKeepsInv(s, rules, ops[0]);
      StepExtends(s, rules, ops[0]);
      var t := Step(s, rules, ops[0]);
      RunExtends(t, rules, ops[1..]);
      ExtendsTransitive(s, t, Run(t, rules, ops[1..]));
    }
  }

  lemma ExtendsTransitive(s: State, t: State, u: State)
    requires Extends(s, t) && Extends(t, u)
    ensures Extends(s, u)
  {
    assert u.log[..|s.log|] == u.log[..|t.log|][..|s.log|];
  }

  /** A reviewed snapshot is never rewritten, and restoring a repository never revives one: a Ready
      requirement whose authorization lapsed is authorized again only under a later revision. */
  lemma NeverRevived(rules: Rules, before: seq<Op>, after: seq<Op>, id: RequirementId)
    requires var s := Run(EMPTY, rules, before);
      id in s.requirements && s.requirements[id].phase == Ready && !AuthorizationValid(s, id)
    ensures var s := Run(EMPTY, rules, before);
      var t := Run(s, rules, after);
      id in t.requirements && (AuthorizationValid(t, id) ==> t.requirements[id].revision > s.requirements[id].revision)
  {
    RunKeepsInv(EMPTY, rules, before);
    var s := Run(EMPTY, rules, before);
    RunExtends(s, rules, after);
    var t := Run(s, rules, after);
    var n := s.requirements[id].revision;
    if t.requirements[id].phase == Ready && t.requirements[id].revision == n {
      ComparisonIsHistory(s, id);
      ComparisonIsHistory(t, id);
      assert ReviewedNow(s, id);
      var j: nat :| j < |s.log| && s.log[j] == Reviewed(id, n, s.requirements[id].repository);
      StillRevoked(s, t, s.requirements[id].repository, j);
      assert t.log[j] == t.log[..|s.log|][j];
      forall k: nat | k < |t.log| && t.log[k] == Reviewed(id, n, t.requirements[id].repository) ensures k == j { }
    }
  }

  lemma StillRevoked(s: State, t: State, r: RepositoryId, j: nat)
    requires Extends(s, t) && RevokedAfter(s.log, r, j)
    ensures RevokedAfter(t.log, r, j)
  {
    var k :| j < k < |s.log| && SaveOf(s.log[k], r) && s.log[k].revoked;
    assert t.log[k] == t.log[..|s.log|][k];
  }

  /** Outside Draft a requirement shows exactly the contract and repository its current revision froze. */
  predicate Frozen(s: State, id: RequirementId)
    requires id in s.requirements
  {
    var r := s.requirements[id];
    r.phase != Draft ==>
      Revision(id, r.revision) in s.snapshots &&
      var snapshot := s.snapshots[Revision(id, r.revision)];
      snapshot.contract == r.contract && snapshot.repository == r.repository && !snapshot.document.revoked
  }

  lemma StepKeepsFrozen(s: State, rules: Rules, op: Op, id: RequirementId)
    requires Inv(s) && (forall k :: k in s.requirements ==> Frozen(s, k)) && id in Step(s, rules, op).requirements
    ensures Frozen(Step(s, rules, op), id)
  {
    match op
    case Do(command, grouped) => AppliedKeepsFrozen(s, rules, command, grouped, id);
    case Advance(other) => assert Frozen(s, id);
  }

  lemma AppliedKeepsFrozen(s: State, rules: Rules, c: Command, grouped: bool, id: RequirementId)
    requires Inv(s) && forall k :: k in s.requirements ==> Frozen(s, k)
    ensures id in Applied(s, rules, c, grouped).0.requirements ==> Frozen(Applied(s, rules, c, grouped).0, id)
  {
    if id in s.requirements { assert Frozen(s, id); }
    if c.Review? { ReviewKeepsFrozen(s, rules, c, grouped, id); }
  }

  lemma ReviewKeepsFrozen(s: State, rules: Rules, c: Command, grouped: bool, id: RequirementId)
    requires Inv(s) && c.Review? && (id in s.requirements ==> Frozen(s, id))
    ensures id in ReviewRequirement(s, rules, c, grouped).0.requirements ==> Frozen(ReviewRequirement(s, rules, c, grouped).0, id)
  {
  }

  lemma {:induction false} RunKeepsFrozen(s: State, rules: Rules, ops: seq<Op>)
    requires Inv(s) && forall k :: k in s.requirements ==> Frozen(s, k)
    ensures forall k :: k in Run(s, rules, ops).requirements ==> Frozen(Run(s, rules, ops), k)
    decreases |ops|
  {
    if ops != [] {
      var t := Step(s, rules, ops[0]);
      StepKeepsInv(s, rules, ops[0]);
      forall k | k in t.requirements ensures Frozen(t, k) { StepKeepsFrozen(s, rules, ops[0], k); }
      RunKeepsFrozen(t, rules, ops[1..]);
    }
  }

  /** In every reachable state a reviewed requirement is shown as it was frozen, and no later command
      changes what a revision froze. */
  lemma ReviewedIsFrozen(rules: Rules, before: seq<Op>, after: seq<Op>, id: RequirementId, v: Revision)
    requires id in Run(EMPTY, rules, before).requirements && v in Run(EMPTY, rules, before).snapshots
    ensures var s := Run(EMPTY, rules, before);
      var t := Run(s, rules, after);
      Frozen(s, id) && v in t.snapshots && t.snapshots[v] == s.snapshots[v]
  {
    RunKeepsInv(EMPTY, rules, before);
    RunKeepsFrozen(EMPTY, rules, before);
    RunExtends(Run(EMPTY, rules, before), rules, after);
  }

  // ---------------------------------------------------------------- requests and versions

  /** A request that was accepted: repeated at any later time it is answered as it was the first time,
      the same identity with other input is refused, and neither changes anything. */
  lemma RequestIsRetriable(s: State, rules: Rules, c: Command, grouped: bool, ops: seq<Op>, again: Command, later: bool)
    requires Inv(s) && Executed(s, rules, c, grouped).1.Ok? && Key(again) == Key(c)
    ensures var u := Run(Step(s, rules, Do(c, grouped)), rules, ops);
      Executed(u, rules, again, later) == (u, if again == c then Executed(s, rules, c, grouped).1 else Error(Conflict))
  {
    StepKeepsInv(s, rules, Do(c, grouped));
    RunExtends(Step(s, rules, Do(c, grouped)), rules, ops);
  }

  predicate OnRequirement(c: Command, id: RequirementId) { (c.Edit? || c.Review? || c.Withdraw?) && c.id == id }

  /** Of two different requests that expect the same version of a requirement at most one is accepted. */
  lemma StaleIsRefused(s: State, rules: Rules, c: Command, grouped: bool, ops: seq<Op>, other: Command, later: bool, id: RequirementId)
    requires Inv(s) && OnRequirement(c, id) && Key(c) !in s.requests && Executed(s, rules, c, grouped).1.Ok?
    requires OnRequirement(other, id) && other.version == c.version
    ensures var u := Run(Step(s, rules, Do(c, grouped)), rules, ops);
      Key(other) !in u.requests ==> Executed(u, rules, other, later).1.Error? && Executed(u, rules, other, later).0 == u
  {
    StepKeepsInv(s, rules, Do(c, grouped));
    var t := Step(s, rules, Do(c, grouped));
    AcceptedRaisesVersion(s, rules, c, grouped, id);
    RunExtends(t, rules, ops);
    OldVersionIsRefused(Run(t, rules, ops), rules, other, later, id);
  }

  /** Of two different saves of a repository that expect the same version at most one is accepted: whatever happens
      after the first, the second is refused and overwrites nothing. */
  lemma StaleSaveIsRefused(s: State, rules: Rules, c: Command, grouped: bool, ops: seq<Op>, other: Command, later: bool)
    requires Inv(s) && c.Save? && other.Save? && Or(other.repository, 1) == Or(c.repository, 1) && other.version == c.version
    requires Key(c) !in s.requests && Executed(s, rules, c, grouped).1.Ok?
    ensures var u := Run(Step(s, rules, Do(c, grouped)), rules, ops);
      Key(other) !in u.requests ==> Executed(u, rules, other, later).1.Error? && Executed(u, rules, other, later).0 == u
  {
    var t := Step(s, rules, Do(c, grouped));
    StepKeepsInv(s, rules, Do(c, grouped));
    AcceptedSaveRaisesVersion(s, rules, c, grouped);
    RunExtends(t, rules, ops);
    RepositoryVersionsGrow(t, Run(t, rules, ops), Or(c.repository, 1));
    OldSaveIsRefused(Run(t, rules, ops), rules, other, later);
  }

  lemma AcceptedSaveRaisesVersion(s: State, rules: Rules, c: Command, grouped: bool)
    requires c.Save? && Key(c) !in s.requests && Executed(s, rules, c, grouped).1.Ok?
    ensures var t, r := Step(s, rules, Do(c, grouped)), Or(c.repository, 1); r in t.repositories && t.repositories[r].version == c.version + 1
  {
  }

  lemma RepositoryVersionsGrow(t: State, u: State, r: RepositoryId)
    requires Inv(t) && Inv(u) && Extends(t, u) && r in t.repositories
    ensures r in u.repositories && u.repositories[r].version >= t.repositories[r].version
  {
    assert RepositoryTrue(t, r) && RepositoryTrue(u, r);
    SavesGrow(u.log, r, |t.log|);
  }

  lemma OldSaveIsRefused(u: State, rules: Rules, c: Command, grouped: bool)
    requires c.Save? && Or(c.repository, 1) in u.repositories && u.repositories[Or(c.repository, 1)].version > c.version
    ensures Key(c) !in u.requests ==> Executed(u, rules, c, grouped).1.Error? && Executed(u, rules, c, grouped).0 == u
  {
  }

  lemma AcceptedRaisesVersion(s: State, rules: Rules, c: Command, grouped: bool, id: RequirementId)
    requires OnRequirement(c, id) && Key(c) !in s.requests && Executed(s, rules, c, grouped).1.Ok?
    ensures var t := Step(s, rules, Do(c, grouped)); id in t.requirements && t.requirements[id].version == c.version + 1
  {
  }

  lemma OldVersionIsRefused(u: State, rules: Rules, c: Command, grouped: bool, id: RequirementId)
    requires OnRequirement(c, id) && id in u.requirements && u.requirements[id].version > c.version
    ensures Key(c) !in u.requests ==> Executed(u, rules, c, grouped).1.Error? && Executed(u, rules, c, grouped).0 == u
  {
  }

  // ---------------------------------------------------------------- the transactions

  /** In a reachable database the next revision of a requirement is new, and a policy that is not revoked is past its revocations. */
  lemma ReviewIsFresh(s: State, id: RequirementId, p: RepositoryId)
    requires id in s.requirements && p in s.repositories && !s.repositories[p].document.revoked
    ensures Inv(s) ==> Revision(id, s.requirements[id].revision + 1) !in s.snapshots && s.repositories[p].version > s.repositories[p].revokedThrough
  {
    if Inv(s) {
      assert RepositoryTrue(s, p);
      LastSaveIsCurrent(s.log, p);
    }
  }

  /** The tables, written row by row; a command that fails leaves them as they were. */
  class Database {
    var repositories: map<RepositoryId, Repository>
    var requirements: map<RequirementId, Requirement>
    var snapshots: map<Revision, Snapshot>
    var requests: map<string, Request>
    var next: RequirementId
    ghost var log: seq<Happening>

    ghost function Contents(): State reads this { State(repositories, requirements, snapshots, requests, next, log) }

    constructor ()
      ensures Contents() == EMPTY
    {
      repositories, requirements, snapshots, requests, next, log := map[], map[], map[], map[], 1, [];
    }

    /** read_requirement(): the row, the authorization test and the snapshots in revision order. */
    method ReadRequirement(id: RequirementId) returns (view: View)
      requires id in requirements
      ensures view == Read(Contents(), id)
    {
      var r := requirements[id];
      var valid := false;
      if r.phase == Ready && r.repository in repositories && !repositories[r.repository].document.revoked {
        var reviewed := if Revision(id, r.revision) in snapshots then snapshots[Revision(id, r.revision)].repositoryVersion else 0;
        valid := reviewed > repositories[r.repository].revokedThrough;
      }
      var all := [];
      for n := 0 to r.revision
        invariant all == Snapshots(Contents(), id, n)
      {
        if Revision(id, n + 1) in snapshots { all := all + [snapshots[Revision(id, n + 1)]]; }
      }
      view := View(id, r, valid, all);
    }

    method Configure(rules: Rules, repository: Option<RepositoryId>, request: string, version: int, document: Document) returns (answer: Answer)
      modifies this
      ensures (Contents(), answer) == Applied(old(Contents()), rules, Save(repository, request, version, document), false)
      ensures answer.Error? ==> Contents() == old(Contents())
      ensures requirements == old(requirements) && snapshots == old(snapshots) && requests == old(requests)
      ensures var id := if repository.Some? then repository.value else 1;
        var known := id in old(repositories);
        var acceptable := rules.repositoryValid(document) && id > 0;
        var current := version == if known then old(repositories)[id].version else 0;
        (answer.Ok? <==>
          acceptable && current && (known ==> old(repositories)[id].document.identity == document.identity) &&
          (document.identity.github.Some? ==>
            forall r :: r in old(repositories) && r != id ==> old(repositories)[r].document.identity.github != document.identity.github)) &&
        (answer == Error(Conflict) <==> acceptable && !current) &&
        (answer.Ok? ==>
          answer.result == Registered(id, version + 1, document) &&
          repositories == old(repositories)[id := Repository(version + 1, document,
            if !known then 0 else if document.revoked then version + 1 else old(repositories)[id].revokedThrough)])
      ensures forall r :: r in old(repositories) && repositories[r].revokedThrough != old(repositories[r].revokedThrough) ==>
        answer.Ok? && document.revoked && r == Or(repository, 1) && repositories[r].revokedThrough == repositories[r].version == version + 1
      ensures answer.Ok? && document.revoked ==>
        forall id :: id in requirements && requirements[id].repository == Or(repository, 1) ==> !AuthorizationValid(Contents(), id)
      ensures forall id :: id in requirements && requirements[id].repository != Or(repository, 1) ==>
        (AuthorizationValid(Contents(), id) <==> old(AuthorizationValid(Contents(), id)))
    {
      var id := Or(repository, 1);
      if !rules.repositoryValid(document) || id <= 0 { return Error(Unprocessable); }
      var known := id in repositories;
      if version != (if known then repositories[id].version else 0) { return Error(Conflict); }
      if known && repositories[id].document.identity != document.identity { return Error(Unprocessable); }
      var github := document.identity.github;
      if github.Some? && exists other :: other in repositories && other != id && repositories[other].document.identity.github == github {
        return Error(Internal);
      }
      var through := 0;
      if known { through := if document.revoked then version + 1 else repositories[id].revokedThrough; }
      repositories := repositories[id := Repository(version + 1, document, through)];
      log := log + [Saved(id, document.revoked)];
      answer := Ok(Registered(id, version + 1, document));
    }

    method CreateDraft(rules: Rules, repository: Option<RepositoryId>, request: string, version: int, contract: string) returns (answer: Answer)
      modifies this
      ensures (Contents(), answer) == Applied(old(Contents()), rules, Create(repository, request, version, contract), false)
      ensures answer.Error? ==> Contents() == old(Contents())
      ensures answer.Ok? <==> version == 0 && rules.contractValid(contract) && (repository.Some? ==> repository.value > 0)
      ensures answer.Ok? ==>
        next == old(next) + 1 && repositories == old(repositories) && snapshots == old(snapshots) &&
        requirements == old(requirements)[old(next) := Requirement(1, Draft, contract, if repository.Some? then repository.value else 1, 0)] &&
        answer.result.Shown? && answer.result.view.id == old(next) && answer.result.view.requirement == requirements[old(next)]
    {
      if version != 0 { return Error(Conflict); }
      if !rules.contractValid(contract) { return Error(Unprocessable); }
      if Or(repository, 1) <= 0 { return Error(Internal); }
      requirements := requirements[next := Requirement(1, Draft, contract, Or(repository, 1), 0)];
      next := next + 1;
      var view := ReadRequirement(next - 1);
      answer := Ok(Shown(view));
    }

    method CheckEditable(id: RequirementId, version: int, phase: Phase, grouped: bool) returns (refusal: Option<Status>)
      ensures refusal == Editable(Contents(), id, version, phase, grouped)
      ensures refusal.None? ==> id in requirements && requirements[id].version == version && requirements[id].phase == phase
    {
      if grouped { return Some(Conflict); }
      if id !in requirements { return Some(NotFound); }
      refusal := if requirements[id].version != version || requirements[id].phase != phase then Some(Conflict) else None;
    }

    method EditDraft(rules: Rules, id: RequirementId, repository: Option<RepositoryId>, request: string, version: int, contract: string, grouped: bool)
      returns (answer: Answer)
      modifies this
      ensures (Contents(), answer) == Applied(old(Contents()), rules, Edit(id, repository, request, version, contract), grouped)
      ensures answer.Error? ==> Contents() == old(Contents())
      ensures repositories == old(repositories) && snapshots == old(snapshots) && requests == old(requests)
      ensures forall other :: other in old(requirements) && other != id ==> other in requirements && requirements[other] == old(requirements[other])
      ensures answer.Ok? <==>
        !grouped && id in old(requirements) && old(requirements[id]).phase == Draft && old(requirements[id]).version == version &&
        rules.contractValid(contract) && (repository.Some? ==> repository.value > 0)
      ensures answer.Ok? ==>
        id in requirements && answer.result.Shown? && answer.result.view.id == id && answer.result.view.requirement == requirements[id] &&
        requirements[id] == Requirement(version + 1, Draft, contract, if repository.Some? then repository.value else 1, old(requirements[id]).revision)
    {
      var refusal := CheckEditable(id, version, Draft, grouped);
      if refusal.Some? { return Error(refusal.value); }
      if !rules.contractValid(contract) { return Error(Unprocessable); }
      if Or(repository, 1) <= 0 { return Error(Internal); }
      var r := requirements[id];
      requirements := requirements[id := r.(contract := contract, version := r.version + 1, repository := Or(repository, 1))];
      var view := ReadRequirement(id);
      answer := Ok(Shown(view));
    }

    /** The snapshot freezes the contract with the policy version and document it was reviewed under. */
    method MakeReady(rules: Rules, id: RequirementId, request: string, version: int, repositoryVersion: int, grouped: bool) returns (answer: Answer)
      modifies this
      ensures (Contents(), answer) == Applied(old(Contents()), rules, Review(id, request, version, repositoryVersion), grouped)
      ensures answer.Error? ==> Contents() == old(Contents())
      ensures repositories == old(repositories) && requests == old(requests)
      ensures forall other :: other in old(requirements) && other != id ==> other in requirements && requirements[other] == old(requirements[other])
      ensures answer.Ok? <==>
        !grouped && id in old(requirements) && old(requirements[id]).phase == Draft && old(requirements[id]).version == version &&
        var r := old(requirements[id]);
        r.repository in repositories && repositories[r.repository].version == repositoryVersion &&
        !repositories[r.repository].document.revoked && rules.contractValid(r.contract) &&
        rules.permits(r.contract, repositories[r.repository].document)
      ensures answer.Ok? ==>
        id in requirements && answer.result.Shown? && answer.result.view.id == id && answer.result.view.requirement == requirements[id] &&
        requirements[id] == old(requirements[id]).(phase := Ready, version := version + 1, revision := old(requirements[id]).revision + 1) &&
        var p := old(requirements[id]).repository;
        snapshots == old(snapshots)[Revision(id, requirements[id].revision) :=
          Snapshot(p, repositoryVersion, old(requirements[id]).contract, repositories[p].document)]
      ensures old(Inv(Contents())) ==> forall v :: v in old(snapshots) ==> v in snapshots && snapshots[v] == old(snapshots[v])
      ensures old(Inv(Contents())) && answer.Ok? ==> id in requirements && AuthorizationValid(Contents(), id)
    {
      var refusal := CheckEditable(id, version, Draft, grouped);
      if refusal.Some? { return Error(refusal.value); }
      var r := requirements[id];
      if r.repository !in repositories || repositories[r.repository].version != repositoryVersion { return Error(Conflict); }
      var p := repositories[r.repository];
      if p.document.revoked || !rules.contractValid(r.contract) || !rules.permits(r.contract, p.document) { return Error(Unprocessable); }
      var n := r.revision + 1;
      ReviewIsFresh(Contents(), id, r.repository);
      snapshots := snapshots[Revision(id, n) := Snapshot(r.repository, p.version, r.contract, p.document)];
      requirements := requirements[id := r.(phase := Ready, version := r.version + 1, revision := n)];
      log := log + [Reviewed(id, n, r.repository)];
      var view := ReadRequirement(id);
      answer := Ok(Shown(view));
    }

    method WithdrawReady(rules: Rules, id: RequirementId, request: string, version: int, repositoryVersion: int, grouped: bool) returns (answer: Answer)
      modifies this
      ensures (Contents(), answer) == Applied(old(Contents()), rules, Withdraw(id, request, version, repositoryVersion), grouped)
      ensures answer.Error? ==> Contents() == old(Contents())
      ensures repositories == old(repositories) && snapshots == old(snapshots) && requests == old(requests)
      ensures forall other :: other in old(requirements) && other != id ==> other in requirements && requirements[other] == old(requirements[other])
      ensures answer.Ok? <==>
        !grouped && id in old(requirements) && old(requirements[id]).phase == Ready && old(requirements[id]).version == version
      ensures answer.Ok? ==>
        id in requirements && requirements[id] == old(requirements[id]).(phase := Draft, version := version + 1) &&
        !AuthorizationValid(Contents(), id)
    {
      var refusal := CheckEditable(id, version, Ready, grouped);
      if refusal.Some? { return Error(refusal.value); }
      requirements := requirements[id := requirements[id].(phase := Draft, version := requirements[id].version + 1)];
      var view := ReadRequirement(id);
      answer := Ok(Shown(view));
    }

    method ApplyCommand(rules: Rules, c: Command, grouped: bool) returns (answer: Answer)
      modifies this
      ensures (Contents(), answer) == Applied(old(Contents()), rules, c, grouped)
    {
      match c
      case Save(repository, request, version, document) => answer := Configure(rules, repository, request, version, document);
      case Create(repository, request, version, contract) => answer := CreateDraft(rules, repository, request, version, contract);
      case Edit(id, repository, request, version, contract) => answer := EditDraft(rules, id, repository, request, version, contract, grouped);
      case Review(id, request, version, repositoryVersion) => answer := MakeReady(rules, id, request, version, repositoryVersion, grouped);
      case Withdraw(id, request, version, repositoryVersion) => answer := WithdrawReady(rules, id, request, version, repositoryVersion, grouped);
    }

    /** execute(): an accepted request is stored with its result, a refused one is not. */
    method ExecuteCommand(rules: Rules, c: Command, grouped: bool) returns (answer: Answer)
      modifies this
      ensures (Contents(), answer) == Executed(old(Contents()), rules, c, grouped)
      ensures c.request in old(requests) || answer.Error? ==> Contents() == old(Contents())
      ensures rules.requestValid(c.request) && c.request in old(requests) && old(requests)[c.request].command == c ==>
        answer == Ok(old(requests)[c.request].result)
      ensures answer.Ok? && c.request !in old(requests) ==> requests == old(requests)[c.request := Request(c, answer.result)]
    {
      if !rules.requestValid(Key(c)) { return Error(Unprocessable); }
      if Key(c) in requests {
        return if requests[Key(c)].command == c then Ok(requests[Key(c)].result) else Error(Conflict);
      }
      answer := ApplyCommand(rules, c, grouped);
      RefusedChangesNothing(old(Contents()), rules, c, grouped);
      if answer.Ok? { requests := requests[Key(c) := Request(c, answer.result)]; }
    }
  }

  lemma RefusedChangesNothing(s: State, rules: Rules, c: Command, grouped: bool)
    ensures Applied(s, rules, c, grouped).1.Error? ==> Applied(s, rules, c, grouped).0 == s
  {
  }
}
