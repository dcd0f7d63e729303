/** Logins, password changes and sessions as interleaved transactions (apps/server/src/auth_store.rs),
    under READ COMMITTED isolation: a statement sees what is committed when it runs, a row that is
    locked or written by one transaction is waited for by the others. A login or change that reads or
    writes the account row keeps that row's lock until it ends. */
module Sessions {
  import opened Options

  type User = string
  type Digest = nat
  type TxId = nat

  /** `hash` is the password hash the inserting login verified; kept for the record only. */
  datatype Session = Session(user: Option<User>, expires: int, revoked: bool, hash: string)

  /** A login after its account row was read under lock; then with its writes made but not committed.
      A change after its account row was written, then with the sessions it found marked. */
  datatype Tx =
    | Verified(user: User, hash: string)
    | Rotated(user: User, hash: string, ended: set<Digest>, token: Digest, expires: int)
    | Replaced(user: User, hash: string)
    | Revoking(user: User, hash: string, found: set<Digest>)

  datatype State = State(accounts: map<User, string>, sessions: map<Digest, Session>, txs: map<TxId, Tx>)

  const EMPTY := State(map[], map[], map[])

  datatype Op =
    | Register(user: User, hash: string)
    | Verify(tx: TxId, user: User, password: string)
    | Rotate(tx: TxId, previous: Digest, token: Digest, now: int)
    | Replace(tx: TxId, user: User, hash: string)
    | Mark(tx: TxId)
    | Commit(tx: TxId)
    | Abort(tx: TxId)
    | Issue(token: Digest, now: int)
    | Revoke(token: Digest)

  const SESSION_SECONDS := 28800
  const ANONYMOUS_SECONDS := 600

  predicate Locked(s: State, user: User) { exists t :: t in s.txs && s.txs[t].user == user }

  function SessionsOf(s: State, user: User): set<Digest> { set d | d in s.sessions && s.sessions[d].user == Some(user) }

  /** A token drawn at random is none of the stored ones nor of those about to be stored. */
  predicate Unused(s: State, token: Digest) {
    token !in s.sessions && forall t :: t in s.txs && s.txs[t].Rotated? ==> s.txs[t].token != token
  }

  /** `matches`: verifying a password against a hash. */
  predicate Enabled(s: State, matches: (string, string) -> bool, op: Op) {
    match op
    case Register(user, hash) => user !in s.accounts
    case Verify(tx, user, password) => tx !in s.txs && user in s.accounts && !Locked(s, user) && matches(password, s.accounts[user])
    case Rotate(tx, previous, token, now) => tx in s.txs && s.txs[tx].Verified? && Unused(s, token)
    case Replace(tx, user, hash) => tx !in s.txs && user in s.accounts && !Locked(s, user)
    case Mark(tx) => tx in s.txs && s.txs[tx].Replaced?
    case Commit(tx) => tx in s.txs && (s.txs[tx].Rotated? || s.txs[tx].Revoking?)
    case Abort(tx) => tx in s.txs
    case Issue(token, now) => Unused(s, token)
    case Revoke(token) => true
  }

  function Revoked(sessions: map<Digest, Session>, found: set<Digest>): map<Digest, Session> {
    map d | d in sessions :: if d in found then sessions[d].(revoked := true) else sessions[d]
  }

  /** What a commit makes visible. */
  function Committed(s: State, tx: Tx): State {
    match tx
    case Verified(_, _) => s
    case Replaced(_, _) => s
    case Rotated(user, hash, ended, token, expires) =>
      s.(sessions := Revoked(s.sessions, ended)[token := Session(Some(user), expires, false, hash)])
    case Revoking(user, hash, found) => s.(accounts := s.accounts[user := hash], sessions := Revoked(s.sessions, found))
  }

  function Perform(s: State, matches: (string, string) -> bool, op: Op): State
    requires Enabled(s, matches, op)
  {
    match op
    case Register(user, hash) => s.(accounts := s.accounts[user := hash])
    case Verify(tx, user, password) => s.(txs := s.txs[tx := Verified(user, s.accounts[user])])
    case Rotate(tx, previous, token, now) =>
      s.(txs := s.txs[tx := Rotated(s.txs[tx].user, s.txs[tx].hash, {previous} * s.sessions.Keys, token, now + SESSION_SECONDS)])
    case Replace(tx, user, hash) => s.(txs := s.txs[tx := Replaced(user, hash)])
    case Mark(tx) => s.(txs := s.txs[tx := Revoking(s.txs[tx].user, s.txs[tx].hash, SessionsOf(s, s.txs[tx].user))])
    case Commit(tx) => Committed(s, s.txs[tx]).(txs := s.txs - {tx})
    case Abort(tx) => s.(txs := s.txs - {tx})
    case Issue(token, now) => s.(sessions := s.sessions[token := Session(None, now + ANONYMOUS_SECONDS, false, "")])
    case Revoke(token) => s.(sessions := Revoked(s.sessions, {token}))
  }

  function Step(s: State, matches: (string, string) -> bool, op: Op): State {
    if Enabled(s, matches, op) then Perform(s, matches, op) else s
  }

  function Run(s: State, matches: (string, string) -> bool, ops: seq<Op>): State
    decreases |ops|
  {
    if ops == [] then s else Run(Step(s, matches, ops[0]), matches, ops[1..])
  }

  /** session(): the user a token stands for, if it is not revoked and has not expired. */
  function Lookup(s: State, token: Digest, now: int): Option<Option<User>> {
    if token in s.sessions && !s.sessions[token].revoked && s.sessions[token].expires > now then Some(s.sessions[token].user) else None
  }

  // ---------------------------------------------------------------- what every interleaving keeps

  predicate OneHolder(s: State) { forall t, u :: t in s.txs && u in s.txs && s.txs[t].user == s.txs[u].user ==> t == u }

  /** While a login holds its account row the hash it verified stays the current one; a change that has
      marked the sessions has marked every one of its user. */
  predicate HeldRow(s: State, tx: Tx) {
    tx.user in s.accounts &&
    (tx.Verified? || tx.Rotated? ==> tx.hash == s.accounts[tx.user]) &&
    (tx.Revoking? ==> tx.found == SessionsOf(s, tx.user)) &&
    (tx.Rotated? ==> tx.token !in s.sessions)
  }

  predicate TokensDiffer(s: State) {
    forall t, u :: t in s.txs && u in s.txs && t != u && s.txs[t].Rotated? && s.txs[u].Rotated? ==> s.txs[t].token != s.txs[u].token
  }

  /** A session that is not revoked was inserted by a login that verified its user's current hash. */
  predicate Current(s: State, d: Digest)
    requires d in s.sessions
  {
    s.sessions[d].user.Some? && !s.sessions[d].revoked ==>
      s.sessions[d].user.value in s.accounts && s.sessions[d].hash == s.accounts[s.sessions[d].user.value]
  }

  predicate Inv(s: State) {
    OneHolder(s) && TokensDiffer(s) && (forall t :: t in s.txs ==> HeldRow(s, s.txs[t])) && (forall d :: d in s.sessions ==> Current(s, d)) &&
    forall d :: d in s.sessions && s.sessions[d].user.Some? ==> s.sessions[d].user.value in s.accounts
  }

  lemma RevokedKeeps(s: State, found: set<Digest>)
    ensures var t := s.(sessions := Revoked(s.sessions, found));
      t.sessions.Keys == s.sessions.Keys && (forall u :: SessionsOf(t, u) == SessionsOf(s, u))
  {
    var t := s.(sessions := Revoked(s.sessions, found));
    forall u ensures SessionsOf(t, u) == SessionsOf(s, u) { }
  }

  lemma CommitLoginKeepsInv(s: State, t: TxId)
    requires Inv(s) && t in s.txs && s.txs[t].Rotated?
    ensures Inv(Committed(s, s.txs[t]).(txs := s.txs - {t}))
  {
    var tx := s.txs[t];
    var after := Committed(s, tx).(txs := s.txs - {t});
    assert HeldRow(s, tx);
    forall u | u in after.txs ensures HeldRow(after, after.txs[u]) {
      assert HeldRow(s, s.txs[u]) && s.txs[u].user != tx.user;
      assert SessionsOf(after, s.txs[u].user) == SessionsOf(s, s.txs[u].user);
    }
    forall d | d in after.sessions ensures Current(after, d) { if d != tx.token { assert Current(s, d); } }
  }

  lemma CommitChangeKeepsInv(s: State, t: TxId)
    requires Inv(s) && t in s.txs && s.txs[t].Revoking?
    ensures Inv(Committed(s, s.txs[t]).(txs := s.txs - {t}))
  {
    var tx := s.txs[t];
    var after := Committed(s, tx).(txs := s.txs - {t});
    assert HeldRow(s, tx);
    RevokedKeeps(s, tx.found);
    forall u | u in after.txs ensures HeldRow(after, after.txs[u]) {
      assert HeldRow(s, s.txs[u]) && s.txs[u].user != tx.user;
      assert SessionsOf(after, s.txs[u].user) == SessionsOf(s, s.txs[u].user);
    }
    forall d | d in after.sessions ensures Current(after, d) {
      assert Current(s, d);
      assert s.sessions[d].user == Some(tx.user) ==> d in tx.found;
    }
  }

  lemma StepKeepsInv(s: State, matches: (string, string) -> bool, op: Op)
    requires Inv(s)
    ensures Inv(Step(s, matches, op))
  {
    if Enabled(s, matches, op) {
      var t := Perform(s, matches, op);
      match op
      case Commit(tx) => if s.txs[tx].Rotated? { CommitLoginKeepsInv(s, tx); } else { CommitChangeKeepsInv(s, tx); }
      case Revoke(token) =>
        RevokedKeeps(s, {token});
        forall u | u in t.txs ensures HeldRow(t, t.txs[u]) { assert HeldRow(s, s.txs[u]); }
        forall d | d in t.sessions ensures Current(t, d) { assert Current(s, d); }
      case Issue(token, now) =>
        forall u | u in t.txs ensures HeldRow(t, t.txs[u]) {
          assert HeldRow(s, s.txs[u]);
          assert SessionsOf(t, s.txs[u].user) == SessionsOf(s, s.txs[u].user);
        }
        forall d | d in t.sessions ensures Current(t, d) { if d != token { assert Current(s, d); } }
      case _ =>
        forall u | u in t.txs ensures HeldRow(t, t.txs[u]) {
          if u in s.txs { assert HeldRow(s, s.txs[u]); }
          assert SessionsOf(t, t.txs[u].user) == SessionsOf(s, t.txs[u].user);
        }
        forall d | d in t.sessions ensures Current(t, d) { assert Current(s, d); }
    }
  }

  lemma {:induction false} RunKeepsInv(s: State, matches: (string, string) -> bool, ops: seq<Op>)
    requires Inv(s)
    ensures Inv(Run(s, matches, ops))
    decreases |ops|
  {
    if ops != [] {
      StepKeepsInv(s, matches, ops[0]);
      RunKeepsInv(Step(s, matches, ops[0]), matches, ops[1..]);
    }
  }

  // ---------------------------------------------------------------- the promises

  /** In every interleaving, a token that stands for a user was issued by a login that verified the
      password hash that user has now. */
  lemma SessionsAreCurrent(matches: (string, string) -> bool, ops: seq<Op>, token: Digest, now: int, user: User)
    requires Lookup(Run(EMPTY, matches, ops), token, now) == Some(Some(user))
    ensures var s := Run(EMPTY, matches, ops); user in s.accounts && s.sessions[token].hash == s.accounts[user]
  {
    RunKeepsInv(EMPTY, matches, ops);
    assert Current(Run(EMPTY, matches, ops), token);
  }

  /** When a password change commits, every session of its user is revoked, those of logins that were
      still running when it began included. */
  lemma ChangeRevokesAll(matches: (string, string) -> bool, ops: seq<Op>, tx: TxId, token: Digest, now: int)
    requires var s := Run(EMPTY, matches, ops); tx in s.txs && s.txs[tx].Revoking?
    ensures var s := Run(EMPTY, matches, ops);
      var t := Perform(s, matches, Commit(tx));
      t.accounts[s.txs[tx].user] == s.txs[tx].hash && Lookup(t, token, now) != Some(Some(s.txs[tx].user))
  {
    RunKeepsInv(EMPTY, matches, ops);
    var s := Run(EMPTY, matches, ops);
    assert HeldRow(s, s.txs[tx]);
    assert token in s.sessions && s.sessions[token].user == Some(s.txs[tx].user) ==> token in s.txs[tx].found;
  }

  /** A revoked session is never valid again. */
  lemma {:induction false} RevokedForGood(s: State, matches: (string, string) -> bool, ops: seq<Op>, token: Digest, now: int)
    requires Inv(s) && token in s.sessions && s.sessions[token].revoked
    ensures Lookup(Run(s, matches, ops), token, now) == None
    decreases |ops|
  {
    if ops != [] {
      var t := Step(s, matches, ops[0]);
      StepKeepsInv(s, matches, ops[0]);
      if ops[0].Commit? && Enabled(s, matches, ops[0]) { assert HeldRow(s, s.txs[ops[0].tx]); }
      assert token in t.sessions && t.sessions[token].revoked;
      RevokedForGood(t, matches, ops[1..], token, now);
    }
  }

  // ---------------------------------------------------------------- a transaction that nothing interrupts

  class Accounts {
    var accounts: map<User, string>
    var sessions: map<Digest, Session>

    ghost function Contents(): State reads this { State(accounts, sessions, map[]) }

    constructor ()
      ensures Contents() == EMPTY
    {
      accounts, sessions := map[], map[];
    }

    method RevokeWhere(found: set<Digest>)
      modifies this`sessions
      ensures sessions == Revoked(old(sessions), found)
    {
      var left := found;
      while left != {}
        invariant left <= found && sessions == Revoked(old(sessions), found - left)
        decreases left
      {
        var d :| d in left;
        left := left - {d};
        if d in sessions { sessions := sessions[d := sessions[d].(revoked := true)]; }
      }
      assert found - left == found;
    }

    /** An admitted login: verify under the row lock, end the previous session, start a new one. */
    method LogIn(matches: (string, string) -> bool, user: User, password: string, previous: Digest, token: Digest, now: int)
      returns (success: bool)
      requires token !in sessions
      modifies this
      ensures success == (user in old(accounts) && matches(password, old(accounts)[user]))
      ensures Contents() == if success
        then Run(old(Contents()), matches, [Verify(0, user, password), Rotate(0, previous, token, now), Commit(0)]) else old(Contents())
      ensures accounts == old(accounts)
      ensures success ==>
        sessions == (map d | d in old(sessions) :: if d == previous then old(sessions)[d].(revoked := true) else old(sessions)[d])
          [token := Session(Some(user), now + 28800, false, old(accounts)[user])]
    {
      if user !in accounts || !matches(password, accounts[user]) { return false; }
      ghost var s := Contents();
      ghost var first, second, third := Verify(0, user, password), Rotate(0, previous, token, now), Commit(0);
      ghost var verified := Step(s, matches, first);
      ghost var rotated := Step(verified, matches, second);
      assert verified.txs == map[0 := Verified(user, accounts[user])];
      RevokeWhere({previous} * sessions.Keys);
      sessions := sessions[token := Session(Some(user), now + SESSION_SECONDS, false, accounts[user])];
      success := true;
      assert Contents() == Step(rotated, matches, third);
      RunOfThree(s, matches, first, second, third);
    }

    method ChangePassword(matches: (string, string) -> bool, user: User, hash: string) returns (changed: bool)
      modifies this
      ensures changed == (user in old(accounts))
      ensures Contents() == if changed then Run(old(Contents()), matches, [Replace(0, user, hash), Mark(0), Commit(0)]) else old(Contents())
      ensures changed ==>
        accounts == old(accounts)[user := hash] && sessions.Keys == old(sessions).Keys &&
        forall d :: d in sessions ==>
          sessions[d] == if old(sessions)[d].user == Some(user) then old(sessions)[d].(revoked := true) else old(sessions)[d]
    {
      if user !in accounts { return false; }
      ghost var s := Contents();
      ghost var first, second, third := Replace(0, user, hash), Mark(0), Commit(0);
      ghost var replaced := Step(s, matches, first);
      assert replaced.txs == map[0 := Replaced(user, hash)];
      ghost var marked := Step(replaced, matches, second);
      accounts := accounts[user := hash];
      var found := set d | d in sessions && sessions[d].user == Some(user);
      assert found == SessionsOf(s, user);
      RevokeWhere(found);
      changed := true;
      assert Contents() == Step(marked, matches, third);
      RunOfThree(s, matches, first, second, third);
    }

    method FindSession(token: Digest, now: int) returns (found: Option<Option<User>>)
      ensures found == Lookup(Contents(), token, now)
      ensures found == if token in sessions && !sessions[token].revoked && now < sessions[token].expires then Some(sessions[token].user) else None
    {
      found := None;
      if token in sessions && !sessions[token].revoked && sessions[token].expires > now { found := Some(sessions[token].user); }
    }
  }

  /** A login's session is found for eight hours, an anonymous one for ten minutes, and neither afterwards, nor once it was revoked. */
  lemma SessionsExpire(s: State, matches: (string, string) -> bool, op: Op, token: Digest, later: int)
    requires Inv(s) && Enabled(s, matches, op)
    requires (op.Commit? && s.txs[op.tx].Rotated? && s.txs[op.tx].token == token) || (op.Issue? && op.token == token) || (op.Revoke? && op.token == token)
    ensures var t := Step(s, matches, op);
      Lookup(t, token, later) ==
        if op.Commit? && later < s.txs[op.tx].expires then Some(Some(s.txs[op.tx].user))
        else if op.Issue? && later < op.now + 600 then Some(None) else None
  {
  }

  /** What a login in progress will store: it ends its own earlier session, and its token lasts eight hours. */
  lemma RotationIsForEightHours(s: State, matches: (string, string) -> bool, op: Op)
    requires op.Rotate? && Enabled(s, matches, op)
    ensures var t := Step(s, matches, op);
      op.tx in t.txs && t.txs[op.tx] == Rotated(s.txs[op.tx].user, s.txs[op.tx].hash,
        if op.previous in s.sessions then {op.previous} else {}, op.token, op.now + 28800) && t.sessions == s.sessions
  {
  }

  lemma RunOfThree(s: State, matches: (string, string) -> bool, first: Op, second: Op, third: Op)
    ensures Run(s, matches, [first, second, third]) == Step(Step(Step(s, matches, first), matches, second), matches, third)
  {
    var t := Step(s, matches, first);
    var u := Step(t, matches, second);
    assert [first, second, third][1..] == [second, third] && [second, third][1..] == [third] && [third][1..] == [];
    assert Run(s, matches, [first, second, third]) == Run(t, matches, [second, third]);
    assert Run(t, matches, [second, third]) == Run(u, matches, [third]);
    assert Run(u, matches, [third]) == Run(Step(u, matches, third), matches, []);
  }
}
