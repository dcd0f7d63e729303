/** Fixed-window admission of logins, counted per account and per source (apps/server/src/auth_store.rs). */
module LoginLimits {
  import opened Options

  datatype Dimension = Account | Source
  datatype Key = Key(dimension: Dimension, value: string)
  datatype Window = Window(start: int, attempts: nat)

  const WINDOW := 900
  const SATURATED: nat := 1_000_000

  function Limit(d: Dimension): nat { if d == Account then 10 else 50 }

  /** The upsert: a window that has passed starts over, a counter stops growing at a million. */
  function Counted(w: Option<Window>, now: int): Window {
    if w.None? || w.value.start + WINDOW <= now then Window(now, 1)
    else Window(w.value.start, if w.value.attempts + 1 <= SATURATED then w.value.attempts + 1 else SATURATED)
  }

  datatype Attempt = Attempt(account: string, source: string, now: int)

  type Table = map<Key, Window>

  function Lookup(t: Table, k: Key): Option<Window> { if k in t then Some(t[k]) else None }

  function KeyOf(a: Attempt, d: Dimension): Key { Key(d, if d == Account then a.account else a.source) }

  /** Both dimensions count every attempt, refused ones included. */
  function After(t: Table, a: Attempt): Table {
    var u := t[KeyOf(a, Account) := Counted(Lookup(t, KeyOf(a, Account)), a.now)];
    u[KeyOf(a, Source) := Counted(Lookup(u, KeyOf(a, Source)), a.now)]
  }

  predicate Passes(t: Table, a: Attempt, d: Dimension) { Counted(Lookup(t, KeyOf(a, d)), a.now).attempts <= Limit(d) }

  predicate Admitted(t: Table, a: Attempt) { Passes(t, a, Account) && Passes(t, a, Source) }

  predicate Within(a: Attempt, k: Key, from: int) { KeyOf(a, k.dimension) == k && from <= a.now <= from + WINDOW }

  /** How many of these attempts are admitted for one key in the interval from `from` to `from` + 900. */
  function Admissions(t: Table, attempts: seq<Attempt>, k: Key, from: int): nat
    decreases |attempts|
  {
    if attempts == [] then 0
    else (if Admitted(t, attempts[0]) && Within(attempts[0], k, from) then 1 else 0) + Admissions(After(t, attempts[0]), attempts[1..], k, from)
  }

  // ---------------------------------------------------------------- the bound

  predicate Active(w: Option<Window>, now: int) { w.Some? && now < w.value.start + WINDOW }

  function Room(w: Window, max: nat): nat { if w.attempts >= max then 0 else max - w.attempts }

  /** How many more admissions a counter allows in the interval, from time `now` on: a window begun
      inside it is followed by another only when it began at its very start. */
  function Remaining(w: Option<Window>, now: int, from: int, max: nat): nat {
    if now > from + WINDOW then 0
    else if Active(w, now) && w.value.start >= from then Room(w.value, max) + if w.value.start == from then max else 0
    else if Active(w, now) && now >= from then Room(w.value, max) + max
    else if now > from then max
    else 2 * max
  }

  lemma RemainingShrinks(w: Option<Window>, now: int, later: int, from: int, max: nat)
    requires now <= later
    ensures Remaining(w, later, from, max) <= Remaining(w, now, from, max)
  {
  }

  /** One attempt: what it takes from the counter is no longer there afterwards. */
  lemma CountedTakes(w: Option<Window>, now: int, from: int, max: nat)
    requires 1 <= max < SATURATED
    ensures Remaining(Some(Counted(w, now)), now, from, max) +
      (if from <= now <= from + WINDOW && Counted(w, now).attempts <= max then 1 else 0) <= Remaining(w, now, from, max)
  {
  }

  lemma AfterCounts(t: Table, a: Attempt, k: Key)
    ensures Lookup(After(t, a), k) == if KeyOf(a, k.dimension) == k then Some(Counted(Lookup(t, k), a.now)) else Lookup(t, k)
  {
  }

  predicate Ordered(attempts: seq<Attempt>, since: int) {
    forall i, j :: 0 <= i <= j < |attempts| ==> since <= attempts[i].now <= attempts[j].now
  }

  lemma {:induction false} AdmissionsBounded(t: Table, attempts: seq<Attempt>, k: Key, from: int, since: int)
    requires Ordered(attempts, since)
    ensures Admissions(t, attempts, k, from) <= Remaining(Lookup(t, k), since, from, Limit(k.dimension))
    decreases |attempts|
  {
    if attempts != [] {
      var a := attempts[0];
      var max := Limit(k.dimension);
      AfterCounts(t, a, k);
      RemainingShrinks(Lookup(t, k), since, a.now, from, max);
      if KeyOf(a, k.dimension) == k { CountedTakes(Lookup(t, k), a.now, from, max); }
      assert Ordered(attempts[1..], a.now);
      AdmissionsBounded(After(t, a), attempts[1..], k, from, a.now);
    }
  }

  /** Any 900 seconds, both ends included, admit at most 20 logins of one account and 100 from one
      source, whatever the table held before and however many attempts are refused. */
  lemma AnyWindowAdmitsTwice(t: Table, attempts: seq<Attempt>, k: Key, from: int, since: int)
    requires Ordered(attempts, since)
    ensures Admissions(t, attempts, k, from) <= if k.dimension == Account then 20 else 100
  {
    AdmissionsBounded(t, attempts, k, from, since);
  }

  /** The bound is met: ten logins in the first second and ten in the last. */
  lemma {:induction false} TwiceIsReached(account: string, source: string, n: nat, m: nat)
    requires n <= 10 && m <= 10
    ensures var t := if n == 0 then map[] else map[Key(Account, account) := Window(0, n), Key(Source, source) := Window(0, n)];
      Admissions(t, Same(account, source, 0, 10 - n) + Same(account, source, 900, m), Key(Account, account), 0) == 10 - n + m
    decreases 10 - n, m
  {
    var t: Table := if n == 0 then map[] else map[Key(Account, account) := Window(0, n), Key(Source, source) := Window(0, n)];
    var a := Attempt(account, source, 0);
    if n < 10 {
      var rest := Same(account, source, 0, 10 - n - 1) + Same(account, source, 900, m);
      assert Same(account, source, 0, 10 - n) + Same(account, source, 900, m) == [a] + rest;
      assert After(t, a) == map[Key(Account, account) := Window(0, n + 1), Key(Source, source) := Window(0, n + 1)];
      TwiceIsReached(account, source, n + 1, m);
    } else {
      assert Same(account, source, 0, 0) + Same(account, source, 900, m) == Same(account, source, 900, m);
      SecondWindow(t, account, source, m);
    }
  }

  function Same(account: string, source: string, now: int, n: nat): seq<Attempt> {
    if n == 0 then [] else [Attempt(account, source, now)] + Same(account, source, now, n - 1)
  }

  lemma SecondWindow(t: Table, account: string, source: string, m: nat)
    requires m <= 10 && Lookup(t, Key(Account, account)) == Lookup(t, Key(Source, source)) == Some(Window(0, 10))
    ensures Admissions(t, Same(account, source, 900, m), Key(Account, account), 0) == m
  {
    if m > 0 {
      var a := Attempt(account, source, 900);
      assert Same(account, source, 900, m)[1..] == Same(account, source, 900, m - 1);
      RestOfWindow(After(t, a), account, source, m - 1, 1);
    }
  }

  lemma {:induction false} RestOfWindow(t: Table, account: string, source: string, m: nat, n: nat)
    requires m + n <= 10 && Lookup(t, Key(Account, account)) == Lookup(t, Key(Source, source)) == Some(Window(900, n))
    ensures Admissions(t, Same(account, source, 900, m), Key(Account, account), 0) == m
    decreases m
  {
    if m > 0 {
      var a := Attempt(account, source, 900);
      assert Same(account, source, 900, m)[1..] == Same(account, source, 900, m - 1);
      RestOfWindow(After(t, a), account, source, m - 1, n + 1);
    }
  }

  // ---------------------------------------------------------------- the bound of a source is met too

  /** Attempts number i to n - 1, all at one time, each with an account of its own. */
  function Crowd(source: string, now: int, i: nat, n: nat): seq<Attempt>
    decreases n - i
  {
    if i >= n then [] else [Attempt(Repeated(i), source, now)] + Crowd(source, now, i + 1, n)
  }

  function Repeated(n: nat): (s: string)
    ensures |s| == n
  {
    if n == 0 then "" else Repeated(n - 1) + "a"
  }

  /** No account of number i or above has been counted. */
  predicate Unseen(t: Table, i: nat) { forall k :: k in t && k.dimension == Account ==> |k.value| < i }

  /** Fifty accounts in the first second and fifty others in the last: 100 logins from one source. */
  lemma SourceTwiceIsReached(source: string)
    ensures Admissions(map[], Crowd(source, 0, 0, 50) + Crowd(source, 900, 50, 100), Key(Source, source), 0) == 100
  {
    CrowdIsAdmitted(map[], source, 0, 0, 50, Crowd(source, 900, 50, 100));
    var t := AfterAll(map[], Crowd(source, 0, 0, 50));
    CrowdIsAdmitted(t, source, 900, 50, 100, []);
    assert Crowd(source, 900, 50, 100) + [] == Crowd(source, 900, 50, 100);
  }

  function AfterAll(t: Table, attempts: seq<Attempt>): Table
    decreases |attempts|
  {
    if attempts == [] then t else AfterAll(After(t, attempts[0]), attempts[1..])
  }

  /** An account not seen before passes when its source does. */
  lemma NewcomerIsAdmitted(t: Table, a: Attempt, source: string, i: nat)
    requires a.source == source && a.account == Repeated(i) && Unseen(t, i) && Passes(t, a, Source)
    ensures Admitted(t, a) && Unseen(After(t, a), i + 1)
    ensures Lookup(After(t, a), Key(Source, source)) == Some(Counted(Lookup(t, Key(Source, source)), a.now))
  {
    assert KeyOf(a, Account) !in t;
  }

  /** `i` attempts of the crowd that ends with number n have come: fifty make up one window. */
  predicate CrowdAt(t: Table, source: string, now: int, i: nat, n: nat) {
    i <= n && Unseen(t, i) && var w := Lookup(t, Key(Source, source));
    (now == 0 && n == 50 && if i == 0 then w.None? else w == Some(Window(0, i))) ||
    (now == 900 && n == 100 && i >= 50 && w == if i == 50 then Some(Window(0, 50)) else Some(Window(900, i - 50)))
  }

  lemma OneMoreOfCrowd(t: Table, source: string, now: int, i: nat, n: nat, a: Attempt)
    requires CrowdAt(t, source, now, i, n) && i < n && a == Attempt(Repeated(i), source, now)
    ensures Admitted(t, a) && Within(a, Key(Source, source), 0) && CrowdAt(After(t, a), source, now, i + 1, n)
  {
    NewcomerIsAdmitted(t, a, source, i);
  }

  /** The whole crowd is admitted. */
  lemma {:induction false} CrowdIsAdmitted(t: Table, source: string, now: int, i: nat, n: nat, rest: seq<Attempt>)
    requires CrowdAt(t, source, now, i, n)
    ensures var u := AfterAll(t, Crowd(source, now, i, n));
      Admissions(t, Crowd(source, now, i, n) + rest, Key(Source, source), 0) == n - i + Admissions(u, rest, Key(Source, source), 0) &&
      CrowdAt(u, source, now, n, n)
    decreases n - i
  {
    var crowd := Crowd(source, now, i, n);
    if i == n {
      assert crowd + rest == rest;
    } else {
      var a := Attempt(Repeated(i), source, now);
      assert (crowd + rest)[0] == a && (crowd + rest)[1..] == Crowd(source, now, i + 1, n) + rest;
      assert crowd[1..] == Crowd(source, now, i + 1, n);
      OneMoreOfCrowd(t, source, now, i, n, a);
      CrowdIsAdmitted(After(t, a), source, now, i + 1, n, rest);
    }
  }

  // ---------------------------------------------------------------- the counters as they are written

  class Limits {
    var table: Table

    constructor ()
      ensures table == map[]
    {
      table := map[];
    }

    method Count(dimension: Dimension, value: string, now: int, max: nat) returns (ok: bool)
      modifies this
      ensures table == old(table)[Key(dimension, value) := Counted(Lookup(old(table), Key(dimension, value)), now)]
      ensures ok == (table[Key(dimension, value)].attempts <= max)
      ensures var k := Key(dimension, value);
        table == old(table)[k :=
          if k in old(table) && now < old(table)[k].start + 900
          then Window(old(table)[k].start, if old(table)[k].attempts < 1_000_000 then old(table)[k].attempts + 1 else 1_000_000) else Window(now, 1)]
    {
      var k := Key(dimension, value);
      if k !in table || table[k].start + WINDOW <= now {
        table := table[k := Window(now, 1)];
      } else {
        var next := table[k].attempts + 1;
        table := table[k := Window(table[k].start, if next <= SATURATED then next else SATURATED)];
      }
      ok := table[k].attempts <= max;
    }

    method Admit(account: string, source: string, now: int) returns (ok: bool)
      modifies this
      ensures table == After(old(table), Attempt(account, source, now)) && ok == Admitted(old(table), Attempt(account, source, now))
      ensures Key(Account, account) in table && Key(Source, source) in table &&
        (ok <==> table[Key(Account, account)].attempts <= 10 && table[Key(Source, source)].attempts <= 50)
    {
      var byAccount := Count(Account, account, now, 10);
      var bySource := Count(Source, source, now, 50);
      ok := byAccount && bySource;
    }
  }
}
