/** Retention pins and the capacity they reserve (tools/quality-host/evidence_pins.py).

    The SHA-256 of a canonical encoding is a parameter of which only the printed form matters
    here: 64 characters that need no escaping. The file system is a value: what a run's paths
    name, and what each inode holds. */
module EvidencePins {
  import opened Options
  import opened Totals
  import opened Json

  type Run = string
  type Path = seq<string>
  type Inode = nat
  type Bytes = string

  /** Directory trees by run, hard links as shared inodes. */
  datatype File = File(bytes: Bytes, mode: nat)
  datatype Disk = Disk(runs: map<Run, map<Path, Inode>>, content: map<Inode, File>)

  function Tree(d: Disk, run: Run): map<Path, Inode> { if run in d.runs then d.runs[run] else map[] }

  function Size(d: Disk, inode: Inode): nat { if inode in d.content then |d.content[inode].bytes| else 0 }

  const PAYLOADS: set<Path> := {["probes", "backend", "raw"], ["http-server"]}

  const CLEANABLE: set<Path> := PAYLOADS + {["workspace", ".harness-gate", "reports"], ["tmp"], ["cargo-home"], ["target"]}

  predicate Under(path: Path, directory: Path) { directory <= path }

  predicate Cleanable(path: Path) { exists directory :: directory in CLEANABLE && Under(path, directory) }

  /** os.walk never enters an excluded directory; a plain file of that name is still counted. */
  predicate Excluded(path: Path, excluded: set<Path>) { exists directory :: directory in excluded && directory < path }

  // ---------------------------------------------------------------- charge

  function Inodes(d: Disk, run: Run): set<Inode> {
    set path | path in Tree(d, run) && !Excluded(path, PAYLOADS) :: Tree(d, run)[path]
  }

  function AllInodes(d: Disk, runs: set<Run>): set<Inode> {
    set run, inode | run in runs && inode in Inodes(d, run) :: inode
  }

  function Sizes(d: Disk, inodes: set<Inode>): map<Inode, nat> { map inode | inode in inodes :: Size(d, inode) }

  /** Record bytes of these runs, each inode once. */
  ghost function Charge(d: Disk, runs: set<Run>): nat { Total(Sizes(d, AllInodes(d, runs))) }

  lemma ChargeMonotone(d: Disk, less: set<Run>, more: set<Run>)
    requires less <= more
    ensures Charge(d, less) <= Charge(d, more)
  {
    TotalMonotone(Sizes(d, AllInodes(d, less)), Sizes(d, AllInodes(d, more)));
  }

  /** files(): the walk of one run fills a dictionary by inode. */
  method Files(d: Disk, run: Run) returns (found: map<Inode, nat>)
    ensures found == Sizes(d, Inodes(d, run))
  {
    found := map[];
    var left := Tree(d, run).Keys;
    while left != {}
      invariant left <= Tree(d, run).Keys
      invariant found == Sizes(d, set path | path in Tree(d, run) && path !in left && !Excluded(path, PAYLOADS) :: Tree(d, run)[path])
      decreases left
    {
      var path :| path in left;
      left := left - {path};
      if !Excluded(path, PAYLOADS) { found := found[Tree(d, run)[path] := Size(d, Tree(d, run)[path])]; }
    }
  }

  lemma OneMoreRun(d: Disk, runs: set<Run>, run: Run)
    ensures Sizes(d, AllInodes(d, runs + {run})) == Sizes(d, AllInodes(d, runs)) + Sizes(d, Inodes(d, run))
  {
    assert AllInodes(d, runs + {run}) == AllInodes(d, runs) + Inodes(d, run);
  }

  method ChargedFiles(d: Disk, runs: set<Run>) returns (found: map<Inode, nat>)
    ensures found == Sizes(d, AllInodes(d, runs)) && Total(found) == Charge(d, runs)
  {
    found := map[];
    var left := runs;
    while left != {}
      invariant left <= runs
      invariant found == Sizes(d, AllInodes(d, runs - left))
      decreases left
    {
      var run :| run in left;
      var more := Files(d, run);
      OneMoreRun(d, runs - left, run);
      assert runs - (left - {run}) == runs - left + {run};
      left := left - {run};
      found := found + more;
    }
    assert runs - left == runs;
  }

  method SumValues(found: map<Inode, nat>) returns (sum: nat)
    ensures sum == Total(found)
  {
    sum := 0;
    var left := found;
    while left != map[]
      invariant sum + Total(left) == Total(found)
      decreases |left|
    {
      var inode :| inode in left;
      TotalWithout(left, inode);
      sum, left := sum + left[inode], left - {inode};
    }
  }

  method MeasureCharge(d: Disk, runs: set<Run>) returns (bytes: nat)
    ensures bytes == Charge(d, runs)
  {
    var found := ChargedFiles(d, runs);
    bytes := SumValues(found);
  }

  // ---------------------------------------------------------------- the stored state

  datatype Pin = Pin(
    validationId: string, subject: Value, attempt: string, run: Run,
    createdAt: int, expiresAt: int, publication: map<string, Value>, publicationId: string)

  datatype State = State(sequence: nat, pins: map<string, Pin>)

  const SEQUENCE_SLACK := 20
  const UNCONFIRMED := "unconfirmed"
  const CONFIRMED := "confirmed"
  const IDENTITY_WIDTH := 64
  const EMPTY := State(0, map[])

  /** The fixed text of an encoded pin and of the encoded state; the variable parts are counted beside it. */
  const PIN_TEXT := "{\"attempt\":\"\",\"created_at_ms\":,\"expires_at_ms\":,\"publication\":,\"publication_id\":\"\",\"run\":\"\",\"subject\":,\"validation_id\":\"\"}"
  const STATE_TEXT := "{\"pins\":,\"schema\":\"codexsymphony-evidence-pins/v2\",\"sequence\":}"

  ghost function PinWidth(p: Pin): nat {
    |PIN_TEXT| + TextWidth(p.attempt) + IntWidth(p.createdAt) + IntWidth(p.expiresAt) + Width(Obj(p.publication), 1) +
    TextWidth(p.publicationId) + TextWidth(p.run) + Width(p.subject, 1) + TextWidth(p.validationId)
  }

  ghost function PinEntries(pins: map<string, Pin>): map<string, nat> {
    map k | k in pins :: QuotedWidth(k) + 2 + PinWidth(pins[k])
  }

  ghost function StateWidth(sequence: int, pins: map<string, Pin>): nat {
    |STATE_TEXT| + IntWidth(sequence) + if pins == map[] then 2 else 1 + Total(PinEntries(pins))
  }

  /** What the state file and its pending replacement are charged, for any sequence number. */
  ghost function StateBytes(pins: map<string, Pin>): nat { 2 * (StateWidth(0, pins) + SEQUENCE_SLACK) }

  function Runs(pins: map<string, Pin>): set<Run> { set k | k in pins :: pins[k].run }

  ghost function Reserved(d: Disk, pins: map<string, Pin>, current: set<Run>): nat {
    Charge(d, Runs(pins) + current) + StateBytes(pins)
  }

  function Live(pins: map<string, Pin>, moment: int): map<string, Pin> {
    map k | k in pins && pins[k].expiresAt > moment :: pins[k]
  }

  /** The charge covers the state file and its replacement exactly while the sequence number has at most 21 digits. */
  lemma StateChargeCoversFiles(s: State)
    ensures 2 * StateWidth(s.sequence, s.pins) <= StateBytes(s.pins) <==> IntWidth(s.sequence) <= 21
  {
    assert IntWidth(0) == 1;
  }

  // ---------------------------------------------------------------- writes

  /** A digest prints as 64 characters that need no escaping. */
  ghost predicate Hexadecimal(digest: Value -> string) {
    forall v :: TextWidth(digest(v)) == IDENTITY_WIDTH
  }

  function Zeros(n: nat): string { seq(n, _ => '0') }

  lemma {:induction false} ZerosWidth(n: nat)
    ensures TextWidth(Zeros(n)) == n
  {
    if n > 0 {
      assert Zeros(n)[1..] == Zeros(n - 1);
      ZerosWidth(n - 1);
    }
  }

  datatype Op =
    | PinRun(id: string, pin: Pin, budget: nat, moment: int)
    | Confirm(id: string, validationId: string, checked: int, moment: int)
    | Extend(id: string, until: int, moment: int)
    | Release(ids: set<string>, moment: int)
    | DropExpired(moment: int)

  function Unconfirmed(pin: Pin): Pin {
    pin.(publication := pin.publication["status" := Str(UNCONFIRMED)], publicationId := Zeros(IDENTITY_WIDTH))
  }

  function Confirmed(pin: Pin, digest: Value -> string): Pin {
    var publication := pin.publication["status" := Str(CONFIRMED)];
    pin.(publication := publication, publicationId := digest(Obj(publication)))
  }

  function Max(a: int, b: int): int { if a >= b then a else b }

  /** The pins a write stores; None when the operation refuses and writes nothing. */
  ghost function Stored(d: Disk, current: set<Run>, digest: Value -> string, pins: map<string, Pin>, op: Op): Option<map<string, Pin>> {
    match op
    case PinRun(id, pin, budget, moment) =>
      var next := Live(pins, moment)[id := Unconfirmed(pin)];
      if Reserved(d, next, current) <= budget then Some(next) else None
    case Confirm(id, validationId, checked, moment) =>
      var live := Live(pins, checked);
      if id in live && live[id].validationId == validationId then Some(Live(pins, moment)[id := Confirmed(live[id], digest)]) else None
    case Extend(id, until, moment) =>
      var live := Live(pins, moment);
      if id in live && IntWidth(Max(live[id].expiresAt, until)) == IntWidth(live[id].expiresAt)
      then Some(live[id := live[id].(expiresAt := Max(live[id].expiresAt, until))]) else None
    case Release(ids, moment) => Some(map k | k in Live(pins, moment) && k !in ids :: pins[k])
    case DropExpired(moment) => if Live(pins, moment) != pins then Some(Live(pins, moment)) else None
  }

  ghost function Apply(d: Disk, current: set<Run>, digest: Value -> string, s: State, op: Op): State {
    match Stored(d, current, digest, s.pins, op)
    case None => s
    case Some(pins) => State(s.sequence + 1, pins)
  }

  ghost function RunOps(d: Disk, current: set<Run>, digest: Value -> string, s: State, ops: seq<Op>): State
    decreases |ops|
  {
    if ops == [] then s else RunOps(d, current, digest, Apply(d, current, digest, s, ops[0]), ops[1..])
  }

  /** Every stored publication carries one of the two statuses and an identity as wide as a digest. */
  predicate Marked(pins: map<string, Pin>) { forall k :: k in pins ==> MarkedPin(pins[k]) }

  predicate MarkedPin(p: Pin) {
    "status" in p.publication && (p.publication["status"] == Str(UNCONFIRMED) || p.publication["status"] == Str(CONFIRMED)) &&
    TextWidth(p.publicationId) == IDENTITY_WIDTH
  }

  // ---------------------------------------------------------------- no later write needs more than the pin reserved

  lemma StatusesAreLetters()
    ensures Letters(UNCONFIRMED) && Letters(CONFIRMED) && |UNCONFIRMED| == |CONFIRMED| + 2
  {
  }

  /** Confirming replaces the status by a shorter one and the placeholder by an identity of its width. */
  lemma ConfirmShortens(pin: Pin, digest: Value -> string)
    requires Hexadecimal(digest) && MarkedPin(pin)
    ensures PinWidth(Confirmed(pin, digest)) ==
      PinWidth(pin) - if pin.publication["status"] == Str(UNCONFIRMED) then 2 else 0
  {
    StatusesAreLetters();
    LettersWidth(UNCONFIRMED, 1);
    LettersWidth(CONFIRMED, 1);
    MemberReplaced(pin.publication, "status", Str(CONFIRMED), 1);
  }

  /** Pins that are all still there, none wider than before, of the same run, reserve no more. */
  lemma NarrowerReservesLess(d: Disk, current: set<Run>, less: map<string, Pin>, more: map<string, Pin>)
    requires forall k :: k in less ==>
      k in more && less[k].run == more[k].run && PinWidth(less[k]) <= PinWidth(more[k])
    ensures Reserved(d, less, current) <= Reserved(d, more, current)
  {
    TotalMonotone(PinEntries(less), PinEntries(more));
    if less == map[] && more != map[] {
      var k :| k in more;
      TotalWithout(PinEntries(more), k);
    }
    assert Runs(less) <= Runs(more);
    ChargeMonotone(d, Runs(less) + current, Runs(more) + current);
  }

  lemma WriteKeepsMarks(d: Disk, current: set<Run>, digest: Value -> string, s: State, op: Op)
    requires Hexadecimal(digest) && Marked(s.pins)
    ensures Marked(Apply(d, current, digest, s, op).pins)
  {
    var t := Apply(d, current, digest, s, op);
    ZerosWidth(IDENTITY_WIDTH);
    forall k | k in t.pins ensures MarkedPin(t.pins[k]) {
      if k in s.pins { assert MarkedPin(s.pins[k]); }
    }
  }

  /** Every write but a new pin leaves each surviving pin in its run and no wider than it was. */
  lemma WriteNarrows(d: Disk, current: set<Run>, digest: Value -> string, s: State, op: Op, k: string)
    requires Hexadecimal(digest) && Marked(s.pins) && !op.PinRun? && k in Apply(d, current, digest, s, op).pins
    ensures k in s.pins && Apply(d, current, digest, s, op).pins[k].run == s.pins[k].run
    ensures PinWidth(Apply(d, current, digest, s, op).pins[k]) <= PinWidth(s.pins[k])
  {
    assert k in s.pins && MarkedPin(s.pins[k]);
    if op.Confirm? && k == op.id { ConfirmShortens(s.pins[k], digest); }
  }

  lemma WriteReservesNoMore(d: Disk, current: set<Run>, digest: Value -> string, s: State, op: Op)
    requires Hexadecimal(digest) && Marked(s.pins) && !op.PinRun?
    ensures Reserved(d, Apply(d, current, digest, s, op).pins, current) <= Reserved(d, s.pins, current)
  {
    var t := Apply(d, current, digest, s, op);
    forall k | k in t.pins
      ensures k in s.pins && t.pins[k].run == s.pins[k].run && PinWidth(t.pins[k]) <= PinWidth(s.pins[k])
    {
      WriteNarrows(d, current, digest, s, op, k);
    }
    NarrowerReservesLess(d, current, t.pins, s.pins);
  }

  /** With the runs' files and the current record unchanged: once a state fits the installed budget,
      and so once a pin succeeded, it fits after every sequence of pins, confirmations, extensions,
      releases, expiries and refused operations under that budget. */
  lemma {:induction false} ReservationHolds(d: Disk, current: set<Run>, digest: Value -> string, s: State, ops: seq<Op>, budget: nat)
    requires Hexadecimal(digest) && Marked(s.pins) && Reserved(d, s.pins, current) <= budget
    requires forall op :: op in ops && op.PinRun? ==> op.budget == budget
    ensures var t := RunOps(d, current, digest, s, ops); Marked(t.pins) && Reserved(d, t.pins, current) <= budget
    decreases |ops|
  {
    if ops != [] {
      WriteKeepsMarks(d, current, digest, s, ops[0]);
      if !ops[0].PinRun? { WriteReservesNoMore(d, current, digest, s, ops[0]); }
      ReservationHolds(d, current, digest, Apply(d, current, digest, s, ops[0]), ops[1..], budget);
    }
  }

  // ---------------------------------------------------------------- confirmed publications, found by content

  predicate IsConfirmed(p: Pin) { "status" in p.publication && p.publication["status"] == Str(CONFIRMED) }

  /** A confirmed publication carries the identity of its own bytes. */
  predicate Identified(pins: map<string, Pin>, digest: Value -> string) {
    forall k :: k in pins ==> IdentifiedPin(pins[k], digest)
  }

  predicate IdentifiedPin(p: Pin, digest: Value -> string) { IsConfirmed(p) ==> p.publicationId == digest(Obj(p.publication)) }

  lemma WriteKeepsIdentities(d: Disk, current: set<Run>, digest: Value -> string, s: State, op: Op)
    requires Identified(s.pins, digest)
    ensures Identified(Apply(d, current, digest, s, op).pins, digest)
  {
    var t := Apply(d, current, digest, s, op);
    StatusesAreLetters();
    forall k | k in t.pins ensures IdentifiedPin(t.pins[k], digest) {
      if k in s.pins { assert IdentifiedPin(s.pins[k], digest); }
    }
  }

  /** Through every run of pin operations the identities agree, so find() never calls tampered what this
      program stored. */
  lemma {:induction false} IdentitiesAgree(d: Disk, current: set<Run>, digest: Value -> string, s: State, ops: seq<Op>)
    requires Identified(s.pins, digest)
    ensures Identified(RunOps(d, current, digest, s, ops).pins, digest)
    decreases |ops|
  {
    if ops != [] {
      WriteKeepsIdentities(d, current, digest, s, ops[0]);
      IdentitiesAgree(d, current, digest, Apply(d, current, digest, s, ops[0]), ops[1..]);
    }
  }

  /** The live confirmed pins of exactly this subject. */
  function Matching(pins: map<string, Pin>, subject: Value, moment: int): set<string> {
    set k | k in Live(pins, moment) && pins[k].subject == subject && IsConfirmed(pins[k])
  }

  // ---------------------------------------------------------------- the evidence a pin accepts

  datatype Row = Row(run: Run, path: Path, sha256: string)

  datatype Category = Missing | Tampered | Mismatch | Capacity | Expired
  datatype Result<+T> = Ok(value: T) | Refused(category: Category)

  /** check_files() on one row; `sha` is the digest of file bytes. */
  function CheckRow(d: Disk, run: Run, row: Row, sha: Bytes -> string): Option<Category> {
    if row.run != run || Cleanable(row.path) then Some(Mismatch)
    else if row.path !in Tree(d, run) || Tree(d, run)[row.path] !in d.content then Some(Missing)
    else if sha(d.content[Tree(d, run)[row.path]].bytes) != row.sha256 then Some(Tampered)
    else None
  }

  ghost predicate Accepted(d: Disk, run: Run, evidence: map<string, Row>, sha: Bytes -> string) {
    forall name :: name in evidence ==> CheckRow(d, run, evidence[name], sha) == None
  }

  method CheckFiles(d: Disk, run: Run, evidence: map<string, Row>, sha: Bytes -> string) returns (fault: Option<Category>)
    ensures fault == None <==> Accepted(d, run, evidence, sha)
    ensures fault == None <==>
      forall name :: name in evidence ==>
        var row := evidence[name];
        row.run == run && !Cleanable(row.path) && row.path in Tree(d, run) && Tree(d, run)[row.path] in d.content &&
        sha(d.content[Tree(d, run)[row.path]].bytes) == row.sha256
  {
    var left := evidence.Keys;
    while left != {}
      invariant left <= evidence.Keys
      invariant forall name :: name in evidence && name !in left ==> CheckRow(d, run, evidence[name], sha) == None
      decreases left
    {
      var name :| name in left;
      fault := CheckRow(d, run, evidence[name], sha);
      if fault.Some? { return; }
      left := left - {name};
    }
    fault := None;
  }

  // ---------------------------------------------------------------- the pin directory

  /** What pin() stores: the live pins and the new one, unconfirmed. */
  lemma NextPins(pins: map<string, Pin>, id: string, pin: Pin, moment: int)
    ensures Live(pins, moment)[id := Unconfirmed(pin)] ==
      (map k | k in pins && moment < pins[k].expiresAt :: pins[k])
        [id := pin.(publication := pin.publication["status" := Str("unconfirmed")], publicationId := seq(64, _ => '0'))]
  {
  }

  class PinRoot {
    var sequence: nat
    var pins: map<string, Pin>

    function Contents(): State reads this { State(sequence, pins) }

    constructor ()
      ensures Contents() == EMPTY
    {
      sequence, pins := 0, map[];
    }

    method Save(next: map<string, Pin>)
      modifies this
      ensures Contents() == State(old(sequence) + 1, next)
    {
      sequence, pins := sequence + 1, next;
    }

    /** The reservation is measured on the very state that is then written; a pin that does not fit
        writes nothing. `encoded` is the length the JSON encoder reports for that state, charged twice. */
    method PinEvidence(d: Disk, current: set<Run>, ghost digest: Value -> string, evidence: map<string, Row>, sha: Bytes -> string,
                       encoded: nat, id: string, pin: Pin, budget: nat, moment: int) returns (r: Result<string>)
      requires encoded == StateBytes(Live(pins, moment)[id := Unconfirmed(pin)])
      modifies this
      ensures r.Ok? <==>
        Accepted(d, pin.run, evidence, sha) && Reserved(d, Live(old(pins), moment)[id := Unconfirmed(pin)], current) <= budget
      ensures r.Ok? ==> r.value == id && sequence == old(sequence) + 1 && Reserved(d, pins, current) <= budget
      ensures r.Ok? ==> Contents() == Apply(d, current, digest, old(Contents()), PinRun(id, pin, budget, moment))
      ensures !r.Ok? ==> Contents() == old(Contents())
      ensures r.Ok? ==>
        pins == (map k | k in old(pins) && moment < old(pins)[k].expiresAt :: old(pins)[k])
          [id := pin.(publication := pin.publication["status" := Str("unconfirmed")], publicationId := seq(64, _ => '0'))]
    {
      var fault := CheckFiles(d, pin.run, evidence, sha);
      if fault.Some? { return Refused(fault.value); }
      var next := Live(pins, moment)[id := Unconfirmed(pin)];
      NextPins(pins, id, pin, moment);
      var bytes := MeasureCharge(d, Runs(next) + current);
      if bytes + encoded > budget { return Refused(Capacity); }
      Save(next);
      r := Ok(id);
    }

    /** Two readings of the clock: the pin is live at `checked`, and what is stored is live at `moment`. */
    method ConfirmPublication(ghost d: Disk, ghost current: set<Run>, digest: Value -> string, id: string, validationId: string,
                              checked: int, moment: int) returns (r: Result<Pin>)
      modifies this
      ensures Contents() == Apply(d, current, digest, old(Contents()), Confirm(id, validationId, checked, moment))
      ensures r.Ok? <==> id in old(pins) && checked < old(pins)[id].expiresAt && old(pins)[id].validationId == validationId
      ensures r.Ok? ==>
        var publication := old(pins)[id].publication["status" := Str("confirmed")];
        r.value == old(pins)[id].(publication := publication, publicationId := digest(Obj(publication))) &&
        pins == (map k | k in old(pins) && moment < old(pins)[k].expiresAt :: old(pins)[k])[id := r.value]
      ensures r.Refused? ==> r.category == Expired && pins == old(pins)
    {
      var live := Live(pins, checked);
      if id !in live || live[id].validationId != validationId { return Refused(Expired); }
      var value := Confirmed(live[id], digest);
      Save(Live(pins, moment)[id := value]);
      r := Ok(value);
    }

    method ExtendPin(ghost d: Disk, ghost current: set<Run>, ghost digest: Value -> string, id: string, until: int, moment: int) returns (r: Result<bool>)
      modifies this
      ensures Contents() == Apply(d, current, digest, old(Contents()), Extend(id, until, moment))
      ensures r == Ok(false) <==> !(id in old(pins) && moment < old(pins)[id].expiresAt)
      ensures id in old(pins) && moment < old(pins)[id].expiresAt ==>
        var expires := if until > old(pins)[id].expiresAt then until else old(pins)[id].expiresAt;
        var next := map k | k in old(pins) && moment < old(pins)[k].expiresAt ::
          if k == id then old(pins)[k].(expiresAt := expires) else old(pins)[k];
        (IntWidth(expires) != IntWidth(old(pins)[id].expiresAt) ==> r == Refused(Capacity)) &&
        (IntWidth(expires) == IntWidth(old(pins)[id].expiresAt) ==> r == Ok(true) && pins == next)
      ensures r != Ok(true) ==> pins == old(pins)
    {
      var live := Live(pins, moment);
      if id !in live { return Ok(false); }
      var expires := Max(live[id].expiresAt, until);
      if IntWidth(expires) != IntWidth(live[id].expiresAt) { return Refused(Capacity); }
      Save(live[id := live[id].(expiresAt := expires)]);
      r := Ok(true);
    }

    method ReleasePins(ghost d: Disk, ghost current: set<Run>, ghost digest: Value -> string, ids: set<string>, moment: int) returns (dropped: set<string>)
      modifies this
      ensures Contents() == Apply(d, current, digest, old(Contents()), Release(ids, moment))
      ensures dropped == set k | k in ids && k in old(pins) && moment < old(pins)[k].expiresAt
      ensures pins == map k | k in old(pins) && k !in ids && moment < old(pins)[k].expiresAt :: old(pins)[k]
    {
      var live := Live(pins, moment);
      var kept := map k | k in live && k !in ids :: live[k];
      assert kept == map k | k in live && k !in ids :: pins[k];
      Save(kept);
      dropped := live.Keys - kept.Keys;
    }

    /** find(): the matching pins, unless the bytes of one differ from its identity. */
    method FindConfirmed(digest: Value -> string, subject: Value, moment: int) returns (r: Result<set<string>>)
      ensures r.Ok? <==> forall k :: k in Matching(pins, subject, moment) ==> IdentifiedPin(pins[k], digest)
      ensures r == Ok(Matching(pins, subject, moment)) || r == Refused(Tampered)
      ensures var found := set k | k in pins && moment < pins[k].expiresAt && pins[k].subject == subject &&
          "status" in pins[k].publication && pins[k].publication["status"] == Str("confirmed");
        r == if forall k :: k in found ==> digest(Obj(pins[k].publication)) == pins[k].publicationId then Ok(found) else Refused(Tampered)
      ensures Identified(pins, digest) ==> r.Ok?
    {
      var live := Live(pins, moment);
      ghost var all := set k | k in pins && moment < pins[k].expiresAt && pins[k].subject == subject &&
        "status" in pins[k].publication && pins[k].publication["status"] == Str("confirmed");
      assert all == Matching(pins, subject, moment);
      var left, found := live.Keys, {};
      while left != {}
        invariant left <= live.Keys
        invariant found == Matching(pins, subject, moment) - left
        invariant forall k :: k in found ==> IdentifiedPin(pins[k], digest)
        decreases left
      {
        var k :| k in left;
        left := left - {k};
        if live[k].subject == subject && IsConfirmed(live[k]) {
          if digest(Obj(live[k].publication)) != live[k].publicationId {
            assert k in all;
            return Refused(Tampered);
          }
          found := found + {k};
        }
      }
      assert found == Matching(pins, subject, moment);
      r := Ok(found);
    }

    /** cleanup(): the live state, stored without expired pins. */
    method EnterCleanup(ghost d: Disk, ghost current: set<Run>, ghost digest: Value -> string, moment: int)
      modifies this
      ensures Contents() == Apply(d, current, digest, old(Contents()), DropExpired(moment))
      ensures pins == map k | k in old(pins) && moment < old(pins)[k].expiresAt :: old(pins)[k]
    {
      var live := Live(pins, moment);
      if live != pins { Save(live); }
    }
  }
}
