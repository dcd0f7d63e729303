/** One maintenance pass over completed records (tools/quality-host/bounded_records.py), under the
    pin lock the caller holds. */
module BoundedRecords {
  import opened Options
  import opened Totals
  import opened EvidencePins
  import opened Reports
  import opened Walk

  /** A row of the expiry index; `text` is the length of its encoded JSON. */
  datatype ExpiredRow = ExpiredRow(run: Run, expiredAt: real, text: nat)

  /** The index file: its rows, or no file at all. */
  datatype IndexFile = NoFile | Rows(rows: seq<ExpiredRow>)

  function RowsOf(file: IndexFile): seq<ExpiredRow> { if file.NoFile? then [] else file.rows }

  function TextOf(rows: seq<ExpiredRow>): nat {
    if rows == [] then 0 else TextOf(rows[..|rows| - 1]) + rows[|rows| - 1].text
  }

  /** Encoded length of a JSON list with the default separators. */
  function ListWidth(rows: seq<ExpiredRow>): nat { if rows == [] then 2 else TextOf(rows) + 2 * |rows| }

  function IndexBytes(file: IndexFile): nat { if file.NoFile? then 0 else ListWidth(file.rows) }

  datatype Fault = Unregistered | PinnedRetiring | Collision | Unfinished | PendingWrite | RegistryBusy
  datatype Verdict = Done(retained: set<Run>) | OverBudget | Failed(fault: Fault)

  // ---------------------------------------------------------------- what a pass may do to the disk

  /** A run keeps every file with its content; only leftover deduplication links may go. */
  predicate KeepsFiles(d: Disk, e: Disk, run: Run) {
    (forall p :: p in Tree(d, run) && !TemporaryName(p) ==> p in Tree(e, run)) &&
    (forall p :: p in Tree(e, run) ==> SameFile(d, e, run, p))
  }

  predicate SameFile(d: Disk, e: Disk, run: Run, p: Path) {
    p in Tree(d, run) && p in Tree(e, run) &&
    (Tree(e, run)[p] == Tree(d, run)[p] ||
      (Tree(d, run)[p] in d.content && Tree(e, run)[p] in e.content && d.content[Tree(d, run)[p]] == e.content[Tree(e, run)[p]]))
  }

  /** No run names an inode it did not name before. */
  ghost predicate Shrunk(d: Disk, e: Disk) {
    e.content == d.content && forall r :: r in d.runs || r in e.runs ==> Inodes(e, r) <= Inodes(d, r)
  }

  lemma ShrunkChargesNoMore(d: Disk, e: Disk, runs: set<Run>)
    requires Shrunk(d, e)
    ensures Charge(e, runs) <= Charge(d, runs)
  {
    forall r | r in runs ensures Inodes(e, r) <= Inodes(d, r) { }
    TotalMonotone(Sizes(e, AllInodes(e, runs)), Sizes(d, AllInodes(d, runs)));
  }

  lemma ShrunkTransitive(a: Disk, b: Disk, c: Disk)
    requires Shrunk(a, b) && Shrunk(b, c)
    ensures Shrunk(a, c)
  {
    forall r | r in a.runs || r in c.runs ensures Inodes(c, r) <= Inodes(a, r) {
      assert r !in b.runs ==> Inodes(b, r) == {};
      assert r !in b.runs && r !in c.runs ==> Inodes(c, r) == {};
    }
  }

  lemma KeepsFilesTransitive(a: Disk, b: Disk, c: Disk, run: Run)
    requires KeepsFiles(a, b, run) && KeepsFiles(b, c, run) && a.content == b.content == c.content
    ensures KeepsFiles(a, c, run)
  {
    forall p | p in Tree(c, run) ensures SameFile(a, c, run, p) {
      assert SameFile(b, c, run, p) && SameFile(a, b, run, p);
    }
  }

  /** Relinking one report to another of equal content, and dropping its temporary link. */
  function Relinked(d: Disk, run: Run, path: Path, inode: Inode): Disk
    requires run in d.runs && Report(path)
  {
    d.(runs := d.runs[run := (d.runs[run] - {Temporary(path)})[path := inode]])
  }

  lemma RelinkKeeps(d: Disk, run: Run, path: Path, prior: Path)
    requires run in d.runs && Report(path) && Report(prior) && path in d.runs[run] && prior in d.runs[run]
    requires d.runs[run][path] in d.content && d.runs[run][prior] in d.content
    requires d.content[d.runs[run][path]] == d.content[d.runs[run][prior]]
    ensures var e := Relinked(d, run, path, d.runs[run][prior]);
      Shrunk(d, e) && KeepsFiles(d, e, run) && forall r :: r != run ==> Tree(e, r) == Tree(d, r)
  {
    var e := Relinked(d, run, path, d.runs[run][prior]);
    TemporaryIsNamed(path);
    assert !Excluded(prior, PAYLOADS);
    assert d.runs[run][prior] in Inodes(d, run);
    forall i | i in Inodes(e, run) ensures i in Inodes(d, run) {
      var p :| p in Tree(e, run) && !Excluded(p, PAYLOADS) && Tree(e, run)[p] == i;
      assert p != path ==> p in Tree(d, run) && Tree(d, run)[p] == i;
    }
    forall r | r in d.runs || r in e.runs ensures Inodes(e, r) <= Inodes(d, r) {
      if r != run { assert Tree(e, r) == Tree(d, r); }
    }
  }

  function Without(d: Disk, run: Run): Disk { d.(runs := d.runs - {run}) }

  lemma RetireKeeps(d: Disk, run: Run)
    ensures var e := Without(d, run); Shrunk(d, e) && forall r :: r != run ==> Tree(e, r) == Tree(d, r)
  {
    var e := Without(d, run);
    forall r | r in d.runs || r in e.runs ensures Inodes(e, r) <= Inodes(d, r) {
      if r != run { assert Tree(e, r) == Tree(d, r); }
    }
  }

  lemma SameTreeKeepsFiles(d: Disk, e: Disk, run: Run)
    requires Tree(e, run) == Tree(d, run)
    ensures KeepsFiles(d, e, run)
  {
  }

  // ---------------------------------------------------------------- newest first

  predicate NewestFirst<T>(rows: seq<T>, at: T -> real) {
    forall i, j :: 0 <= i < j < |rows| ==> at(rows[i]) >= at(rows[j])
  }

  /** Equal times keep the order they came in. */
  function Insert<T>(rows: seq<T>, row: T, at: T -> real): seq<T> {
    if rows == [] || at(rows[0]) < at(row) then [row] + rows else [rows[0]] + Insert(rows[1..], row, at)
  }

  function SortNewest<T>(rows: seq<T>, at: T -> real): seq<T> {
    if rows == [] then [] else Insert(SortNewest(rows[..|rows| - 1], at), rows[|rows| - 1], at)
  }

  predicate Distinct<T(==)>(s: seq<T>) { forall i, j :: 0 <= i < j < |s| ==> s[i] != s[j] }

  lemma {:induction false} InsertElements<T>(rows: seq<T>, row: T, at: T -> real, x: T)
    ensures x in Insert(rows, row, at) <==> x in rows || x == row
  {
    if !(rows == [] || at(rows[0]) < at(row)) {
      InsertElements(rows[1..], row, at, x);
      assert rows == [rows[0]] + rows[1..];
    }
  }

  lemma {:induction false} InsertSorts<T>(rows: seq<T>, row: T, at: T -> real)
    requires NewestFirst(rows, at)
    ensures NewestFirst(Insert(rows, row, at), at)
  {
    if !(rows == [] || at(rows[0]) < at(row)) {
      var rest := Insert(rows[1..], row, at);
      InsertSorts(rows[1..], row, at);
      forall j | 0 <= j < |rest| ensures at(rows[0]) >= at(rest[j]) {
        InsertElements(rows[1..], row, at, rest[j]);
        if rest[j] in rows[1..] { var i :| 0 <= i < |rows[1..]| && rows[1..][i] == rest[j]; }
      }
    }
  }

  lemma {:induction false} InsertKeepsDistinct<T>(rows: seq<T>, row: T, at: T -> real)
    requires Distinct(rows) && row !in rows
    ensures Distinct(Insert(rows, row, at))
  {
    if !(rows == [] || at(rows[0]) < at(row)) {
      InsertKeepsDistinct(rows[1..], row, at);
      InsertElements(rows[1..], row, at, rows[0]);
      assert rows[0] !in rows[1..];
    }
  }

  lemma {:induction false} SortElements<T>(rows: seq<T>, at: T -> real, x: T)
    ensures x in SortNewest(rows, at) <==> x in rows
    decreases |rows|
  {
    if rows != [] {
      SortElements(rows[..|rows| - 1], at, x);
      InsertElements(SortNewest(rows[..|rows| - 1], at), rows[|rows| - 1], at, x);
      assert rows == rows[..|rows| - 1] + [rows[|rows| - 1]];
    }
  }

  lemma {:induction false} SortSorts<T>(rows: seq<T>, at: T -> real)
    ensures NewestFirst(SortNewest(rows, at), at)
    ensures Distinct(rows) ==> Distinct(SortNewest(rows, at))
    decreases |rows|
  {
    if rows != [] {
      var front, last := rows[..|rows| - 1], rows[|rows| - 1];
      SortSorts(front, at);
      SortElements(front, at, last);
      InsertSorts(SortNewest(front, at), last, at);
      if Distinct(rows) { InsertKeepsDistinct(SortNewest(front, at), last, at); }
    }
  }

  // ---------------------------------------------------------------- a run's reports

  predicate Backed(d: Disk) { forall r, p :: r in d.runs && p in d.runs[r] ==> d.runs[r][p] in d.content }

  /** Reports of equal content are one inode. */
  predicate Deduplicated(d: Disk, run: Run) {
    forall p, q ::
      p in Tree(d, run) && q in Tree(d, run) && Report(p) && Report(q) && EqualContent(d.content, Tree(d, run)[p], Tree(d, run)[q]) ==>
        Tree(d, run)[p] == Tree(d, run)[q]
  }

  /** What one step on `run` may do to a disk. */
  ghost predicate Tidied(d: Disk, e: Disk, run: Run) {
    Shrunk(d, e) && KeepsFiles(d, e, run) && run in e.runs && e.runs.Keys == d.runs.Keys && forall r :: r != run ==> Tree(e, r) == Tree(d, r)
  }

  lemma TidiedTransitive(a: Disk, b: Disk, c: Disk, run: Run)
    requires Tidied(a, b, run) && Tidied(b, c, run)
    ensures Tidied(a, c, run)
  {
    ShrunkTransitive(a, b, c);
    KeepsFilesTransitive(a, b, c, run);
  }

  /** The first report with this content, among the visited ones. */
  predicate SeenAt(d: Disk, run: Run, visited: seq<Path>, p: Path, f: File) {
    p in visited && p in Tree(d, run) && Tree(d, run)[p] in d.content && d.content[Tree(d, run)[p]] == f
  }

  predicate FollowsSeen(d: Disk, run: Run, seen: map<File, Path>, p: Path) {
    p in Tree(d, run) && Tree(d, run)[p] in d.content && var f := d.content[Tree(d, run)[p]];
    f in seen && seen[f] in Tree(d, run) && Tree(d, run)[seen[f]] == Tree(d, run)[p]
  }

  predicate Recorded(d: Disk, run: Run, visited: seq<Path>, seen: map<File, Path>, apply: bool) {
    (forall f :: f in seen ==> SeenAt(d, run, visited, seen[f], f)) && (forall p :: p in visited ==> Report(p)) &&
    (apply ==> forall p :: p in visited && p in Tree(d, run) ==> FollowsSeen(d, run, seen, p))
  }

  lemma FirstIsRecorded(d: Disk, run: Run, visited: seq<Path>, path: Path, seen: map<File, Path>, apply: bool)
    requires Backed(d) && path in Tree(d, run) && Report(path) && Recorded(d, run, visited, seen, apply)
    requires var f := d.content[Tree(d, run)[path]]; apply && f in seen ==> Tree(d, run)[seen[f]] == Tree(d, run)[path]
    ensures var f := d.content[Tree(d, run)[path]];
      Recorded(d, run, visited + [path], if f in seen then seen else seen[f := path], apply)
  {
    var f := d.content[Tree(d, run)[path]];
    var after := if f in seen then seen else seen[f := path];
    forall g | g in after ensures SeenAt(d, run, visited + [path], after[g], g) {
      if g in seen { assert SeenAt(d, run, visited, seen[g], g); }
    }
    if apply {
      forall p | p in visited + [path] && p in Tree(d, run) ensures FollowsSeen(d, run, after, p) {
        if p in visited { assert FollowsSeen(d, run, seen, p); }
      }
    }
  }

  lemma RelinkRecords(d: Disk, run: Run, visited: seq<Path>, path: Path, seen: map<File, Path>)
    requires Backed(d) && path in Tree(d, run) && Report(path) && Recorded(d, run, visited, seen, true)
    requires Temporary(path) !in visited && Temporary(path) != path && d.content[Tree(d, run)[path]] in seen
    ensures var prior := Tree(d, run)[seen[d.content[Tree(d, run)[path]]]];
      Recorded(Relinked(d, run, path, prior), run, visited + [path], seen, true)
  {
    var f := d.content[Tree(d, run)[path]];
    assert SeenAt(d, run, visited, seen[f], f);
    var e := Relinked(d, run, path, Tree(d, run)[seen[f]]);
    forall g | g in seen ensures SeenAt(e, run, visited + [path], seen[g], g) {
      assert SeenAt(d, run, visited, seen[g], g);
    }
    forall p | p in visited + [path] && p in Tree(e, run) ensures FollowsSeen(e, run, seen, p) {
      if p in visited && p != path {
        assert FollowsSeen(d, run, seen, p);
        var g := d.content[Tree(d, run)[p]];
        assert SeenAt(d, run, visited, seen[g], g) && SeenAt(e, run, visited + [path], seen[g], g);
      } else {
        assert SeenAt(e, run, visited + [path], seen[f], f);
      }
    }
  }

  lemma RecordedAll(d: Disk, e: Disk, run: Run, order: seq<Path>, seen: map<File, Path>, apply: bool)
    requires run in d.runs && Listing(order, d.runs[run]) && KeepsFiles(d, e, run) && Recorded(e, run, order, seen, apply)
    ensures apply ==> Deduplicated(e, run)
  {
    if apply {
      forall p, q | p in Tree(e, run) && q in Tree(e, run) && Report(p) && Report(q) &&
          EqualContent(e.content, Tree(e, run)[p], Tree(e, run)[q])
        ensures Tree(e, run)[p] == Tree(e, run)[q]
      {
        assert SameFile(d, e, run, p) && SameFile(d, e, run, q);
        assert FollowsSeen(e, run, seen, p) && FollowsSeen(e, run, seen, q);
      }
    }
  }

  /** Exactly the reports that sort before this one have been visited, as far as they are still there. */
  predicate ComesAfter(tree: Names, visited: seq<Path>, path: Path) {
    (forall p :: p in visited ==> PathBefore(p, path)) && forall p :: p in tree && Report(p) && PathBefore(p, path) ==> p in visited
  }

  lemma ListingComesAfter(order: seq<Path>, tree: Names, now: Names, i: nat)
    requires Listing(order, tree) && i < |order| && now.Keys <= tree.Keys
    ensures ComesAfter(now, order[..i], order[i])
  {
    forall p | p in now && Report(p) && PathBefore(p, order[i]) ensures p in order[..i] {
      var j :| 0 <= j < |order| && order[j] == p;
      PathsAreOrdered(order[i], p);
      assert i < j ==> PathBefore(order[i], order[j]);
    }
  }

  lemma FirstIsSeen(d: Disk, run: Run, visited: seq<Path>, seen: map<File, Path>, p: Path, path: Path)
    requires Backed(d) && Recorded(d, run, visited, seen, true) && ComesAfter(Tree(d, run), visited, path)
    requires p in Tree(d, run) && Report(p) && d.content[Tree(d, run)[p]] in seen && (p == path || p in visited)
    ensures var tree := Tree(d, run); tree[First(d.content, tree, p)] == tree[seen[d.content[tree[p]]]]
  {
    var tree, f := Tree(d, run), d.content[Tree(d, run)[p]];
    var q, s := First(d.content, tree, p), seen[f];
    assert SeenAt(d, run, visited, s, f) && Report(s) && s in Alike(d.content, tree, p);
    assert q in Alike(d.content, tree, p) && d.content[tree[q]] == f;
    if q != s {
      PathsTransitive(q, s, path);
      assert q in visited && FollowsSeen(d, run, seen, q);
    }
  }

  /** What has been visited is linked to the first report of its content, which is the one on record. */
  lemma VisitedAreLinked(d: Disk, run: Run, visited: seq<Path>, seen: map<File, Path>, path: Path)
    requires Backed(d) && Recorded(d, run, visited, seen, true) && ComesAfter(Tree(d, run), visited, path)
    ensures forall p :: p in Tree(d, run) && Report(p) && PathBefore(p, path) ==> Linked(d.content, Tree(d, run), p)
  {
    forall p | p in Tree(d, run) && Report(p) && PathBefore(p, path) ensures Linked(d.content, Tree(d, run), p) {
      assert p in visited && FollowsSeen(d, run, seen, p);
      FirstIsSeen(d, run, visited, seen, p, path);
    }
  }

  lemma UnseenIsFirst(d: Disk, run: Run, visited: seq<Path>, seen: map<File, Path>, path: Path)
    requires Backed(d) && Recorded(d, run, visited, seen, true) && ComesAfter(Tree(d, run), visited, path)
    requires path in Tree(d, run) && Report(path) && d.content[Tree(d, run)[path]] !in seen
    ensures Linked(d.content, Tree(d, run), path)
  {
    var tree := Tree(d, run);
    var q := First(d.content, tree, path);
    assert q in Alike(d.content, tree, path) && path in Alike(d.content, tree, path);
    assert q in visited && q in tree ==> FollowsSeen(d, run, seen, q);
  }

  predicate InTheWay(tree: Names, path: Path, prior: Inode)
    requires Report(path)
  {
    Directory(tree, Temporary(path)) || (Temporary(path) in tree && tree[Temporary(path)] != prior)
  }

  /** Where the walk stands when it comes to this report: linked, blocked, or about to link it. */
  lemma StandsAt(d: Disk, run: Run, visited: seq<Path>, seen: map<File, Path>, path: Path, prior: Inode)
    requires Backed(d) && Recorded(d, run, visited, seen, true) && ComesAfter(Tree(d, run), visited, path)
    requires path in Tree(d, run) && Report(path)
    requires var f := d.content[Tree(d, run)[path]]; f in seen ==> seen[f] in Tree(d, run) && prior == Tree(d, run)[seen[f]]
    requires d.content[Tree(d, run)[path]] !in seen ==> prior == Tree(d, run)[path]
    ensures var content, tree := d.content, Tree(d, run);
      (Linked(content, tree, path) <==> tree[path] == prior) &&
      (Blocked(content, tree, path) <==> tree[path] != prior && InTheWay(tree, path, prior)) &&
      (tree[path] != prior && !InTheWay(tree, path, prior) ==> Arrived(content, tree, path) && prior == tree[First(content, tree, path)])
  {
    VisitedAreLinked(d, run, visited, seen, path);
    if d.content[Tree(d, run)[path]] in seen { FirstIsSeen(d, run, visited, seen, path, path); }
    else { UnseenIsFirst(d, run, visited, seen, path); }
  }

  /** What the walk makes of one report it comes to. */
  ghost predicate Walked(content: Content, tree: Names, next: Names, x: Path)
    requires x in tree && Report(x)
  {
    if Linked(content, tree, x) then next == tree
    else
      var linked := if CanLink(content, tree, x) then AfterLink(content, tree, x) else tree;
      CanRename(content, linked, x) && next == AfterRename(content, linked, x)
  }

  lemma RelinkWalks(d: Disk, run: Run, x: Path, inode: Inode)
    requires run in d.runs && Arrived(d.content, d.runs[run], x) && !Blocked(d.content, d.runs[run], x)
    requires inode == d.runs[run][First(d.content, d.runs[run], x)]
    ensures Walked(d.content, d.runs[run], Relinked(d, run, x, inode).runs[run], x)
  {
    var content, tree := d.content, d.runs[run];
    if CanLink(content, tree, x) {
      LinkThenRename(content, tree, x);
      LinkKeepsFirst(content, tree, x, x);
      assert AfterLink(content, tree, x) - {Temporary(x)} == tree - {Temporary(x)};
    }
  }

  lemma RelinkGoesOn(d: Disk, run: Run, visited: seq<Path>, path: Path, seen: map<File, Path>, prior: Inode)
    requires Backed(d) && run in d.runs && path in d.runs[run] && Report(path) && Recorded(d, run, visited, seen, true)
    requires Temporary(path) !in visited && Temporary(path) != path && d.content[d.runs[run][path]] in seen
    requires var f := d.content[d.runs[run][path]]; seen[f] in d.runs[run] && prior == d.runs[run][seen[f]]
    requires Arrived(d.content, d.runs[run], path) && !Blocked(d.content, d.runs[run], path)
    requires prior == d.runs[run][First(d.content, d.runs[run], path)]
    ensures var e := Relinked(d, run, path, prior);
      Backed(e) && Tidied(d, e, run) && Recorded(e, run, visited + [path], seen, true) && Walked(d.content, d.runs[run], e.runs[run], path)
  {
    var f := d.content[d.runs[run][path]];
    assert SeenAt(d, run, visited, seen[f], f);
    RelinkWalks(d, run, path, prior);
    RelinkKeeps(d, run, path, seen[f]);
    RelinkRecords(d, run, visited, path, seen);
  }

  /** Consumed so far or still due: what the walk consumes was due before it began. */
  ghost predicate DueAsBefore(content: Content, tree: Names, now: Names) {
    now.Keys <= tree.Keys && forall e :: e in tree ==> DueStill(content, tree, now, e)
  }

  ghost predicate DueStill(content: Content, tree: Names, now: Names, e: Path) {
    WillConsume(content, tree, e) <==> e !in now || WillConsume(content, now, e)
  }

  lemma WalkedConsumes(content: Content, tree: Names, now: Names, next: Names, x: Path)
    requires DueAsBefore(content, tree, now) && x in now && Report(x) && Walked(content, now, next, x)
    ensures DueAsBefore(content, tree, next)
  {
    if !Linked(content, now, x) {
      var linked := if CanLink(content, now, x) then AfterLink(content, now, x) else now;
      forall e | e in tree ensures DueStill(content, tree, next, e) {
        assert DueStill(content, tree, now, e);
        if e in now {
          if CanLink(content, now, x) { LinkConsumesNothing(content, now, x, e); }
          RenameConsumesOne(content, linked, x, e);
        }
      }
    }
  }

  /** Blocked reports are the same before and after. */
  ghost predicate BlockedAsBefore(content: Content, tree: Names, now: Names) {
    forall x :: x in tree && Report(x) ==> (Blocked(content, tree, x) <==> x in now && Blocked(content, now, x))
  }

  lemma WalkedBlocks(content: Content, tree: Names, now: Names, next: Names, x: Path)
    requires BlockedAsBefore(content, tree, now) && now.Keys <= tree.Keys && x in now && Report(x) && Walked(content, now, next, x)
    ensures BlockedAsBefore(content, tree, next)
  {
    if !Linked(content, now, x) {
      var linked := if CanLink(content, now, x) then AfterLink(content, now, x) else now;
      forall p | p in tree && Report(p) ensures Blocked(content, tree, p) <==> p in next && Blocked(content, next, p) {
        if p in now {
          if CanLink(content, now, x) { LinkKeepsBlocked(content, now, x, p); }
          if p == Temporary(x) { LinkIsLinked(content, linked, x); } else { RenameKeepsBlocked(content, linked, x, p); }
        }
      }
    }
  }

  /** A walk that began on disk `d` and has visited these reports. */
  ghost predicate Walking(d: Disk, now: Disk, run: Run, visited: seq<Path>, seen: map<File, Path>, apply: bool)
    requires run in d.runs
  {
    Backed(now) && Tidied(d, now, run) && (!apply ==> now == d) && Recorded(now, run, visited, seen, apply) &&
    DueAsBefore(d.content, d.runs[run], now.runs[run]) && BlockedAsBefore(d.content, d.runs[run], now.runs[run])
  }

  lemma WalkBegins(d: Disk, run: Run, apply: bool)
    requires Backed(d) && run in d.runs
    ensures Walking(d, d, run, [], map[], apply)
  {
    SameTreeKeepsFiles(d, d, run);
    forall e | e in d.runs[run] ensures DueStill(d.content, d.runs[run], d.runs[run], e) { }
  }

  lemma WalkGoesOn(d: Disk, now: Disk, next: Disk, run: Run, visited: seq<Path>, seen: map<File, Path>, path: Path,
                   after: map<File, Path>, apply: bool)
    requires run in d.runs && Walking(d, now, run, visited, seen, apply) && path in now.runs[run] && Report(path)
    requires Backed(next) && Tidied(now, next, run) && (!apply ==> next == now) && Recorded(next, run, visited + [path], after, apply)
    requires apply ==> Walked(now.content, now.runs[run], next.runs[run], path)
    ensures Walking(d, next, run, visited + [path], after, apply)
  {
    TidiedTransitive(d, now, next, run);
    if apply {
      WalkedConsumes(d.content, d.runs[run], now.runs[run], next.runs[run], path);
      WalkedBlocks(d.content, d.runs[run], now.runs[run], next.runs[run], path);
    }
  }

  lemma WalkPassesOver(d: Disk, now: Disk, run: Run, visited: seq<Path>, seen: map<File, Path>, path: Path, apply: bool)
    requires run in d.runs && Walking(d, now, run, visited, seen, apply) && path !in now.runs[run] && Report(path)
    ensures Walking(d, now, run, visited + [path], seen, apply)
  {
    assert forall f :: f in seen ==> SeenAt(now, run, visited, seen[f], f);
  }

  /** What is due of a link that is gone or can no longer go. */
  ghost predicate Decided(content: Content, tree: Names, now: Names) {
    forall e :: e in tree ==> (e !in now <==> WillConsume(content, tree, e))
  }

  lemma BlockedEnds(content: Content, tree: Names, now: Names, x: Path)
    requires DueAsBefore(content, tree, now) && BlockedAsBefore(content, tree, now) && x in now && Report(x) && Blocked(content, now, x)
    requires forall p :: p in now && Report(p) && PathBefore(p, x) ==> Linked(content, now, p)
    ensures Decided(content, tree, now) && x in tree && Blocked(content, tree, x)
  {
    forall e | e in tree ensures e !in now <==> WillConsume(content, tree, e) {
      assert DueStill(content, tree, now, e);
      if e in now && TemporaryName(e) && Base(e) in now && Report(Base(e)) { PathsAreOrdered(Base(e), x); }
    }
  }

  lemma LinkedEnds(content: Content, tree: Names, now: Names)
    requires DueAsBefore(content, tree, now) && BlockedAsBefore(content, tree, now) && forall p :: p in now && Report(p) ==> Linked(content, now, p)
    ensures Decided(content, tree, now) && forall x :: x in tree && Report(x) ==> !Blocked(content, tree, x)
  {
    forall e | e in tree ensures e !in now <==> WillConsume(content, tree, e) { assert DueStill(content, tree, now, e); }
  }

  lemma AllAreLinked(d: Disk, run: Run, order: seq<Path>, seen: map<File, Path>)
    requires Backed(d) && run in d.runs && Recorded(d, run, order, seen, true) && forall p :: p in d.runs[run] && Report(p) ==> p in order
    ensures forall p :: p in d.runs[run] && Report(p) ==> Linked(d.content, d.runs[run], p)
  {
    forall p | p in d.runs[run] && Report(p) ensures Linked(d.content, d.runs[run], p) {
      var q := First(d.content, d.runs[run], p);
      assert q in Alike(d.content, d.runs[run], p);
      assert FollowsSeen(d, run, seen, p) && FollowsSeen(d, run, seen, q);
    }
  }

  // ---------------------------------------------------------------- one pass

  predicate Named(rows: seq<ExpiredRow>, run: Run) { exists row :: row in rows && row.run == run }

  function Others(rows: seq<ExpiredRow>, run: Run): seq<ExpiredRow> {
    if rows == [] then []
    else (if rows[0].run != run then [rows[0]] else []) + Others(rows[1..], run)
  }

  /** What is left after a pass: every remaining run with all its files, and every pinned run. */
  ghost predicate Spared(d: Disk, e: Disk, pinned: set<Run>) {
    Shrunk(d, e) && (forall r :: r in e.runs ==> r in d.runs && KeepsFiles(d, e, r)) && forall r :: r in pinned && r in d.runs ==> r in e.runs
  }

  lemma SparedTransitive(a: Disk, b: Disk, c: Disk, pinned: set<Run>)
    requires Spared(a, b, pinned) && Spared(b, c, pinned)
    ensures Spared(a, c, pinned)
  {
    ShrunkTransitive(a, b, c);
    forall r | r in c.runs ensures r in a.runs && KeepsFiles(a, c, r) { KeepsFilesTransitive(a, b, c, r); }
  }

  lemma TidiedSpares(d: Disk, e: Disk, run: Run, pinned: set<Run>)
    requires Tidied(d, e, run)
    ensures Spared(d, e, pinned)
  {
    forall r | r in e.runs ensures r in d.runs && KeepsFiles(d, e, r) {
      if r != run { SameTreeKeepsFiles(d, e, r); }
    }
  }

  lemma WithoutSpares(d: Disk, run: Run, pinned: set<Run>)
    requires run !in pinned
    ensures Spared(d, Without(d, run), pinned)
  {
    RetireKeeps(d, run);
    forall r | r in Without(d, run).runs ensures KeepsFiles(d, Without(d, run), r) { SameTreeKeepsFiles(d, Without(d, run), r); }
  }

  /** Which of the records a pass retains: `sorted[i]` unless pinned only within count and age, and then
      unless it is older than the newest and would not have fitted beside what was retained. */
  ghost predicate JudgedAt(d: Disk, sorted: seq<Run>, i: nat, retained: set<Run>, archivedAt: Run -> real, clock: nat -> real,
                           policy: Policy, pins: map<string, Pin>)
    requires i < |sorted|
  {
    var age := clock(2 * i) - archivedAt(sorted[i]);
    (sorted[i] in retained ==> sorted[i] in Runs(pins) || Young(policy, i, age)) &&
    (sorted[i] !in retained && Young(policy, i, age) ==>
      i > 0 && Charge(d, retained + {sorted[i]}) + StateBytes(pins) > policy.budget)
  }

  /** The first i records are decided: what is retained fits beside the pins, and each decision follows the policy. */
  ghost predicate Placed(d: Disk, e: Disk, sorted: seq<Run>, i: nat, retained: set<Run>, archivedAt: Run -> real, clock: nat -> real,
                         policy: Policy, pins: map<string, Pin>, apply: bool)
    requires i <= |sorted|
  {
    Between(retained, Runs(pins), sorted[..i]) && Fits(e, retained, policy, pins) &&
    (i == 0 ==> Fits(e, Runs(pins) + Newest(sorted), policy, pins)) &&
    Judged(d, sorted, i, retained, archivedAt, clock, policy, pins) && (apply ==> Emptied(e, sorted[..i], retained))
  }

  predicate Between(retained: set<Run>, pinned: set<Run>, visited: seq<Run>) {
    pinned <= retained && forall r :: r in retained ==> r in pinned || r in visited
  }

  ghost predicate Fits(d: Disk, runs: set<Run>, policy: Policy, pins: map<string, Pin>) {
    Charge(d, runs) + StateBytes(pins) <= policy.budget
  }

  ghost predicate Judged(d: Disk, sorted: seq<Run>, i: nat, retained: set<Run>, archivedAt: Run -> real, clock: nat -> real,
                         policy: Policy, pins: map<string, Pin>)
    requires i <= |sorted|
  {
    forall j :: 0 <= j < i ==> JudgedAt(d, sorted, j, retained, archivedAt, clock, policy, pins)
  }

  lemma JudgedByOne(d: Disk, before: Disk, sorted: seq<Run>, i: nat, had: set<Run>, retained: set<Run>,
                    archivedAt: Run -> real, clock: nat -> real, policy: Policy, pins: map<string, Pin>)
    requires i < |sorted| && Distinct(sorted) && Shrunk(d, before) && had <= retained <= had + {sorted[i]}
    requires Judged(d, sorted, i, had, archivedAt, clock, policy, pins) && Between(had, Runs(pins), sorted[..i])
    requires sorted[i] in retained && sorted[i] !in had ==> Young(policy, i, clock(2 * i) - archivedAt(sorted[i]))
    requires sorted[i] !in retained && Young(policy, i, clock(2 * i) - archivedAt(sorted[i])) ==>
      i > 0 && !Fits(before, had + {sorted[i]}, policy, pins)
    ensures Judged(d, sorted, i + 1, retained, archivedAt, clock, policy, pins)
  {
    forall j | 0 <= j <= i ensures JudgedAt(d, sorted, j, retained, archivedAt, clock, policy, pins) {
      if j < i {
        assert sorted[j] != sorted[i];
        assert JudgedAt(d, sorted, j, had, archivedAt, clock, policy, pins);
        ChargeMonotone(d, had + {sorted[j]}, retained + {sorted[j]});
      } else {
        assert sorted[i] !in sorted[..i];
        ShrunkChargesNoMore(d, before, had + {sorted[i]});
        ChargeMonotone(d, had + {sorted[i]}, retained + {sorted[i]});
      }
    }
  }

  lemma FitsByOne(before: Disk, e: Disk, sorted: seq<Run>, i: nat, had: set<Run>, retained: set<Run>,
                  policy: Policy, pins: map<string, Pin>)
    requires i < |sorted| && Shrunk(before, e) && had <= retained <= had + {sorted[i]}
    requires Fits(before, had, policy, pins) && Between(had, Runs(pins), sorted[..i])
    requires i == 0 ==> Fits(before, Runs(pins) + Newest(sorted), policy, pins)
    requires sorted[i] in retained && sorted[i] !in had ==> i == 0 || Fits(e, retained, policy, pins)
    ensures Fits(e, retained, policy, pins) && Between(retained, Runs(pins), sorted[..i + 1])
  {
    assert sorted[..i + 1] == sorted[..i] + [sorted[i]];
    assert Between(retained, Runs(pins), sorted[..i + 1]);
    ShrunkChargesNoMore(before, e, retained);
    if sorted[i] !in retained || sorted[i] in had {
      assert retained == had;
    } else if i == 0 {
      assert retained <= Runs(pins) + Newest(sorted);
      ChargeMonotone(before, retained, Runs(pins) + Newest(sorted));
    }
  }

  /** What one record's turn does: only its own directory changes, and it stays exactly when pinned, or
      young and either the newest or fitting beside what is already retained. */
  ghost predicate Passed(d: Disk, e: Disk, i: nat, run: Run, age: real, retained: set<Run>, kept: set<Run>, policy: Policy,
                         pins: map<string, Pin>, ended: bool, apply: bool)
  {
    Spared(d, e, Runs(pins)) && OnlyTouches(d, e, run) && retained <= kept <= retained + {run} &&
    (ended && apply ==> run in kept || run !in e.runs) &&
    (run in kept && run !in retained ==> Young(policy, i, age) && (i == 0 || Fits(e, kept, policy, pins))) &&
    (ended && run !in kept && Young(policy, i, age) ==> i > 0 && !Fits(d, retained + {run}, policy, pins))
  }

  predicate Emptied(d: Disk, visited: seq<Run>, retained: set<Run>) { forall r :: r in visited && r in d.runs ==> r in retained }

  lemma EmptiedByOne(before: Disk, e: Disk, sorted: seq<Run>, i: nat, had: set<Run>, retained: set<Run>)
    requires i < |sorted| && Emptied(before, sorted[..i], had) && had <= retained && OnlyTouches(before, e, sorted[i])
    requires sorted[i] in retained || sorted[i] !in e.runs
    ensures Emptied(e, sorted[..i + 1], retained)
  {
    assert sorted[..i + 1] == sorted[..i] + [sorted[i]];
    forall r | r in sorted[..i + 1] && r in e.runs ensures r in retained {
      if r != sorted[i] { assert r in e.runs - {sorted[i]}; }
    }
  }

  /** Only `run` may have changed. */
  predicate OnlyTouches(d: Disk, e: Disk, run: Run) { e.runs - {run} == d.runs - {run} }

  lemma TidiedTouches(d: Disk, e: Disk, run: Run)
    requires Tidied(d, e, run)
    ensures OnlyTouches(d, e, run)
  {
    forall r | r in d.runs && r != run ensures e.runs[r] == d.runs[r] { assert Tree(e, r) == Tree(d, r); }
  }

  lemma NothingSpares(d: Disk, pinned: set<Run>)
    ensures Spared(d, d, pinned)
  {
    forall r | r in d.runs ensures KeepsFiles(d, d, r) { SameTreeKeepsFiles(d, d, r); }
  }

  predicate Untouched(d: Disk, e: Disk, visited: seq<Run>) {
    forall r :: r in d.runs && r !in visited ==> r in e.runs && e.runs[r] == d.runs[r]
  }

  lemma UntouchedByOne(a: Disk, b: Disk, c: Disk, order: seq<Run>, i: nat)
    requires i < |order| && Untouched(a, b, order[..i]) && OnlyTouches(b, c, order[i])
    ensures Untouched(a, c, order[..i + 1])
  {
    assert order[..i + 1] == order[..i] + [order[i]];
    forall r | r in a.runs && r !in order[..i + 1] ensures r in c.runs && c.runs[r] == a.runs[r] {
      assert r in b.runs - {order[i]};
      assert (b.runs - {order[i]})[r] == a.runs[r];
    }
  }

  lemma KeptByOne(a: Disk, b: Disk, c: Disk, order: seq<Run>, i: nat, pinned: set<Run>)
    requires i < |order| && Untouched(a, b, order[..i]) && OnlyTouches(b, c, order[i]) && Spared(a, b, pinned) && Spared(b, c, pinned)
    ensures Untouched(a, c, order[..i + 1]) && Spared(a, c, pinned)
  {
    SparedTransitive(a, b, c, pinned);
    UntouchedByOne(a, b, c, order, i);
  }

  lemma PlacedByOne(d: Disk, before: Disk, e: Disk, sorted: seq<Run>, i: nat, had: set<Run>, retained: set<Run>,
                    archivedAt: Run -> real, clock: nat -> real, policy: Policy, pins: map<string, Pin>, apply: bool)
    requires i < |sorted| && Distinct(sorted) && Shrunk(d, before)
    requires Placed(d, before, sorted, i, had, archivedAt, clock, policy, pins, apply)
    requires Passed(before, e, i, sorted[i], clock(2 * i) - archivedAt(sorted[i]), had, retained, policy, pins, true, apply)
    ensures Placed(d, e, sorted, i + 1, retained, archivedAt, clock, policy, pins, apply)
  {
    JudgedByOne(d, before, sorted, i, had, retained, archivedAt, clock, policy, pins);
    FitsByOne(before, e, sorted, i, had, retained, policy, pins);
    if apply { EmptiedByOne(before, e, sorted, i, had, retained); }
  }

  lemma NothingPlaced(d: Disk, sorted: seq<Run>, archivedAt: Run -> real, clock: nat -> real, policy: Policy, pins: map<string, Pin>, apply: bool)
    requires Reserved(d, pins, Newest(sorted)) <= policy.budget
    ensures Placed(d, d, sorted, 0, Runs(pins), archivedAt, clock, policy, pins, apply)
  {
    ChargeMonotone(d, Runs(pins), Runs(pins) + Newest(sorted));
  }

  lemma UntouchedSoFar(a: Disk, b: Disk, order: seq<Run>, i: nat)
    requires i < |order| && Distinct(order) && Untouched(a, b, order[..i]) && order[i] in a.runs
    ensures order[i] in b.runs && b.runs[order[i]] == a.runs[order[i]]
  {
    assert order[i] !in order[..i];
  }

  lemma UntouchedAll(a: Disk, b: Disk, order: seq<Run>, i: nat)
    requires i <= |order| && Untouched(a, b, order[..i])
    ensures Untouched(a, b, order)
  {
  }

  function Newest(sorted: seq<Run>): set<Run> { if sorted == [] then {} else {sorted[0]} }

  datatype Policy = Policy(keep: nat, hours: nat, budget: int)

  predicate Young(policy: Policy, i: nat, age: real) { i < policy.keep && age < policy.hours as real * 3600.0 }

  /** Every directory left over from a killed pass is named in the index, and none is of a pinned run. */
  predicate Resumable(retiring: set<Run>, records: seq<ExpiredRow>, pinned: set<Run>) {
    forall r :: r in retiring ==> Named(records, r) && r !in pinned
  }

  /** Deduplication stops at some report of this run. */
  ghost predicate Stuck(d: Disk, run: Run) {
    run in d.runs && exists x :: x in d.runs[run] && Report(x) && Blocked(d.content, d.runs[run], x)
  }

  /** These candidates, in order, up to the i-th. */
  function Seen(sorted: seq<Run>, i: nat): set<Run>
    requires i <= |sorted|
  {
    set r | r in sorted[..i]
  }

  lemma SeenByOne(sorted: seq<Run>, i: nat)
    requires i < |sorted|
    ensures Seen(sorted, i + 1) == Seen(sorted, i) + {sorted[i]}
  {
    assert sorted[..i + 1] == sorted[..i] + [sorted[i]];
  }

  /** Neither pinned, nor young and either the newest or fitting beside all before it: the i-th record goes. */
  ghost predicate Goes(e: Disk, sorted: seq<Run>, i: nat, archivedAt: Run -> real, clock: nat -> real, policy: Policy, pins: map<string, Pin>)
    requires i < |sorted|
  {
    sorted[i] !in Runs(pins) &&
    !(i < policy.keep && clock(2 * i) - archivedAt(sorted[i]) < policy.hours as real * 3600.0 &&
      (i == 0 || Charge(e, Runs(pins) + Seen(sorted, i + 1)) + StateBytes(pins) <= policy.budget))
  }

  ghost predicate AnyGoes(e: Disk, sorted: seq<Run>, archivedAt: Run -> real, clock: nat -> real, policy: Policy, pins: map<string, Pin>) {
    exists i :: 0 <= i < |sorted| && Goes(e, sorted, i, archivedAt, clock, policy, pins)
  }

  ghost predicate AnyStuck(d: Disk, runs: seq<Run>) { exists r :: r in runs && Stuck(d, r) }

  /** The expiry rows after the first n records: each one that went has a new row at the end and no other. */
  function RowsAfter(rows: seq<ExpiredRow>, sorted: seq<Run>, n: nat, retained: set<Run>, clock: nat -> real, text: Run -> nat): seq<ExpiredRow>
    requires n <= |sorted|
  {
    if n == 0 then rows
    else
      var before := RowsAfter(rows, sorted, n - 1, retained, clock, text);
      if sorted[n - 1] in retained then before
      else Others(before, sorted[n - 1]) + [ExpiredRow(sorted[n - 1], clock(2 * (n - 1) + 1), text(sorted[n - 1]))]
  }

  /** The rows before and after the k-th record of a pass. */
  predicate Changed(trace: seq<seq<ExpiredRow>>, k: nat, sorted: seq<Run>, retained: set<Run>, clock: nat -> real, text: Run -> nat)
    requires k + 1 < |trace| && k < |sorted|
  {
    trace[k + 1] ==
      if sorted[k] in retained then trace[k]
      else Others(trace[k], sorted[k]) + [ExpiredRow(sorted[k], clock(2 * k + 1), text(sorted[k]))]
  }

  /** These are the expiry rows an applied pass has had before each of its first i records and after the last of them. */
  ghost predicate Traced(trace: seq<seq<ExpiredRow>>, after: seq<ExpiredRow>, rows: seq<ExpiredRow>, sorted: seq<Run>, i: nat,
                         retained: set<Run>, clock: nat -> real, text: Run -> nat)
    requires i <= |sorted|
  {
    |trace| == i + 1 && trace[0] == rows && trace[i] == after && forall k: nat :: k < i ==> Changed(trace, k, sorted, retained, clock, text)
  }

  lemma TracedByOne(trace: seq<seq<ExpiredRow>>, rows: seq<ExpiredRow>, sorted: seq<Run>, i: nat, had: set<Run>, retained: set<Run>,
                    clock: nat -> real, text: Run -> nat, before: seq<ExpiredRow>, after: seq<ExpiredRow>)
    requires i < |sorted| && Distinct(sorted) && had <= retained <= had + {sorted[i]} && Traced(trace, before, rows, sorted, i, had, clock, text)
    requires after == if sorted[i] in retained then before else Others(before, sorted[i]) + [ExpiredRow(sorted[i], clock(2 * i + 1), text(sorted[i]))]
    ensures Traced(trace + [after], after, rows, sorted, i + 1, retained, clock, text)
  {
    var more := trace + [after];
    forall k: nat | k < i + 1 ensures Changed(more, k, sorted, retained, clock, text) {
      if k < i { assert Changed(trace, k, sorted, had, clock, text) && sorted[k] != sorted[i]; }
    }
  }

  lemma {:induction false} TracedRows(trace: seq<seq<ExpiredRow>>, rows: seq<ExpiredRow>, sorted: seq<Run>, i: nat, retained: set<Run>,
                                      clock: nat -> real, text: Run -> nat)
    requires i <= |sorted| && |trace| == i + 1 && trace[0] == rows && forall k: nat :: k < i ==> Changed(trace, k, sorted, retained, clock, text)
    ensures trace[i] == RowsAfter(rows, sorted, i, retained, clock, text)
  {
    if i > 0 {
      var front := trace[..i];
      forall k: nat | k < i - 1 ensures Changed(front, k, sorted, retained, clock, text) {
        assert Changed(trace, k, sorted, retained, clock, text);
      }
      TracedRows(front, rows, sorted, i - 1, retained, clock, text);
      assert Changed(trace, i - 1, sorted, retained, clock, text);
    }
  }

  /** What a finished pass leaves of the index. */
  predicate IndexEnds(now: IndexFile, rows: seq<ExpiredRow>, cutoff: real, room: int) {
    if room < 2 then now == NoFile else now.Rows? && Trimmed(now.rows, rows, cutoff, room)
  }

  /** How one record's turn ends: a fault only for a stuck report, a directory in the way of the renamed run, or an
      index that cannot be replaced although the record has to go. */
  ghost predicate OneEnds(d: Disk, e: Disk, i: nat, run: Run, age: real, retained: set<Run>, kept: set<Run>, policy: Policy,
                          pins: map<string, Pin>, fault: Option<Fault>, pending: bool, retiring: set<Run>, apply: bool)
  {
    (fault == Some(Unfinished) <==> apply && Stuck(d, run)) && (fault == Some(Collision) ==> apply && run in retiring) &&
    (fault == Some(PendingWrite) ==>
      apply && pending && run !in Runs(pins) &&
      !(i < policy.keep && age < policy.hours as real * 3600.0 && (i == 0 || Charge(e, retained + {run}) + StateBytes(pins) <= policy.budget))) &&
    fault in {None, Some(Unfinished), Some(Collision), Some(PendingWrite)} &&
    (fault == None && apply && pending ==> kept == retained + {run})
  }

  /** The same of the i-th record in a pass that began on disk `d`. */
  ghost predicate TurnEnds(d: Disk, e: Disk, sorted: seq<Run>, i: nat, retained: set<Run>, kept: set<Run>, archivedAt: Run -> real,
                           clock: nat -> real, policy: Policy, pins: map<string, Pin>, fault: Option<Fault>, pending: bool,
                           retiring: set<Run>, apply: bool)
    requires i < |sorted|
  {
    (fault == Some(Unfinished) <==> apply && Stuck(d, sorted[i])) && (fault == Some(Collision) ==> apply && retiring != {}) &&
    (fault == Some(PendingWrite) ==>
      apply && pending && (retained == Runs(pins) + Seen(sorted, i) ==> Goes(e, sorted, i, archivedAt, clock, policy, pins))) &&
    fault in {None, Some(Unfinished), Some(Collision), Some(PendingWrite)} &&
    (fault == None && apply && pending ==> kept == retained + {sorted[i]})
  }

  lemma TurnFollows(d: Disk, before: Disk, e: Disk, sorted: seq<Run>, i: nat, retained: set<Run>, kept: set<Run>, archivedAt: Run -> real,
                    clock: nat -> real, policy: Policy, pins: map<string, Pin>, fault: Option<Fault>, pending: bool,
                    retiring: set<Run>, apply: bool)
    requires i < |sorted| && Distinct(sorted) && sorted[i] in d.runs && Untouched(d, before, sorted[..i]) && before.content == d.content
    requires OneEnds(before, e, i, sorted[i], clock(2 * i) - archivedAt(sorted[i]), retained, kept, policy, pins, fault, pending, retiring, apply)
    ensures TurnEnds(d, e, sorted, i, retained, kept, archivedAt, clock, policy, pins, fault, pending, retiring, apply)
  {
    UntouchedSoFar(d, before, sorted, i);
    assert Stuck(before, sorted[i]) <==> Stuck(d, sorted[i]);
    SeenByOne(sorted, i);
    if retained == Runs(pins) + Seen(sorted, i) { assert retained + {sorted[i]} == Runs(pins) + Seen(sorted, i + 1); }
  }

  /** So far no report was stuck, and an index that cannot be replaced has made every record stay. */
  ghost predicate GoneOn(d: Disk, sorted: seq<Run>, i: nat, retained: set<Run>, pins: map<string, Pin>, pending: bool, apply: bool)
    requires i <= |sorted|
  {
    (apply ==> forall r :: r in sorted[..i] ==> !Stuck(d, r)) && (apply && pending ==> retained == Runs(pins) + Seen(sorted, i))
  }

  ghost predicate EachFails(d: Disk, e: Disk, sorted: seq<Run>, archivedAt: Run -> real, clock: nat -> real, policy: Policy,
                            pins: map<string, Pin>, fault: Option<Fault>, pending: bool, retiring: set<Run>, apply: bool)
  {
    fault in {Some(Unfinished), Some(Collision), Some(PendingWrite)} && apply &&
    (fault == Some(Unfinished) ==> AnyStuck(d, sorted)) && (fault == Some(Collision) ==> retiring != {}) &&
    (fault == Some(PendingWrite) ==> pending && AnyGoes(e, sorted, archivedAt, clock, policy, pins))
  }

  lemma GoneOnByOne(d: Disk, e: Disk, sorted: seq<Run>, i: nat, had: set<Run>, retained: set<Run>, archivedAt: Run -> real,
                    clock: nat -> real, policy: Policy, pins: map<string, Pin>, fault: Option<Fault>, pending: bool,
                    retiring: set<Run>, apply: bool)
    requires i < |sorted| && GoneOn(d, sorted, i, had, pins, pending, apply)
    requires TurnEnds(d, e, sorted, i, had, retained, archivedAt, clock, policy, pins, fault, pending, retiring, apply)
    ensures fault == None ==> GoneOn(d, sorted, i + 1, retained, pins, pending, apply)
    ensures fault != None ==> EachFails(d, e, sorted, archivedAt, clock, policy, pins, fault, pending, retiring, apply)
  {
    SeenByOne(sorted, i);
    assert sorted[..i + 1] == sorted[..i] + [sorted[i]];
    assert sorted[i] in sorted;
  }

  /** A pass that began on disk `d`, after its first i records. */
  ghost predicate Midway(d: Disk, e: Disk, sorted: seq<Run>, i: nat, retained: set<Run>, archivedAt: Run -> real, clock: nat -> real,
                         policy: Policy, pins: map<string, Pin>, pending: bool, apply: bool)
    requires i <= |sorted|
  {
    Spared(d, e, Runs(pins)) && Untouched(d, e, sorted[..i]) &&
    Placed(d, e, sorted, i, retained, archivedAt, clock, policy, pins, apply) && GoneOn(d, sorted, i, retained, pins, pending, apply)
  }

  lemma NotYetKept(d: Disk, e: Disk, sorted: seq<Run>, i: nat, retained: set<Run>, archivedAt: Run -> real, clock: nat -> real,
                   policy: Policy, pins: map<string, Pin>, apply: bool)
    requires i < |sorted| && Distinct(sorted) && Placed(d, e, sorted, i, retained, archivedAt, clock, policy, pins, apply)
    ensures sorted[i] in retained ==> sorted[i] in Runs(pins)
  {
    assert sorted[i] !in sorted[..i];
  }

  lemma MidwayBegins(d: Disk, sorted: seq<Run>, archivedAt: Run -> real, clock: nat -> real, policy: Policy, pins: map<string, Pin>,
                     pending: bool, apply: bool)
    requires Reserved(d, pins, Newest(sorted)) <= policy.budget
    ensures Midway(d, d, sorted, 0, Runs(pins), archivedAt, clock, policy, pins, pending, apply)
  {
    NothingSpares(d, Runs(pins));
    NothingPlaced(d, sorted, archivedAt, clock, policy, pins, apply);
    assert Seen(sorted, 0) == {};
  }

  lemma MidwayEnds(d: Disk, e: Disk, sorted: seq<Run>, retained: set<Run>, archivedAt: Run -> real, clock: nat -> real,
                   policy: Policy, pins: map<string, Pin>, pending: bool, apply: bool)
    requires Midway(d, e, sorted, |sorted|, retained, archivedAt, clock, policy, pins, pending, apply)
    ensures Spared(d, e, Runs(pins)) && Untouched(d, e, sorted)
  {
    UntouchedAll(d, e, sorted, |sorted|);
  }

  lemma MidwayFits(d: Disk, e: Disk, sorted: seq<Run>, i: nat, retained: set<Run>, archivedAt: Run -> real, clock: nat -> real,
                   policy: Policy, pins: map<string, Pin>, pending: bool, apply: bool)
    requires i <= |sorted| && Midway(d, e, sorted, i, retained, archivedAt, clock, policy, pins, pending, apply)
    ensures Charge(e, retained) + StateBytes(pins) <= policy.budget && GoneOn(d, sorted, i, retained, pins, pending, apply)
    ensures Placed(d, e, sorted, i, retained, archivedAt, clock, policy, pins, apply)
  {
  }

  lemma AllGoneOn(d: Disk, sorted: seq<Run>, retained: set<Run>, pins: map<string, Pin>, pending: bool, apply: bool)
    requires GoneOn(d, sorted, |sorted|, retained, pins, pending, apply)
    ensures apply ==> !AnyStuck(d, sorted)
  {
    assert sorted[..|sorted|] == sorted;
  }

  /** What the answer of a pass means. It is over budget exactly when the pins and the newest record do not fit. When
      they do, a leftover directory that is not named in the index, or is of a pinned run, ends the pass. Otherwise
      a dry run is done; an applied pass fails at a stuck report, else because of the registry, else it is done. An
      index that cannot be replaced ends it earlier when some record has to go, or at the end when there is room
      for an index at all. */
  ghost predicate Explained(v: Verdict, d: Disk, e: Disk, now: IndexFile, rows: seq<ExpiredRow>, retiring: set<Run>, sorted: seq<Run>,
                            archivedAt: Run -> real, clock: nat -> real, policy: Policy, pins: map<string, Pin>,
                            pending: bool, registry: bool, apply: bool)
  {
    var resumable, stuck := Resumable(retiring, rows, Runs(pins)), AnyStuck(d, sorted);
    (v == OverBudget <==> Reserved(d, pins, Newest(sorted)) > policy.budget) &&
    (v != OverBudget && !resumable ==>
      (v == Failed(Unregistered) && exists r :: r in retiring && !Named(rows, r)) ||
      (v == Failed(PinnedRetiring) && exists r :: r in retiring && r in Runs(pins))) &&
    (v != OverBudget && resumable && !apply ==> v.Done?) &&
    (v != OverBudget && resumable && apply && !pending ==>
      if stuck then v == Failed(Unfinished) else if !registry then v == Failed(RegistryBusy) else v.Done?) &&
    (v != OverBudget && resumable && apply && pending ==> Hindered(v, e, now, stuck, sorted, archivedAt, clock, policy, pins, registry))
  }

  ghost predicate Hindered(v: Verdict, e: Disk, now: IndexFile, stuck: bool, sorted: seq<Run>, archivedAt: Run -> real, clock: nat -> real,
                           policy: Policy, pins: map<string, Pin>, registry: bool)
  {
    var all := Runs(pins) + Seen(sorted, |sorted|);
    match v
    case Done(retained) =>
      !stuck && registry && retained == all && now == NoFile && policy.budget - Charge(e, all) - StateBytes(pins) < 2
    case Failed(Unfinished) => stuck
    case Failed(RegistryBusy) => !stuck && !registry
    case Failed(PendingWrite) =>
      AnyGoes(e, sorted, archivedAt, clock, policy, pins) ||
      (!stuck && registry && policy.budget - Charge(e, all) - StateBytes(pins) >= 2)
    case _ => false
  }

  /** A pass that ended before it came to a record. */
  lemma StartExplains(v: Verdict, d: Disk, now: IndexFile, rows: seq<ExpiredRow>, retiring: set<Run>, sorted: seq<Run>, archivedAt: Run -> real,
                      clock: nat -> real, policy: Policy, pins: map<string, Pin>, pending: bool, registry: bool, apply: bool)
    requires if Reserved(d, pins, Newest(sorted)) > policy.budget then v == OverBudget
      else (!Resumable(retiring, rows, Runs(pins)) &&
        ((v == Failed(Unregistered) && exists r :: r in retiring && !Named(rows, r)) ||
         (v == Failed(PinnedRetiring) && exists r :: r in retiring && r in Runs(pins))))
    ensures Explained(v, d, d, now, rows, retiring, sorted, archivedAt, clock, policy, pins, pending, registry, apply)
  {
  }

  /** A pass that was stopped by a record. */
  lemma EachExplains(d: Disk, e: Disk, now: IndexFile, rows: seq<ExpiredRow>, left: set<Run>, retiring: set<Run>,
                     sorted: seq<Run>, archivedAt: Run -> real, clock: nat -> real, policy: Policy, pins: map<string, Pin>,
                     fault: Fault, pending: bool, registry: bool, apply: bool)
    requires EachFails(d, e, sorted, archivedAt, clock, policy, pins, Some(fault), pending, left, apply) && (apply ==> left == {})
    requires Reserved(d, pins, Newest(sorted)) <= policy.budget && Resumable(retiring, rows, Runs(pins))
    ensures Explained(Failed(fault), d, e, now, rows, retiring, sorted, archivedAt, clock, policy, pins, pending, registry, apply)
  {
  }

  /** A pass that went on to the registry and the index. */
  lemma EndExplains(v: Verdict, d: Disk, e: Disk, now: IndexFile, rows: seq<ExpiredRow>, retiring: set<Run>,
                    sorted: seq<Run>, archivedAt: Run -> real, clock: nat -> real, policy: Policy, pins: map<string, Pin>,
                    retained: set<Run>, pending: bool, registry: bool, apply: bool)
    requires GoneOn(d, sorted, |sorted|, retained, pins, pending, apply)
    requires Reserved(d, pins, Newest(sorted)) <= policy.budget && Resumable(retiring, rows, Runs(pins))
    requires if apply && !registry then v == Failed(RegistryBusy)
      else if apply && pending && policy.budget - Charge(e, retained) - StateBytes(pins) >= 2 then v == Failed(PendingWrite)
      else v == Done(retained) && (apply && pending ==> now == NoFile)
    ensures Explained(v, d, e, now, rows, retiring, sorted, archivedAt, clock, policy, pins, pending, registry, apply)
  {
    AllGoneOn(d, sorted, retained, pins, pending, apply);
  }

  /** Where a pass that was done has left the records and the index. */
  ghost predicate Finished(d: Disk, e: Disk, now: IndexFile, rows: seq<ExpiredRow>, sorted: seq<Run>, retained: set<Run>,
                           archivedAt: Run -> real, text: Run -> nat, clock: nat -> real, policy: Policy, pins: map<string, Pin>,
                           apply: bool)
  {
    Placed(d, e, sorted, |sorted|, retained, archivedAt, clock, policy, pins, apply) &&
    (apply ==>
      Charge(e, retained) + StateBytes(pins) + IndexBytes(now) <= policy.budget &&
      IndexEnds(now, RowsAfter(rows, sorted, |sorted|, retained, clock, text), clock(2 * |sorted|) - policy.hours as real * 3600.0,
                policy.budget - Charge(e, retained) - StateBytes(pins)))
  }

  predicate Listed(d: Disk, sorted: seq<Run>, listed: Run -> seq<Path>) {
    forall r :: r in sorted ==> r in d.runs && Listing(listed(r), d.runs[r])
  }

  class Records {
    var disk: Disk
    var index: IndexFile
    /** Runs renamed away whose directory still exists. */
    var retiring: set<Run>
    /** A half-written replacement of the index is in the way of every later one. */
    var pendingWrite: bool

    constructor (disk: Disk, index: IndexFile, retiring: set<Run>, pendingWrite: bool)
      ensures this.disk == disk && this.index == index && this.retiring == retiring && this.pendingWrite == pendingWrite
    {
      this.disk, this.index, this.retiring, this.pendingWrite := disk, index, retiring, pendingWrite;
    }

    /** A later report of equal bytes and mode becomes a link to the first one. A leftover temporary
        link is finished when it is a link to that first report and is a fault otherwise. */
    method DeduplicateFile(run: Run, ghost visited: seq<Path>, path: Path, seen: map<File, Path>, apply: bool)
      returns (after: map<File, Path>, fault: Option<Fault>)
      requires Backed(disk) && path in Tree(disk, run) && Report(path) && Temporary(path) !in visited && Temporary(path) != path
      requires Recorded(disk, run, visited, seen, apply) && (apply ==> ComesAfter(Tree(disk, run), visited, path))
      modifies this`disk
      ensures Backed(disk) && Tidied(old(disk), disk, run)
      ensures !apply || fault != None ==> disk == old(disk)
      ensures fault == None ==> Recorded(disk, run, visited + [path], after, apply)
      ensures fault != None <==> apply && Blocked(old(disk).content, old(disk).runs[run], path)
      ensures fault != None ==> fault == Some(Unfinished)
      ensures apply && fault == None ==> Walked(old(disk).content, old(disk).runs[run], disk.runs[run], path)
    {
      var file := disk.content[disk.runs[run][path]];
      after := if file in seen then seen else seen[file := path];
      var prior := disk.runs[run][after[file]];
      fault := None;
      assert file in seen ==> SeenAt(disk, run, visited, seen[file], file);
      if apply { StandsAt(disk, run, visited, seen, path, prior); }
      if disk.runs[run][path] == prior || !apply {
        SameTreeKeepsFiles(disk, disk, run);
        FirstIsRecorded(disk, run, visited, path, seen, apply);
      } else {
        if InTheWay(disk.runs[run], path, prior) {
          SameTreeKeepsFiles(disk, disk, run);
          return after, Some(Unfinished);
        }
        RelinkGoesOn(disk, run, visited, path, seen, prior);
        disk := Relinked(disk, run, path, prior);
      }
    }

    /** One path of the listing, which an earlier rename may have taken away. */
    method WalkOn(ghost d: Disk, run: Run, order: seq<Path>, i: nat, seen: map<File, Path>, apply: bool)
      returns (after: map<File, Path>, fault: Option<Fault>)
      requires run in d.runs && Listing(order, d.runs[run]) && i < |order| && Walking(d, disk, run, order[..i], seen, apply)
      modifies this`disk
      ensures fault == None ==> Walking(d, disk, run, order[..i + 1], after, apply)
      ensures fault != None ==> apply && disk == old(disk) && Decided(d.content, d.runs[run], disk.runs[run])
      ensures fault != None ==> order[i] in d.runs[run] && Blocked(d.content, d.runs[run], order[i]) && fault == Some(Unfinished)
    {
      var path := order[i];
      assert order[..i + 1] == order[..i] + [path];
      if path in disk.runs[run] {
        ListingIsDistinct(order, d.runs[run], i);
        ListingComesAfter(order, d.runs[run], disk.runs[run], i);
        ghost var before := disk;
        after, fault := DeduplicateFile(run, order[..i], path, seen, apply);
        if fault == None {
          WalkGoesOn(d, before, disk, run, order[..i], seen, path, after, apply);
        } else {
          VisitedAreLinked(disk, run, order[..i], seen, path);
          BlockedEnds(d.content, d.runs[run], disk.runs[run], path);
        }
      } else {
        WalkPassesOver(d, disk, run, order[..i], seen, path, apply);
        after, fault := seen, None;
      }
    }

    /** The walk over all reports: without a fault equal reports are one inode, and with or without one
        exactly the leftover links that were due are consumed. */
    method Deduplicate(run: Run, order: seq<Path>, apply: bool) returns (fault: Option<Fault>)
      requires Backed(disk) && run in disk.runs && Listing(order, disk.runs[run])
      modifies this`disk
      ensures Backed(disk) && Tidied(old(disk), disk, run)
      ensures !apply ==> disk == old(disk)
      ensures fault != None <==> apply && exists x :: x in old(disk).runs[run] && Report(x) && Blocked(old(disk).content, old(disk).runs[run], x)
      ensures fault != None ==> fault == Some(Unfinished)
      ensures apply && fault == None ==> Deduplicated(disk, run)
      ensures apply ==> Decided(old(disk).content, old(disk).runs[run], disk.runs[run])
    {
      var seen: map<File, Path> := map[];
      WalkBegins(disk, run, apply);
      for i := 0 to |order|
        invariant Walking(old(disk), disk, run, order[..i], seen, apply)
      {
        seen, fault := WalkOn(old(disk), run, order, i, seen, apply);
        if fault != None { return; }
      }
      assert order[..|order|] == order;
      RecordedAll(old(disk), disk, run, order, seen, apply);
      if apply {
        AllAreLinked(disk, run, order, seen);
        LinkedEnds(old(disk).content, old(disk).runs[run], disk.runs[run]);
      }
      fault := None;
    }

    method ResumeDeletions(records: seq<ExpiredRow>, pinned: set<Run>, apply: bool) returns (fault: Option<Fault>)
      modifies this`retiring
      ensures fault == None <==> forall r :: r in old(retiring) ==> Named(records, r) && r !in pinned
      ensures !apply ==> retiring == old(retiring)
      ensures retiring <= old(retiring) && forall r :: r in old(retiring) - retiring ==> apply && Named(records, r) && r !in pinned
      ensures fault == None ==> retiring == if apply then {} else old(retiring)
      ensures fault == Some(Unregistered) ==> exists r :: r in old(retiring) && !Named(records, r)
      ensures fault == Some(PinnedRetiring) ==> exists r :: r in old(retiring) && r in pinned
      ensures fault in {None, Some(Unregistered), Some(PinnedRetiring)}
    {
      var left := retiring;
      while left != {}
        invariant left <= retiring <= old(retiring)
        invariant retiring == if apply then left else old(retiring)
        invariant forall r :: r in old(retiring) - left ==> Named(records, r) && r !in pinned
        decreases left
      {
        var run :| run in left;
        if !Named(records, run) { return Some(Unregistered); }
        if run in pinned { return Some(PinnedRetiring); }
        left := left - {run};
        if apply { retiring := retiring - {run}; }
      }
      fault := None;
    }

    /** The expiry row is on disk before the run is renamed away. */
    method Retire(run: Run, row: ExpiredRow, records: seq<ExpiredRow>, pinned: set<Run>, apply: bool)
      returns (after: seq<ExpiredRow>, fault: Option<Fault>)
      modifies this`disk, this`index
      ensures fault == Some(PinnedRetiring) <==> run in pinned
      ensures fault == Some(Collision) <==> run !in pinned && apply && run in retiring
      ensures fault == Some(PendingWrite) <==> run !in pinned && apply && run !in retiring && pendingWrite
      ensures fault in {None, Some(PinnedRetiring), Some(Collision), Some(PendingWrite)}
      ensures fault != None || !apply ==> disk == old(disk) && index == old(index) && after == records
      ensures fault == None && apply ==> after == Others(records, run) + [row] && index == Rows(after) && disk == Without(old(disk), run)
    {
      if run in pinned { return records, Some(PinnedRetiring); }
      after := records;
      if apply {
        if run in retiring { return records, Some(Collision); }
        if pendingWrite { return records, Some(PendingWrite); }
        after := Others(records, run) + [row];
        index := Rows(after);
        disk := Without(disk, run);
      }
      fault := None;
    }

    /** The newest rows of the window that fit; a row of the window is left out only when it does not
        fit beside those kept. */
    method TrimIndex(records: seq<ExpiredRow>, cutoff: real, budget: nat, apply: bool) returns (fault: Option<Fault>)
      modifies this`index
      ensures fault != None <==> apply && budget >= 2 && pendingWrite
      ensures fault != None ==> fault == Some(PendingWrite)
      ensures !apply || fault != None ==> index == old(index)
      ensures apply && fault == None ==> IndexBytes(index) <= budget
      ensures apply && budget < 2 ==> index == NoFile
      ensures apply && fault == None && budget >= 2 ==> index.Rows? && Trimmed(index.rows, records, cutoff, budget)
    {
      fault := None;
      var kept := KeepRows(records, cutoff, budget);
      if apply {
        if budget < 2 { index := NoFile; return; }
        if pendingWrite { return Some(PendingWrite); }
        index := Rows(kept);
      }
    }

    method TidyReports(run: Run, order: seq<Path>, pinned: set<Run>, apply: bool) returns (fault: Option<Fault>)
      requires Backed(disk) && run in disk.runs && Listing(order, disk.runs[run])
      modifies this`disk
      ensures Backed(disk) && run in disk.runs && Spared(old(disk), disk, pinned) && OnlyTouches(old(disk), disk, run)
      ensures !apply ==> disk == old(disk)
      ensures fault == if apply && Stuck(old(disk), run) then Some(Unfinished) else None
    {
      fault := Deduplicate(run, order, apply);
      TidiedSpares(old(disk), disk, run, pinned);
      TidiedTouches(old(disk), disk, run);
    }

    method Expire(run: Run, row: ExpiredRow, records: seq<ExpiredRow>, pinned: set<Run>, apply: bool)
      returns (after: seq<ExpiredRow>, fault: Option<Fault>)
      requires Backed(disk) && run !in pinned
      modifies this`disk, this`index
      ensures Backed(disk) && Spared(old(disk), disk, pinned) && OnlyTouches(old(disk), disk, run)
      ensures !apply ==> disk == old(disk) && index == old(index) && fault == None
      ensures apply && fault == None ==> run !in disk.runs && after == Others(records, run) + [row]
      ensures fault == Some(Collision) <==> apply && run in retiring
      ensures fault == Some(PendingWrite) <==> apply && run !in retiring && pendingWrite
      ensures fault in {None, Some(Collision), Some(PendingWrite)} && (fault != None ==> disk == old(disk))
    {
      WithoutSpares(disk, run, pinned);
      NothingSpares(disk, pinned);
      after, fault := Retire(run, row, records, pinned, apply);
    }

    /** One completed record, the i-th newest: kept, or named in the index and deleted. */
    method MaintainOne(i: nat, run: Run, order: seq<Path>, age: real, row: ExpiredRow, retained: set<Run>, records: seq<ExpiredRow>,
                       policy: Policy, pins: map<string, Pin>, encoded: nat, apply: bool)
      returns (kept: set<Run>, after: seq<ExpiredRow>, fault: Option<Fault>)
      requires Backed(disk) && run in disk.runs && Listing(order, disk.runs[run]) && Runs(pins) <= retained && encoded == StateBytes(pins)
      requires run in retained ==> run in Runs(pins)
      modifies this`disk, this`index
      ensures Backed(disk)
      ensures !apply ==> disk == old(disk) && index == old(index)
      ensures Passed(old(disk), disk, i, run, age, retained, kept, policy, pins, fault == None, apply)
      ensures run in kept && run !in retained ==> i < policy.keep && age < policy.hours as real * 3600.0
      ensures fault == None && run !in kept ==>
        i >= policy.keep || age >= policy.hours as real * 3600.0 || (i > 0 && !Fits(old(disk), retained + {run}, policy, pins))
      ensures fault == None && apply ==> after == if run in kept then records else Others(records, run) + [row]
      ensures OneEnds(old(disk), disk, i, run, age, retained, kept, policy, pins, fault, pendingWrite, retiring, apply)
    {
      var pinned := Runs(pins);
      kept, after := retained, records;
      fault := TidyReports(run, order, pinned, apply);
      if fault != None || run in pinned { return; }
      var charged := MeasureCharge(disk, retained + {run});
      ShrunkChargesNoMore(old(disk), disk, retained + {run});
      if Young(policy, i, age) && (i == 0 || charged + encoded <= policy.budget) {
        kept := retained + {run};
      } else {
        ghost var tidy := disk;
        after, fault := Expire(run, row, records, pinned, apply);
        SparedTransitive(old(disk), tidy, disk, pinned);
      }
    }

    /** The i-th record's turn within a pass that began on disk `d`. */
    method Turn(ghost d: Disk, ghost rows: seq<ExpiredRow>, sorted: seq<Run>, i: nat, archivedAt: Run -> real, listed: Run -> seq<Path>, text: Run -> nat,
                clock: nat -> real, retained: set<Run>, records: seq<ExpiredRow>, ghost trace: seq<seq<ExpiredRow>>, policy: Policy,
                pins: map<string, Pin>, encoded: nat, apply: bool)
      returns (kept: set<Run>, after: seq<ExpiredRow>, ghost longer: seq<seq<ExpiredRow>>, fault: Option<Fault>)
      requires i < |sorted| && Distinct(sorted) && encoded == StateBytes(pins) && Backed(disk)
      requires Listed(d, sorted, listed)
      requires Midway(d, disk, sorted, i, retained, archivedAt, clock, policy, pins, pendingWrite, apply)
      requires apply ==> Traced(trace, records, rows, sorted, i, retained, clock, text)
      modifies this`disk, this`index
      ensures Backed(disk) && Spared(d, disk, Runs(pins)) && Untouched(d, disk, sorted)
      ensures !apply ==> disk == old(disk) && index == old(index)
      ensures fault == None ==> Midway(d, disk, sorted, i + 1, kept, archivedAt, clock, policy, pins, pendingWrite, apply)
      ensures fault == None && apply ==> Traced(longer, after, rows, sorted, i + 1, kept, clock, text)
      ensures fault != None ==> EachFails(d, disk, sorted, archivedAt, clock, policy, pins, fault, pendingWrite, retiring, apply)
    {
      var run := sorted[i];
      ghost var before := disk;
      UntouchedSoFar(d, disk, sorted, i);
      NotYetKept(d, disk, sorted, i, retained, archivedAt, clock, policy, pins, apply);
      kept, after, fault := MaintainOne(i, run, listed(run), clock(2 * i) - archivedAt(run),
        ExpiredRow(run, clock(2 * i + 1), text(run)), retained, records, policy, pins, encoded, apply);
      TurnFollows(d, before, disk, sorted, i, retained, kept, archivedAt, clock, policy, pins, fault, pendingWrite, retiring, apply);
      GoneOnByOne(d, disk, sorted, i, retained, kept, archivedAt, clock, policy, pins, fault, pendingWrite, retiring, apply);
      KeptByOne(d, before, disk, sorted, i, Runs(pins));
      UntouchedAll(d, disk, sorted, i + 1);
      longer := trace + [after];
      if fault == None {
        PlacedByOne(d, before, disk, sorted, i, retained, kept, archivedAt, clock, policy, pins, apply);
        if apply { TracedByOne(trace, rows, sorted, i, retained, kept, clock, text, records, after); }
      }
    }

    /** The completed records one by one, newest first, after the pins and the newest were found to fit. */
    method MaintainEach(sorted: seq<Run>, archivedAt: Run -> real, listed: Run -> seq<Path>, text: Run -> nat, clock: nat -> real,
                        records: seq<ExpiredRow>, policy: Policy, pins: map<string, Pin>, encoded: nat, apply: bool)
      returns (retained: set<Run>, after: seq<ExpiredRow>, fault: Option<Fault>)
      requires Backed(disk) && Distinct(sorted) && encoded == StateBytes(pins)
      requires Listed(disk, sorted, listed)
      requires Reserved(disk, pins, Newest(sorted)) <= policy.budget
      modifies this`disk, this`index
      ensures Backed(disk) && Spared(old(disk), disk, Runs(pins)) && Untouched(old(disk), disk, sorted)
      ensures !apply ==> disk == old(disk) && index == old(index)
      ensures fault == None ==>
        Midway(old(disk), disk, sorted, |sorted|, retained, archivedAt, clock, policy, pins, pendingWrite, apply) &&
        (apply ==> after == RowsAfter(records, sorted, |sorted|, retained, clock, text))
      ensures fault != None ==> EachFails(old(disk), disk, sorted, archivedAt, clock, policy, pins, fault, pendingWrite, retiring, apply)
    {
      retained, after := Runs(pins), records;
      MidwayBegins(disk, sorted, archivedAt, clock, policy, pins, pendingWrite, apply);
      ghost var trace := [records];
      for i := 0 to |sorted|
        invariant Backed(disk) && Midway(old(disk), disk, sorted, i, retained, archivedAt, clock, policy, pins, pendingWrite, apply)
        invariant !apply ==> disk == old(disk) && index == old(index)
        invariant apply ==> Traced(trace, after, records, sorted, i, retained, clock, text)
      {
        retained, after, trace, fault := Turn(old(disk), records, sorted, i, archivedAt, listed, text, clock, retained, after, trace, policy, pins,
                                              encoded, apply);
        if fault != None { return; }
      }
      if apply { TracedRows(trace, records, sorted, |sorted|, retained, clock, text); }
      MidwayEnds(old(disk), disk, sorted, retained, archivedAt, clock, policy, pins, pendingWrite, apply);
      fault := None;
    }

    /** After the records of a pass that began on disk `d`: the capture registry, then the index. */
    method EndPass(ghost d: Disk, ghost rows: seq<ExpiredRow>, ghost leftovers: set<Run>, sorted: seq<Run>, ghost archivedAt: Run -> real,
                   ghost text: Run -> nat, clock: nat -> real, retained: set<Run>, records: seq<ExpiredRow>, policy: Policy,
                   pins: map<string, Pin>, encoded: nat, registry: bool, apply: bool)
      returns (v: Verdict)
      requires Backed(disk) && encoded == StateBytes(pins) && (apply ==> records == RowsAfter(rows, sorted, |sorted|, retained, clock, text))
      requires Midway(d, disk, sorted, |sorted|, retained, archivedAt, clock, policy, pins, pendingWrite, apply)
      requires Reserved(d, pins, Newest(sorted)) <= policy.budget && Resumable(leftovers, rows, Runs(pins))
      modifies this`index
      ensures !apply ==> index == old(index)
      ensures v.Done? ==> Finished(d, disk, index, rows, sorted, v.retained, archivedAt, text, clock, policy, pins, apply)
      ensures Explained(v, d, disk, index, rows, leftovers, sorted, archivedAt, clock, policy, pins, pendingWrite, registry, apply)
    {
      MidwayFits(d, disk, sorted, |sorted|, retained, archivedAt, clock, policy, pins, pendingWrite, apply);
      v := Failed(RegistryBusy);
      if !apply || registry {
        var charged := MeasureCharge(disk, retained);
        var cutoff := clock(2 * |sorted|) - policy.hours as real * 3600.0;
        var fault := TrimIndex(records, cutoff, policy.budget - charged - encoded, apply);
        v := if fault != None then Failed(fault.value) else Done(retained);
      }
      EndExplains(v, d, disk, index, rows, leftovers, sorted, archivedAt, clock, policy, pins, retained, pendingWrite, registry, apply);
    }

    /** What follows once the pins and the newest record fit and no leftover directory is in the way. */
    method KeepRecords(ghost leftovers: set<Run>, sorted: seq<Run>, archivedAt: Run -> real, listed: Run -> seq<Path>, text: Run -> nat,
                       clock: nat -> real, rows: seq<ExpiredRow>, policy: Policy, pins: map<string, Pin>, encoded: nat, registry: bool,
                       apply: bool)
      returns (v: Verdict)
      requires Backed(disk) && Distinct(sorted) && encoded == StateBytes(pins)
      requires Listed(disk, sorted, listed)
      requires Reserved(disk, pins, Newest(sorted)) <= policy.budget && Resumable(leftovers, rows, Runs(pins)) && (apply ==> retiring == {})
      modifies this`disk, this`index
      ensures Spared(old(disk), disk, Runs(pins)) && Untouched(old(disk), disk, sorted)
      ensures !apply ==> disk == old(disk) && index == old(index)
      ensures v.Done? ==> Finished(old(disk), disk, index, rows, sorted, v.retained, archivedAt, text, clock, policy, pins, apply)
      ensures Explained(v, old(disk), disk, index, rows, leftovers, sorted, archivedAt, clock, policy, pins, pendingWrite, registry, apply)
    {
      var retained, records, fault := MaintainEach(sorted, archivedAt, listed, text, clock, rows, policy, pins, encoded, apply);
      if fault != None {
        EachExplains(old(disk), disk, index, rows, retiring, leftovers, sorted, archivedAt, clock, policy, pins, fault.value, pendingWrite,
                     registry, apply);
        return Failed(fault.value);
      }
      v := EndPass(old(disk), rows, leftovers, sorted, archivedAt, text, clock, retained, records, policy, pins, encoded, registry, apply);
    }

    /** The pass over the sorted records. */
    method MaintainSorted(sorted: seq<Run>, archivedAt: Run -> real, listed: Run -> seq<Path>, text: Run -> nat, clock: nat -> real,
                          policy: Policy, pins: map<string, Pin>, encoded: nat, registry: bool, apply: bool)
      returns (v: Verdict)
      requires Backed(disk) && Distinct(sorted) && encoded == StateBytes(pins)
      requires Listed(disk, sorted, listed)
      modifies this`disk, this`index, this`retiring
      ensures Spared(old(disk), disk, Runs(pins)) && Untouched(old(disk), disk, sorted)
      ensures !apply || v == OverBudget ==> disk == old(disk) && index == old(index) && retiring == old(retiring)
      ensures v.Done? ==>
        Finished(old(disk), disk, index, RowsOf(old(index)), sorted, v.retained, archivedAt, text, clock, policy, pins, apply)
      ensures v.Done? && apply ==> retiring == {}
      ensures Explained(v, old(disk), disk, index, RowsOf(old(index)), old(retiring), sorted, archivedAt, clock, policy, pins, pendingWrite,
                        registry, apply)
    {
      var records := RowsOf(index);
      NothingSpares(disk, Runs(pins));
      var needed := MeasureCharge(disk, Runs(pins) + Newest(sorted));
      if needed + encoded > policy.budget {
        StartExplains(OverBudget, disk, index, records, retiring, sorted, archivedAt, clock, policy, pins, pendingWrite, registry, apply);
        return OverBudget;
      }
      var fault := ResumeDeletions(records, Runs(pins), apply);
      if fault != None {
        StartExplains(Failed(fault.value), disk, index, records, old(retiring), sorted, archivedAt, clock, policy, pins, pendingWrite, registry, apply);
        return Failed(fault.value);
      }
      v := KeepRecords(old(retiring), sorted, archivedAt, listed, text, clock, records, policy, pins, encoded, registry, apply);
    }

    /** The pass. `clock(k)` is its k-th reading of the time; `registry` says whether the capture
        registry could be rewritten; `encoded` is the length the JSON encoder reports, charged twice. */
    method Maintain(candidates: seq<Run>, archivedAt: Run -> real, listed: Run -> seq<Path>, text: Run -> nat, clock: nat -> real,
                    policy: Policy, pins: map<string, Pin>, encoded: nat, registry: bool, apply: bool)
      returns (v: Verdict)
      requires Backed(disk) && Distinct(candidates) && encoded == StateBytes(pins)
      requires forall r :: r in candidates ==> r in disk.runs && Listing(listed(r), disk.runs[r])
      modifies this`disk, this`index, this`retiring
      ensures Spared(old(disk), disk, Runs(pins)) && Untouched(old(disk), disk, candidates)
      ensures !apply || v == OverBudget ==> disk == old(disk) && index == old(index) && retiring == old(retiring)
      ensures v.Done? ==>
        var sorted := SortNewest(candidates, archivedAt);
        Placed(old(disk), disk, sorted, |sorted|, v.retained, archivedAt, clock, policy, pins, apply) &&
        ByPolicy(old(disk), sorted, v.retained, archivedAt, clock, policy, pins)
      ensures v.Done? && apply ==>
        var sorted := SortNewest(candidates, archivedAt);
        IndexEnds(index, RowsAfter(RowsOf(old(index)), sorted, |sorted|, v.retained, clock, text),
                  clock(2 * |sorted|) - policy.hours as real * 3600.0, policy.budget - Charge(disk, v.retained) - StateBytes(pins))
      ensures v.Done? && apply ==> Charge(disk, v.retained) + StateBytes(pins) + IndexBytes(index) <= policy.budget
      ensures v.Done? && apply ==> retiring == {} && forall r :: r in candidates && r in disk.runs ==> r in v.retained
      ensures Explained(v, old(disk), disk, index, RowsOf(old(index)), old(retiring), SortNewest(candidates, archivedAt), archivedAt, clock,
                        policy, pins, pendingWrite, registry, apply)
    {
      var sorted := SortNewest(candidates, archivedAt);
      SortSorts(candidates, archivedAt);
      forall r ensures r in sorted <==> r in candidates { SortElements(candidates, archivedAt, r); }
      v := MaintainSorted(sorted, archivedAt, listed, text, clock, policy, pins, encoded, registry, apply);
      if v.Done? { PlacedByPolicy(old(disk), disk, sorted, v.retained, archivedAt, clock, policy, pins, apply); }
    }
  }

  /** A record is kept when pinned, or when within count and age; one that is not pinned goes only outside of them or,
      when it is not the newest, because it does not fit beside those kept. */
  ghost predicate ByPolicy(d: Disk, sorted: seq<Run>, retained: set<Run>, archivedAt: Run -> real, clock: nat -> real, policy: Policy,
                           pins: map<string, Pin>)
  {
    forall i :: 0 <= i < |sorted| ==>
      var young := i < policy.keep && clock(2 * i) - archivedAt(sorted[i]) < policy.hours as real * 3600.0;
      if sorted[i] in retained then sorted[i] in Runs(pins) || young
      else !young || (i > 0 && Charge(d, retained + {sorted[i]}) + StateBytes(pins) > policy.budget)
  }

  lemma PlacedByPolicy(d: Disk, e: Disk, sorted: seq<Run>, retained: set<Run>, archivedAt: Run -> real, clock: nat -> real, policy: Policy,
                       pins: map<string, Pin>, apply: bool)
    requires Placed(d, e, sorted, |sorted|, retained, archivedAt, clock, policy, pins, apply)
    ensures ByPolicy(d, sorted, retained, archivedAt, clock, policy, pins)
    ensures apply ==> forall r :: r in sorted && r in e.runs ==> r in retained
  {
    forall i | 0 <= i < |sorted|
      ensures var young := i < policy.keep && clock(2 * i) - archivedAt(sorted[i]) < policy.hours as real * 3600.0;
        if sorted[i] in retained then sorted[i] in Runs(pins) || young
        else !young || (i > 0 && Charge(d, retained + {sorted[i]}) + StateBytes(pins) > policy.budget)
    {
      assert JudgedAt(d, sorted, i, retained, archivedAt, clock, policy, pins);
    }
    assert sorted[..|sorted|] == sorted;
  }

  const ExpiredAt: ExpiredRow -> real := (row: ExpiredRow) => row.expiredAt

  /** A sublist of the rows of the window, newest first, within the budget, to which no other of them can be added. */
  predicate Trimmed(kept: seq<ExpiredRow>, records: seq<ExpiredRow>, cutoff: real, budget: nat) {
    (kept == [] || ListWidth(kept) <= budget) && NewestFirst(kept, ExpiredAt) && FromWindow(kept, records, cutoff) &&
    Maximal(kept, records, cutoff, budget)
  }

  predicate FromWindow(kept: seq<ExpiredRow>, records: seq<ExpiredRow>, cutoff: real) {
    forall row :: row in kept ==> row in records && row.expiredAt >= cutoff
  }

  predicate Maximal(kept: seq<ExpiredRow>, records: seq<ExpiredRow>, cutoff: real, budget: nat) {
    forall row :: row in records && row.expiredAt >= cutoff ==> Settled(kept, row, budget)
  }

  predicate Settled(kept: seq<ExpiredRow>, row: ExpiredRow, budget: nat) { row in kept || ListWidth(kept + [row]) > budget }

  lemma WidthOfOneMore(rows: seq<ExpiredRow>, row: ExpiredRow)
    ensures ListWidth(rows + [row]) == TextOf(rows) + row.text + 2 * |rows| + 2
    ensures TextOf(rows + [row]) == TextOf(rows) + row.text
  {
    assert (rows + [row])[..|rows|] == rows;
  }

  lemma SettledStays(kept: seq<ExpiredRow>, next: ExpiredRow, row: ExpiredRow, budget: nat)
    requires Settled(kept, row, budget)
    ensures Settled(kept + [next], row, budget)
  {
    if row !in kept {
      WidthOfOneMore(kept, row);
      WidthOfOneMore(kept, next);
      WidthOfOneMore(kept + [next], row);
    }
  }

  lemma OrderedByOne(kept: seq<ExpiredRow>, sorted: seq<ExpiredRow>, i: nat)
    requires i < |sorted| && NewestFirst(sorted, ExpiredAt) && NewestFirst(kept, ExpiredAt)
    requires forall row :: row in kept ==> row in sorted[..i]
    ensures NewestFirst(kept + [sorted[i]], ExpiredAt)
  {
    forall k | 0 <= k < |kept| ensures ExpiredAt(kept[k]) >= ExpiredAt(sorted[i]) {
      assert kept[k] in sorted[..i];
      var j :| 0 <= j < i && sorted[j] == kept[k];
    }
  }

  lemma MaximalByOne(kept: seq<ExpiredRow>, records: seq<ExpiredRow>, next: ExpiredRow, cutoff: real, budget: nat)
    requires Maximal(kept, records, cutoff, budget)
    ensures Maximal(kept + [next], records + [next], cutoff, budget)
  {
    forall row | row in records + [next] && row.expiredAt >= cutoff ensures Settled(kept + [next], row, budget) {
      if row in records { SettledStays(kept, next, row, budget); }
    }
  }

  lemma TrimmedByOne(kept: seq<ExpiredRow>, sorted: seq<ExpiredRow>, i: nat, cutoff: real, budget: nat)
    requires i < |sorted| && NewestFirst(sorted, ExpiredAt) && Trimmed(kept, sorted[..i], cutoff, budget)
    ensures var row := sorted[i];
      Trimmed(if row.expiredAt >= cutoff && ListWidth(kept + [row]) <= budget then kept + [row] else kept, sorted[..i + 1], cutoff, budget)
  {
    var row := sorted[i];
    assert sorted[..i + 1] == sorted[..i] + [row];
    if row.expiredAt >= cutoff && ListWidth(kept + [row]) <= budget {
      OrderedByOne(kept, sorted, i);
      MaximalByOne(kept, sorted[..i], row, cutoff, budget);
    } else {
      forall other | other in sorted[..i + 1] && other.expiredAt >= cutoff ensures Settled(kept, other, budget) {
        assert other in sorted[..i] || other == row;
      }
    }
  }

  method KeepRows(records: seq<ExpiredRow>, cutoff: real, budget: nat) returns (kept: seq<ExpiredRow>)
    ensures Trimmed(kept, records, cutoff, budget)
  {
    var sorted := SortNewest(records, ExpiredAt);
    SortSorts(records, ExpiredAt);
    kept := [];
    for i := 0 to |sorted|
      invariant Trimmed(kept, sorted[..i], cutoff, budget)
    {
      TrimmedByOne(kept, sorted, i, cutoff, budget);
      if sorted[i].expiredAt >= cutoff && ListWidth(kept + [sorted[i]]) <= budget { kept := kept + [sorted[i]]; }
    }
    assert sorted[..|sorted|] == sorted;
    forall row ensures row in sorted <==> row in records { SortElements(records, ExpiredAt, row); }
  }
}
