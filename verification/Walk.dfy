/** The steps of the deduplication walk over one run's reports, each possibly the last before a crash, and
    which temporary link they consume (tools/quality-host/bounded_records.py: deduplicate_file). */
module Walk {
  import opened EvidencePins
  import opened Reports

  /** The walk has come to x, which is to become a link to the first report of its content. */
  ghost predicate Arrived(content: Content, tree: Names, x: Path) {
    x in tree && Report(x) && !Linked(content, tree, x) && !Directory(tree, Temporary(x)) &&
    forall y :: y in tree && Report(y) && PathBefore(y, x) ==> Linked(content, tree, y)
  }

  ghost function AfterLink(content: Content, tree: Names, x: Path): Names
    requires x in tree && Report(x)
  {
    tree[Temporary(x) := tree[First(content, tree, x)]]
  }

  ghost function AfterRename(content: Content, tree: Names, x: Path): Names
    requires x in tree && Report(x)
  {
    (tree - {Temporary(x)})[x := tree[First(content, tree, x)]]
  }

  /** os.link: there is no temporary link yet. */
  ghost predicate CanLink(content: Content, tree: Names, x: Path) { Arrived(content, tree, x) && Temporary(x) !in tree }

  /** rename: the temporary link is a link to the first report. */
  ghost predicate CanRename(content: Content, tree: Names, x: Path) {
    Arrived(content, tree, x) && Temporary(x) in tree && tree[Temporary(x)] == tree[First(content, tree, x)]
  }

  // ---------------------------------------------------------------- first reports stay what they are

  lemma FirstIsBefore(content: Content, tree: Names, x: Path)
    requires x in tree && Report(x) && !Linked(content, tree, x)
    ensures var f := First(content, tree, x);
      f != x && PathBefore(f, x) && PathBefore(f, Temporary(x)) && EqualContent(content, tree[f], tree[x])
  {
    var f := First(content, tree, x);
    assert x in Alike(content, tree, x);
    TemporaryComesAfter(x);
    PathsTransitive(f, x, Temporary(x));
  }

  lemma NotFirst(content: Content, tree: Names, p: Path, q: Path, f: Path)
    requires p in tree && Report(p) && q in tree && f in tree && Report(f) && PathBefore(f, q)
    requires q in Alike(content, tree, p) && f in Alike(content, tree, p)
    ensures First(content, tree, p) != q
  {
    PathsAreOrdered(f, q);
  }

  /** Neither x nor a temporary link beside it is the first of any content. */
  lemma ReplacedIsNotFirst(content: Content, tree: Names, x: Path, p: Path)
    requires x in tree && Report(x) && !Linked(content, tree, x) && p in tree && Report(p)
    ensures First(content, tree, p) != x
    ensures Temporary(x) in tree && tree[Temporary(x)] == tree[First(content, tree, x)] ==> First(content, tree, p) != Temporary(x)
  {
    var f, t := First(content, tree, x), Temporary(x);
    FirstIsBefore(content, tree, x);
    TemporaryIsNamed(x);
    if x in Alike(content, tree, p) { NotFirst(content, tree, p, x, f); }
    if t in tree && tree[t] == tree[f] && t in Alike(content, tree, p) { NotFirst(content, tree, p, t, f); }
  }

  /** Names of the same content keep their first report when others of it come or go, but not the first. */
  lemma SameFirst(content: Content, tree: Names, next: Names, p: Path, gone: set<Path>)
    requires p in tree && Report(p) && p in next && First(content, tree, p) !in gone && First(content, tree, p) in next
    requires forall q :: q in Alike(content, next, p) ==> q in Alike(content, tree, p) || PathBefore(First(content, tree, p), q)
    requires forall q :: q in Alike(content, tree, p) && q !in gone ==> q in Alike(content, next, p)
    ensures First(content, next, p) == First(content, tree, p)
  {
    LeastIsUnique(First(content, tree, p), First(content, next, p), Alike(content, next, p));
  }

  lemma LinkKeepsFirst(content: Content, tree: Names, x: Path, p: Path)
    requires CanLink(content, tree, x) && p in tree && Report(p)
    ensures var next := AfterLink(content, tree, x);
      First(content, next, p) == First(content, tree, p) && next[First(content, tree, p)] == tree[First(content, tree, p)]
  {
    var next, f, t := AfterLink(content, tree, x), First(content, tree, x), Temporary(x);
    FirstIsBefore(content, tree, x);
    var g := First(content, tree, p);
    forall q | q in Alike(content, next, p) ensures q in Alike(content, tree, p) || PathBefore(g, q) {
      if q == t && q != p {
        assert EqualContent(content, tree[f], tree[p]) && f in Alike(content, tree, p);
        if g != f { PathsTransitive(g, f, t); }
      }
    }
    SameFirst(content, tree, next, p, {});
  }

  /** The temporary link itself is linked. */
  lemma LinkIsLinked(content: Content, tree: Names, x: Path)
    requires x in tree && Report(x) && !Linked(content, tree, x)
    requires Temporary(x) in tree && tree[Temporary(x)] == tree[First(content, tree, x)]
    ensures Report(Temporary(x)) && Linked(content, tree, Temporary(x))
  {
    var f, t := First(content, tree, x), Temporary(x);
    FirstIsBefore(content, tree, x);
    TemporaryIsNamed(x);
    forall q | q in Alike(content, tree, t) && q != f ensures PathBefore(f, q) {
      if q != t { assert q in Alike(content, tree, x); }
    }
    LeastIsUnique(f, First(content, tree, t), Alike(content, tree, t));
  }

  lemma NewLinkIsLinked(content: Content, tree: Names, x: Path)
    requires CanLink(content, tree, x)
    ensures var next := AfterLink(content, tree, x); Report(Temporary(x)) && Linked(content, next, Temporary(x)) && !Linked(content, next, x)
  {
    TemporaryComesAfter(x);
    LinkKeepsFirst(content, tree, x, x);
    LinkIsLinked(content, AfterLink(content, tree, x), x);
  }

  lemma RenameKeepsFirst(content: Content, tree: Names, x: Path, p: Path)
    requires CanRename(content, tree, x) && p in tree && Report(p) && p != Temporary(x)
    ensures var next := AfterRename(content, tree, x);
      p in next && First(content, tree, p) in next &&
      First(content, next, p) == First(content, tree, p) && next[First(content, tree, p)] == tree[First(content, tree, p)]
  {
    var next := AfterRename(content, tree, x);
    FirstIsBefore(content, tree, x);
    ReplacedIsNotFirst(content, tree, x, p);
    SameFirst(content, tree, next, p, {Temporary(x)});
  }

  /** After a rename every other report is as linked as it was, and x is. */
  lemma RenameLinks(content: Content, tree: Names, x: Path, p: Path)
    requires CanRename(content, tree, x) && p in tree && Report(p) && p != Temporary(x)
    ensures var next := AfterRename(content, tree, x);
      p in next && (Linked(content, next, p) <==> p == x || Linked(content, tree, p))
  {
    RenameKeepsFirst(content, tree, x, p);
  }

  lemma LinkLinks(content: Content, tree: Names, x: Path, p: Path)
    requires CanLink(content, tree, x) && p in tree && Report(p)
    ensures var next := AfterLink(content, tree, x); Linked(content, next, p) <==> Linked(content, tree, p)
  {
    LinkKeepsFirst(content, tree, x, p);
  }

  // ---------------------------------------------------------------- what is in the way stays in the way

  /** A path below a temporary link is below a directory its report is in too. */
  lemma BelowSibling(p: Path, x: Path)
    requires Report(x) && p < Temporary(x)
    ensures p < x
  {
    assert p == Temporary(x)[..|p|] && x[..|x| - 1] == Temporary(x)[..|x| - 1];
    assert p == x[..|p|];
  }

  lemma LinkKeepsDirectories(content: Content, tree: Names, x: Path, p: Path)
    requires CanLink(content, tree, x)
    ensures Directory(AfterLink(content, tree, x), p) <==> Directory(tree, p)
  {
    var next := AfterLink(content, tree, x);
    if Directory(tree, p) {
      var q :| q in tree && p < q;
      assert q in next;
    }
    if Directory(next, p) {
      var q :| q in next && p < q;
      if q == Temporary(x) { BelowSibling(p, x); assert x in tree; }
    }
  }

  lemma RenameKeepsDirectories(content: Content, tree: Names, x: Path, p: Path)
    requires CanRename(content, tree, x)
    ensures Directory(AfterRename(content, tree, x), p) <==> Directory(tree, p)
  {
    var next := AfterRename(content, tree, x);
    if Directory(tree, p) {
      var q :| q in tree && p < q;
      if q == Temporary(x) { BelowSibling(p, x); assert x in next; } else { assert q in next; }
    }
  }

  lemma TemporariesDiffer(x: Path, y: Path)
    requires Report(x) && Report(y) && Temporary(x) == Temporary(y)
    ensures x == y
  {
    TemporaryIsNamed(x);
    TemporaryIsNamed(y);
  }

  lemma LinkKeepsBlocked(content: Content, tree: Names, x: Path, p: Path)
    requires CanLink(content, tree, x) && p in tree && Report(p)
    ensures Blocked(content, AfterLink(content, tree, x), p) <==> Blocked(content, tree, p)
  {
    LinkKeepsFirst(content, tree, x, p);
    LinkKeepsDirectories(content, tree, x, Temporary(p));
    if Temporary(p) == Temporary(x) { TemporariesDiffer(p, x); }
  }

  lemma RenameKeepsBlocked(content: Content, tree: Names, x: Path, p: Path)
    requires CanRename(content, tree, x) && p in tree && Report(p) && p != Temporary(x)
    ensures p in AfterRename(content, tree, x) && (Blocked(content, AfterRename(content, tree, x), p) <==> Blocked(content, tree, p))
  {
    RenameLinks(content, tree, x, p);
    RenameKeepsFirst(content, tree, x, p);
    RenameKeepsDirectories(content, tree, x, Temporary(p));
    if p != x {
      if Temporary(p) == Temporary(x) { TemporariesDiffer(p, x); }
      if Temporary(p) == x { TemporaryComesAfter(p); }
    }
  }

  lemma LinkKeepsPassable(content: Content, tree: Names, x: Path, b: Path)
    requires CanLink(content, tree, x)
    ensures Passable(content, AfterLink(content, tree, x), b) <==> Passable(content, tree, b)
  {
    var next := AfterLink(content, tree, x);
    forall y | y in tree && Report(y) ensures Blocked(content, next, y) <==> Blocked(content, tree, y) { LinkKeepsBlocked(content, tree, x, y); }
    NewLinkIsLinked(content, tree, x);
  }

  lemma RenameKeepsPassable(content: Content, tree: Names, x: Path, b: Path)
    requires CanRename(content, tree, x)
    ensures Passable(content, AfterRename(content, tree, x), b) <==> Passable(content, tree, b)
  {
    var next := AfterRename(content, tree, x);
    forall y | y in tree && Report(y) && y != Temporary(x)
      ensures y in next && (Blocked(content, next, y) <==> Blocked(content, tree, y))
    {
      RenameKeepsBlocked(content, tree, x, y);
    }
    LinkIsLinked(content, tree, x);
  }

  // ---------------------------------------------------------------- what one step of the walk consumes

  /** A new temporary link changes nothing about which links are consumed. */
  lemma LinkConsumesNothing(content: Content, tree: Names, x: Path, e: Path)
    requires CanLink(content, tree, x) && e in tree
    ensures WillConsume(content, AfterLink(content, tree, x), e) <==> WillConsume(content, tree, e)
  {
    var next := AfterLink(content, tree, x);
    NewLinkIsLinked(content, tree, x);
    if TemporaryName(e) && Base(e) in tree && Report(Base(e)) {
      LinkKeepsFirst(content, tree, x, Base(e));
      LinkKeepsBlocked(content, tree, x, Base(e));
      LinkKeepsPassable(content, tree, x, Base(e));
    }
  }

  /** A rename consumes the link beside x, which was due, and no other becomes due or is spared. */
  lemma RenameConsumesOne(content: Content, tree: Names, x: Path, e: Path)
    requires CanRename(content, tree, x) && e in tree
    ensures e == Temporary(x) ==> WillConsume(content, tree, e) && e !in AfterRename(content, tree, x)
    ensures e != Temporary(x) ==>
      e in AfterRename(content, tree, x) && (WillConsume(content, AfterRename(content, tree, x), e) <==> WillConsume(content, tree, e))
  {
    if e == Temporary(x) {
      TemporaryIsNamed(x);
      TemporaryComesAfter(x);
    } else if TemporaryName(e) && Base(e) in tree && Report(Base(e)) {
      BaseIsReport(e);
      OtherLinksStay(content, tree, x, e);
    }
  }

  lemma OtherLinksStay(content: Content, tree: Names, x: Path, e: Path)
    requires CanRename(content, tree, x) && e in tree && e != Temporary(x)
    requires TemporaryName(e) && Base(e) in tree && Report(Base(e)) && Temporary(Base(e)) == e
    ensures WillConsume(content, AfterRename(content, tree, x), e) <==> WillConsume(content, tree, e)
  {
    var b := Base(e);
    LinkIsLinked(content, tree, x);
    if b != Temporary(x) {
      TemporaryComesAfter(b);
      RenameLinks(content, tree, x, b);
      RenameKeepsFirst(content, tree, x, b);
      RenameKeepsBlocked(content, tree, x, b);
      RenameKeepsPassable(content, tree, x, b);
    }
  }

  /** The bytes of what is not consumed stay. */
  lemma RenameKeepsContent(content: Content, tree: Names, x: Path, e: Path)
    requires CanRename(content, tree, x) && e in tree && e != Temporary(x) && tree[e] in content
    ensures var next := AfterRename(content, tree, x); e in next && next[e] in content && content[next[e]] == content[tree[e]]
  {
    FirstIsBefore(content, tree, x);
  }

  // ---------------------------------------------------------------- the walk reaches every link that is due

  /** The reports up to b that are not links yet. */
  ghost function Unlinked(content: Content, tree: Names, b: Path): set<Path> {
    set p | p in tree && Report(p) && (p == b || PathBefore(p, b)) && !Linked(content, tree, p)
  }

  /** The walk stops first at the least of them. */
  lemma NextStop(content: Content, tree: Names, e: Path) returns (x: Path)
    requires WillConsume(content, tree, e)
    ensures x in Unlinked(content, tree, Base(e)) && (CanLink(content, tree, x) || CanRename(content, tree, x))
    ensures x == Base(e) ==> CanRename(content, tree, x) && Temporary(x) == e
  {
    var b := Base(e);
    BaseIsReport(e);
    assert b in Unlinked(content, tree, b);
    x := LeastExists(Unlinked(content, tree, b));
    forall y | y in tree && Report(y) && PathBefore(y, x) ensures Linked(content, tree, y) {
      if x != b { PathsTransitive(y, x, b); }
      PathsAreOrdered(x, y);
      assert y !in Unlinked(content, tree, b);
    }
    assert !Blocked(content, tree, x);
  }

  lemma RenameLeavesFewer(content: Content, tree: Names, x: Path, b: Path)
    requires CanRename(content, tree, x) && x in Unlinked(content, tree, b)
    ensures Unlinked(content, AfterRename(content, tree, x), b) == Unlinked(content, tree, b) - {x}
    ensures |Unlinked(content, AfterRename(content, tree, x), b)| < |Unlinked(content, tree, b)|
  {
    var next := AfterRename(content, tree, x);
    LinkIsLinked(content, tree, x);
    forall p | p in tree && Report(p) && p != Temporary(x)
      ensures p in next && (Linked(content, next, p) <==> p == x || Linked(content, tree, p))
    {
      RenameLinks(content, tree, x, p);
    }
    TemporaryComesAfter(x);
    assert Unlinked(content, next, b) == Unlinked(content, tree, b) - {x};
  }

  /** Once there is the temporary link it can be renamed. */
  lemma LinkThenRename(content: Content, tree: Names, x: Path)
    requires CanLink(content, tree, x)
    ensures CanRename(content, AfterLink(content, tree, x), x)
  {
    NewLinkIsLinked(content, tree, x);
    LinkKeepsFirst(content, tree, x, x);
    LinkKeepsDirectories(content, tree, x, Temporary(x));
    forall p | p in tree && Report(p) ensures Linked(content, AfterLink(content, tree, x), p) <==> Linked(content, tree, p) {
      LinkLinks(content, tree, x, p);
    }
  }

  lemma LinkLeavesUnlinked(content: Content, tree: Names, x: Path, b: Path)
    requires CanLink(content, tree, x)
    ensures Unlinked(content, AfterLink(content, tree, x), b) == Unlinked(content, tree, b)
  {
    NewLinkIsLinked(content, tree, x);
    forall p | p in tree && Report(p) ensures Linked(content, AfterLink(content, tree, x), p) <==> Linked(content, tree, p) {
      LinkLinks(content, tree, x, p);
    }
  }
}
