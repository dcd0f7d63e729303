/** Reading, extending and anchoring the hash-chained index file (tools/evidence_ledger.py,
    read_events/append/check_anchor; tools/remote-gate/evidence_admission.py, anchor/advance).

    The JSON text of an event and SHA-256 are parameters. What the results need of them is stated
    as a hypothesis: the digest has no collisions, and an encoded event is one line that decodes
    to itself. */
module EventChain {
  import opened Options

  newtype Byte = x: int | 0 <= x < 256
  type Bytes = seq<Byte>
  type Hash = string

  const LF: Byte := 10
  const CR: Byte := 13
  const GENESIS: Hash := "0000000000000000000000000000000000000000000000000000000000000000"

  /** The chain fields of an event; `body` is everything else the line says. */
  datatype Event = Event(sequence: nat, previous: Hash, body: Bytes)

  datatype Codec = Codec(parse: Bytes -> Option<Event>, encode: Event -> Bytes, digest: Bytes -> Hash)

  datatype Index = Tampered | Index(events: seq<Event>, digests: seq<Hash>)
  datatype Head = Head(sequence: nat, digest: Hash)

  ghost predicate CollisionFree(c: Codec) {
    forall a, b :: c.digest(a) == c.digest(b) ==> a == b
  }

  predicate OneLine(line: Bytes) { LF !in line && CR !in line }

  ghost predicate Faithful(c: Codec) {
    forall e :: OneLine(c.encode(e)) && c.parse(c.encode(e)) == Some(e)
  }

  // ---------------------------------------------------------------- bytes.splitlines()

  function LineEnd(data: Bytes): (n: nat)
    ensures n <= |data| && OneLine(data[..n]) && (n < |data| ==> data[n] == LF || data[n] == CR)
  {
    if data == [] || data[0] == LF || data[0] == CR then 0 else
    var rest := LineEnd(data[1..]);
    assert data[..1 + rest] == [data[0]] + data[1..][..rest];
    1 + rest
  }

  /** What remains after the line terminator at position n; CR LF is one terminator. */
  function AfterLine(data: Bytes, n: nat): (rest: Bytes)
    requires n <= |data|
    ensures |rest| <= |data| && (n < |data| ==> |rest| < |data|)
  {
    if n == |data| then []
    else if data[n] == CR && n + 1 < |data| && data[n + 1] == LF then data[n + 2..]
    else data[n + 1..]
  }

  function SplitLines(data: Bytes): (lines: seq<Bytes>)
    ensures forall i :: 0 <= i < |lines| ==> OneLine(lines[i])
    decreases |data|
  {
    if data == [] then [] else
    var n := LineEnd(data);
    [data[..n]] + if n == |data| then [] else SplitLines(AfterLine(data, n))
  }

  predicate Complete(data: Bytes) { data == [] || data[|data| - 1] == LF }

  lemma {:induction false} LineEndOfLine(line: Bytes, rest: Bytes)
    requires OneLine(line)
    ensures LineEnd(line + [LF] + rest) == |line|
  {
    var data := line + [LF] + rest;
    if line != [] {
      assert data[1..] == line[1..] + [LF] + rest;
      assert data[0] == line[0];
      LineEndOfLine(line[1..], rest);
    }
  }

  lemma {:induction false} LineEndOfPrefix(data: Bytes, more: Bytes)
    requires LineEnd(data) < |data|
    ensures LineEnd(data + more) == LineEnd(data)
  {
    assert (data + more)[0] == data[0];
    if data[0] != LF && data[0] != CR {
      assert (data + more)[1..] == data[1..] + more;
      LineEndOfPrefix(data[1..], more);
    }
  }

  lemma AfterLineOfPrefix(data: Bytes, more: Bytes, n: nat)
    requires n < |data| && data[|data| - 1] == LF
    ensures AfterLine(data + more, n) == AfterLine(data, n) + more && Complete(AfterLine(data, n))
  {
    if data[n] == CR && data[n + 1] == LF { assert (data + more)[n + 2..] == data[n + 2..] + more; }
    else { assert (data + more)[n + 1..] == data[n + 1..] + more; }
  }

  lemma SplitSingle(line: Bytes)
    requires OneLine(line)
    ensures SplitLines(line + [LF]) == [line]
  {
    var whole := line + [LF];
    assert whole == line + [LF] + [];
    LineEndOfLine(line, []);
    assert whole[..|line|] == line && AfterLine(whole, |line|) == [];
  }

  lemma FirstLine(data: Bytes, more: Bytes) returns (first: Bytes, rest: Bytes)
    requires data != [] && data[|data| - 1] == LF
    ensures |rest| < |data| && Complete(rest)
    ensures SplitLines(data) == [first] + SplitLines(rest) && SplitLines(data + more) == [first] + SplitLines(rest + more)
  {
    var n := LineEnd(data);
    first, rest := data[..n], AfterLine(data, n);
    assert LF in data[..|data|];
    LineEndOfPrefix(data, more);
    AfterLineOfPrefix(data, more, n);
    assert (data + more)[..n] == data[..n];
  }

  lemma Regroup(first: Bytes, lines: seq<Bytes>, line: Bytes)
    ensures [first] + (lines + [line]) == [first] + lines + [line]
  {
  }

  lemma {:induction false} SplitMore(data: Bytes, line: Bytes, more: Bytes)
    requires Complete(data) && SplitLines(more) == [line]
    ensures SplitLines(data + more) == SplitLines(data) + [line]
    decreases |data|
  {
    if data == [] {
      assert data + more == more;
    } else {
      var first, rest := FirstLine(data, more);
      SplitMore(rest, line, more);
      Regroup(first, SplitLines(rest), line);
    }
  }

  /** Appending a line to a complete file adds exactly that line and disturbs no earlier one. */
  lemma SplitAppended(data: Bytes, line: Bytes)
    requires Complete(data) && OneLine(line)
    ensures SplitLines(data + line + [LF]) == SplitLines(data) + [line]
  {
    SplitSingle(line);
    SplitMore(data, line, line + [LF]);
    assert data + (line + [LF]) == data + line + [LF];
  }

  // ---------------------------------------------------------------- read_events

  function Previous(digests: seq<Hash>): Hash {
    if digests == [] then GENESIS else digests[|digests| - 1]
  }

  function Digests(c: Codec, lines: seq<Bytes>): (digests: seq<Hash>)
    ensures |digests| == |lines|
    ensures forall i :: 0 <= i < |lines| ==> digests[i] == c.digest(lines[i])
  {
    seq(|lines|, i requires 0 <= i < |lines| => c.digest(lines[i]))
  }

  /** Line i parses to an event at position i that names the digest of the line before it. */
  predicate Linked(c: Codec, lines: seq<Bytes>, i: int) {
    0 <= i < |lines| && c.parse(lines[i]).Some? &&
    var event := c.parse(lines[i]).value;
    event.sequence == i && event.previous == if i == 0 then GENESIS else c.digest(lines[i - 1])
  }

  predicate Chained(c: Codec, lines: seq<Bytes>) {
    forall i :: 0 <= i < |lines| ==> Linked(c, lines, i)
  }

  function EventAt(c: Codec, lines: seq<Bytes>, i: nat): (event: Event)
    requires Chained(c, lines) && i < |lines|
    ensures Linked(c, lines, i) && c.parse(lines[i]) == Some(event)
  {
    assert Linked(c, lines, i);
    c.parse(lines[i]).value
  }

  function EventsOf(c: Codec, lines: seq<Bytes>): (events: seq<Event>)
    requires Chained(c, lines)
    ensures |events| == |lines|
    ensures forall i :: 0 <= i < |lines| ==> Linked(c, lines, i) && c.parse(lines[i]) == Some(events[i])
  {
    seq(|lines|, i requires 0 <= i < |lines| => EventAt(c, lines, i))
  }

  predicate Readable(c: Codec, data: Bytes) {
    Complete(data) && Chained(c, SplitLines(data))
  }

  function Events(c: Codec, data: Bytes): seq<Event>
    requires Readable(c, data)
  {
    EventsOf(c, SplitLines(data))
  }

  method ReadEvents(c: Codec, data: Bytes) returns (r: Index)
    ensures r == Tampered <==> !Readable(c, data)
    ensures r.Index? ==> r.events == Events(c, data) && r.digests == Digests(c, SplitLines(data))
  {
    if data != [] && data[|data| - 1] != LF { return Tampered; }
    r := ReadLines(c, SplitLines(data));
  }

  /** The check of one line against the digests of those before it. */
  predicate Follows(event: Option<Event>, digests: seq<Hash>) {
    event.Some? && event.value.sequence == |digests| && event.value.previous == Previous(digests)
  }

  predicate ReadSoFar(c: Codec, lines: seq<Bytes>, events: seq<Event>, digests: seq<Hash>) {
    |events| == |digests| <= |lines| &&
    forall i :: 0 <= i < |digests| ==> Linked(c, lines, i) && c.parse(lines[i]) == Some(events[i]) && digests[i] == c.digest(lines[i])
  }

  lemma ReadOneLine(c: Codec, lines: seq<Bytes>, events: seq<Event>, digests: seq<Hash>)
    requires ReadSoFar(c, lines, events, digests) && |digests| < |lines|
    ensures var event := c.parse(lines[|digests|]);
      if Follows(event, digests) then ReadSoFar(c, lines, events + [event.value], digests + [c.digest(lines[|digests|])])
      else !Linked(c, lines, |digests|)
  {
  }

  lemma ReadToTheEnd(c: Codec, lines: seq<Bytes>, events: seq<Event>, digests: seq<Hash>)
    requires ReadSoFar(c, lines, events, digests) && |digests| == |lines|
    ensures Chained(c, lines) && events == EventsOf(c, lines) && digests == Digests(c, lines)
  {
    assert Chained(c, lines);
    var all := EventsOf(c, lines);
    forall i | 0 <= i < |lines| ensures all[i] == events[i] { assert c.parse(lines[i]) == Some(all[i]); }
  }

  method ReadLines(c: Codec, lines: seq<Bytes>) returns (r: Index)
    ensures r == Tampered <==> !Chained(c, lines)
    ensures r.Index? ==> r.events == EventsOf(c, lines) && r.digests == Digests(c, lines)
  {
    var events: seq<Event>, digests: seq<Hash> := [], [];
    for n := 0 to |lines|
      invariant n == |digests| && ReadSoFar(c, lines, events, digests)
    {
      ReadOneLine(c, lines, events, digests);
      var event := c.parse(lines[n]);
      if event == None || event.value.sequence != |events| || event.value.previous != Previous(digests) { return Tampered; }
      events, digests := events + [event.value], digests + [c.digest(lines[n])];
    }
    ReadToTheEnd(c, lines, events, digests);
    r := Index(events, digests);
  }

  // ---------------------------------------------------------------- append

  function HeadOf(digests: seq<Hash>): Head { Head(|digests|, Previous(digests)) }

  predicate Next(c: Codec, data: Bytes, event: Event) {
    HeadOf(Digests(c, SplitLines(data))) == Head(event.sequence, event.previous)
  }

  function Appended(c: Codec, data: Bytes, event: Event): Bytes { data + c.encode(event) + [LF] }

  /** One more line that names the digest of the last one extends a chain. */
  lemma OneMoreLine(c: Codec, lines: seq<Bytes>, line: Bytes, event: Event)
    requires Chained(c, lines) && c.parse(line) == Some(event) && HeadOf(Digests(c, lines)) == Head(event.sequence, event.previous)
    ensures Chained(c, lines + [line]) && EventsOf(c, lines + [line]) == EventsOf(c, lines) + [event]
  {
    var after := lines + [line];
    forall i | 0 <= i < |after| ensures Linked(c, after, i) {
      if i < |lines| { assert Linked(c, lines, i); }
    }
    var all, before := EventsOf(c, after), EventsOf(c, lines);
    forall i | 0 <= i < |after| ensures all[i] == (before + [event])[i] { assert c.parse(after[i]) == Some(all[i]); }
  }

  /** append() on a readable index gives a readable index with exactly one more event. */
  lemma AppendReadsBack(c: Codec, data: Bytes, event: Event)
    requires Faithful(c) && Readable(c, data) && Next(c, data, event)
    ensures Readable(c, Appended(c, data, event))
    ensures Events(c, Appended(c, data, event)) == Events(c, data) + [event]
  {
    SplitAppended(data, c.encode(event));
    OneMoreLine(c, SplitLines(data), c.encode(event), event);
  }

  /** A process killed inside append() leaves the old index, the new one, or a file every reader refuses. */
  lemma TornAppendIsRefused(c: Codec, data: Bytes, event: Event, written: nat)
    requires Faithful(c) && Readable(c, data) && written <= |c.encode(event)| + 1
    ensures var torn := data + (c.encode(event) + [LF])[..written];
      if written == 0 then torn == data
      else if written == |c.encode(event)| + 1 then torn == Appended(c, data, event)
      else !Readable(c, torn)
  {
    var line := c.encode(event);
    var torn := data + (line + [LF])[..written];
    if 0 < written <= |line| {
      assert torn[|torn| - 1] == line[written - 1];
    } else if written == |line| + 1 {
      assert (line + [LF])[..written] == line + [LF];
    }
  }

  // ---------------------------------------------------------------- anchors

  predicate AnchorHolds(digests: seq<Hash>, anchor: Head) {
    anchor.sequence <= |digests| && HeadOf(digests[..anchor.sequence]) == anchor
  }

  lemma {:induction false} SameHeadSamePrefix(c: Codec, a: seq<Bytes>, b: seq<Bytes>, n: nat)
    requires CollisionFree(c) && n <= |a| && n <= |b|
    requires forall i :: 0 <= i < n ==> Linked(c, a, i) && Linked(c, b, i)
    requires n > 0 ==> c.digest(a[n - 1]) == c.digest(b[n - 1])
    ensures a[..n] == b[..n]
  {
    if n > 0 {
      assert a[n - 1] == b[n - 1];
      assert Linked(c, a, n - 1) && Linked(c, b, n - 1);
      SameHeadSamePrefix(c, a, b, n - 1);
      assert a[..n] == a[..n - 1] + [a[n - 1]] && b[..n] == b[..n - 1] + [b[n - 1]];
    }
  }

  /** An anchor taken from one readable file accepts another readable file exactly when the other
      starts with the very lines that were anchored: any rewrite or truncation below is rejected. */
  lemma AnchorHoldsExactly(c: Codec, was: seq<Bytes>, now: seq<Bytes>, n: nat)
    requires CollisionFree(c) && Chained(c, was) && Chained(c, now) && n <= |was|
    ensures AnchorHolds(Digests(c, now), HeadOf(Digests(c, was)[..n])) <==> n <= |now| && now[..n] == was[..n]
    ensures AnchorHolds(Digests(c, now), HeadOf(Digests(c, was)[..n])) ==> EventsOf(c, now)[..n] == EventsOf(c, was)[..n]
  {
    if n <= |now| {
      if AnchorHolds(Digests(c, now), HeadOf(Digests(c, was)[..n])) {
        if n > 0 {
          assert Digests(c, now)[..n][n - 1] == c.digest(now[n - 1]);
          assert Digests(c, was)[..n][n - 1] == c.digest(was[n - 1]);
        }
        SameHeadSamePrefix(c, now, was, n);
      }
      if now[..n] == was[..n] {
        SamePrefixReadsSame(c, was, now, n);
      }
    }
  }

  lemma SamePrefixReadsSame(c: Codec, was: seq<Bytes>, now: seq<Bytes>, n: nat)
    requires Chained(c, was) && Chained(c, now) && n <= |was| && n <= |now| && now[..n] == was[..n]
    ensures Digests(c, now)[..n] == Digests(c, was)[..n]
    ensures EventsOf(c, now)[..n] == EventsOf(c, was)[..n]
  {
    assert forall i :: 0 <= i < n ==> now[i] == now[..n][i] == was[..n][i] == was[i];
  }

  /** The lines one attempt to publish found, and whether it went on to publish its success. */
  datatype Visit = Visit(lines: seq<Bytes>, published: bool)

  predicate Admits(c: Codec, anchor: Option<Head>, lines: seq<Bytes>) {
    Chained(c, lines) && (anchor == None || AnchorHolds(Digests(c, lines), anchor.value))
  }

  /** The visits of one host whose file was accepted. Between two of them the file is whatever anyone
      left; only a visit that published its success advances the anchor. */
  function Accepted(c: Codec, anchor: Option<Head>, visits: seq<Visit>): (accepted: seq<Visit>)
    decreases |visits|
  {
    if visits == [] then []
    else if !Admits(c, anchor, visits[0].lines) then Accepted(c, anchor, visits[1..])
    else [visits[0]] + Accepted(c, if visits[0].published then Some(HeadOf(Digests(c, visits[0].lines))) else anchor, visits[1..])
  }

  predicate Extends<T(==)>(older: seq<T>, newer: seq<T>) {
    |older| <= |newer| && newer[..|older|] == older
  }

  lemma AnchoredFileExtends(c: Codec, was: seq<Bytes>, now: seq<Bytes>)
    requires CollisionFree(c) && Chained(c, was) && Chained(c, now)
    requires AnchorHolds(Digests(c, now), HeadOf(Digests(c, was)))
    ensures Extends(was, now)
  {
    assert Digests(c, was)[..|was|] == Digests(c, was) && was[..|was|] == was;
    AnchorHoldsExactly(c, was, now, |was|);
  }

  lemma ExtendsTransitive<T>(a: seq<T>, b: seq<T>, c: seq<T>)
    requires Extends(a, b) && Extends(b, c)
    ensures Extends(a, c)
  {
    assert c[..|a|] == c[..|b|][..|a|];
  }

  lemma {:induction false} AcceptedExtendAnchor(c: Codec, base: seq<Bytes>, visits: seq<Visit>, k: nat)
    requires CollisionFree(c) && Chained(c, base)
    requires k < |Accepted(c, Some(HeadOf(Digests(c, base))), visits)|
    ensures var accepted := Accepted(c, Some(HeadOf(Digests(c, base))), visits);
      Chained(c, accepted[k].lines) && Extends(base, accepted[k].lines)
    decreases |visits|
  {
    var accepted := Accepted(c, Some(HeadOf(Digests(c, base))), visits);
    var first := visits[0].lines;
    if Admits(c, Some(HeadOf(Digests(c, base))), first) {
      AnchoredFileExtends(c, base, first);
      if k > 0 && visits[0].published {
        AcceptedExtendAnchor(c, first, visits[1..], k - 1);
        ExtendsTransitive(base, first, accepted[k].lines);
      } else if k > 0 {
        AcceptedExtendAnchor(c, base, visits[1..], k - 1);
      }
    } else {
      AcceptedExtendAnchor(c, base, visits[1..], k);
    }
  }

  /** Every accepted file starts with the very lines of every file published from before it. */
  lemma {:induction false} AcceptedChain(c: Codec, anchor: Option<Head>, visits: seq<Visit>, i: nat, j: nat)
    requires CollisionFree(c) && i <= j < |Accepted(c, anchor, visits)| && Accepted(c, anchor, visits)[i].published
    ensures var accepted := Accepted(c, anchor, visits);
      Chained(c, accepted[i].lines) && Chained(c, accepted[j].lines) && Extends(accepted[i].lines, accepted[j].lines)
    decreases |visits|
  {
    if Admits(c, anchor, visits[0].lines) {
      var next := if visits[0].published then Some(HeadOf(Digests(c, visits[0].lines))) else anchor;
      if i > 0 {
        AcceptedChain(c, next, visits[1..], i - 1, j - 1);
      } else if j > 0 {
        AcceptedExtendAnchor(c, visits[0].lines, visits[1..], j - 1);
      }
    } else {
      AcceptedChain(c, anchor, visits[1..], i, j);
    }
  }

  /** The events successive publications verified form one prefix chain, whatever happened to the file in
      between; an attempt that failed to publish holds nothing to it. */
  lemma AnchorsFormOneChain(c: Codec, anchor: Option<Head>, visits: seq<Visit>, i: nat, j: nat)
    requires CollisionFree(c) && i <= j < |Accepted(c, anchor, visits)| && Accepted(c, anchor, visits)[i].published
    ensures var accepted := Accepted(c, anchor, visits);
      Chained(c, accepted[i].lines) && Chained(c, accepted[j].lines) &&
      Extends(EventsOf(c, accepted[i].lines), EventsOf(c, accepted[j].lines))
  {
    AcceptedChain(c, anchor, visits, i, j);
    var a, b := Accepted(c, anchor, visits)[i].lines, Accepted(c, anchor, visits)[j].lines;
    assert a[..|a|] == a;
    SamePrefixReadsSame(c, a, b, |a|);
    assert EventsOf(c, a)[..|a|] == EventsOf(c, a);
  }

  /** After a publication exactly the readable files that go on from the published lines are accepted; before the
      first one, every readable file. */
  lemma AdmitsExactly(c: Codec, published: Option<seq<Bytes>>, lines: seq<Bytes>)
    requires CollisionFree(c) && (published.Some? ==> Chained(c, published.value))
    ensures Admits(c, if published.Some? then Some(HeadOf(Digests(c, published.value))) else None, lines) <==>
      Chained(c, lines) && (published.Some? ==> Extends(published.value, lines))
  {
    if published.Some? && Chained(c, lines) {
      var was := published.value;
      assert Digests(c, was)[..|was|] == Digests(c, was) && was[..|was|] == was;
      AnchorHoldsExactly(c, was, lines, |was|);
    }
  }

  /** While the index is only ever appended to, no attempt is refused. */
  lemma {:induction false} AppendedFilesAreAccepted(c: Codec, published: Option<seq<Bytes>>, visits: seq<Visit>)
    requires CollisionFree(c) && (published.Some? ==> Chained(c, published.value))
    requires forall i :: 0 <= i < |visits| ==> Chained(c, visits[i].lines) && (published.Some? ==> Extends(published.value, visits[i].lines))
    requires forall i, j :: 0 <= i < j < |visits| ==> Extends(visits[i].lines, visits[j].lines)
    ensures Accepted(c, if published.Some? then Some(HeadOf(Digests(c, published.value))) else None, visits) == visits
    decreases |visits|
  {
    if visits != [] {
      AdmitsExactly(c, published, visits[0].lines);
      assert visits == [visits[0]] + visits[1..];
      AppendedFilesAreAccepted(c, if visits[0].published then Some(visits[0].lines) else published, visits[1..]);
    }
  }
}
