/**
 * What the session promises, stated over the transition function of the
 * engine: what a push and a drain put on the wire, how a file-system event
 * is filed under the replicas, what each controller command does to the
 * session variables, and which lines end the process.
 */
module Properties {
  import opened Wrappers
  import opened Text
  import opened Paths
  import opened Protocol
  import opened Engine

  /* ---------- the lines of a push and of a drain ---------- */

  lemma MultisetOfSet<T>(s: set<T>)
    ensures |multiset(s)| == |s|
    ensures forall x :: x in multiset(s) <==> x in s
  {
  }

  /**
   * A push writes one `CHANGES id` line per matched replica and nothing
   * else, in some order.
   */
  lemma PushLinesOnePerReplica(out: seq<string>, ids: set<string>, encode: string -> string)
    requires Prints(out, Pushes(ids), encode)
    ensures |out| == |ids|
    ensures forall id :: id in ids ==> ChangesLine(id, encode) in out
    ensures forall k :: 0 <= k < |out| ==> exists id :: id in ids && out[k] == ChangesLine(id, encode)
  {
    var order :| multiset(order) == multiset(ids) && out == PushLines(order, encode);
    MultisetOfSet(ids);
    assert |order| == |multiset(order)|;
    forall id | id in ids
      ensures ChangesLine(id, encode) in out
    {
      assert id in multiset(order);
      var k :| 0 <= k < |order| && order[k] == id;
      assert out[k] == ChangesLine(id, encode);
    }
    forall k | 0 <= k < |out|
      ensures exists id :: id in ids && out[k] == ChangesLine(id, encode)
    {
      assert order[k] in multiset(order);
    }
  }

  /** The `RECURSIVE` lines of an enumeration of `paths`: one per path. */
  lemma RecursiveLinesOfEnumeration(order: seq<Path>, paths: set<Path>, encode: string -> string)
    requires multiset(order) == multiset(paths)
    ensures |RecursiveLines(order, encode)| == |paths|
    ensures forall p :: p in paths ==> RecursiveLine(Display(p), encode) in RecursiveLines(order, encode)
    ensures forall k :: 0 <= k < |order| ==>
      exists p :: p in paths && RecursiveLines(order, encode)[k] == RecursiveLine(Display(p), encode)
  {
    var lines := RecursiveLines(order, encode);
    MultisetOfSet(paths);
    assert |order| == |multiset(order)|;
    forall p | p in paths
      ensures RecursiveLine(Display(p), encode) in lines
    {
      assert p in multiset(order);
      var k :| 0 <= k < |order| && order[k] == p;
      assert lines[k] == RecursiveLine(Display(p), encode);
    }
    forall k | 0 <= k < |order|
      ensures exists p :: p in paths && lines[k] == RecursiveLine(Display(p), encode)
    {
      assert order[k] in multiset(order);
    }
  }

  /**
   * A drain writes one `RECURSIVE` line per pending path, then `DONE` as
   * the last line.
   */
  lemma DrainLinesThenDone(out: seq<string>, paths: set<Path>, encode: string -> string)
    requires Prints(out, Drain(paths), encode)
    ensures |out| == |paths| + 1 && out[|out| - 1] == "DONE"
    ensures forall p :: p in paths ==> RecursiveLine(Display(p), encode) in out[..|out| - 1]
    ensures forall k :: 0 <= k < |out| - 1 ==> exists p :: p in paths && out[k] == RecursiveLine(Display(p), encode)
  {
    var order :| multiset(order) == multiset(paths) && out == RecursiveLines(order, encode) + [DoneLine()];
    var lines := RecursiveLines(order, encode);
    RecursiveLinesOfEnumeration(order, paths, encode);
    assert out == lines + ["DONE"];
    assert out[..|out| - 1] == lines;
    assert forall k :: 0 <= k < |out| - 1 ==> out[k] == lines[k];
  }

  /** Draining nothing writes exactly `DONE`. */
  lemma DrainNothing(out: seq<string>, encode: string -> string)
    ensures Prints(out, Drain({}), encode) <==> out == ["DONE"]
  {
    var none: seq<Path>, empty: set<Path> := [], {};
    if out == ["DONE"] {
      assert multiset(none) == multiset(empty);
      assert out == RecursiveLines(none, encode) + [DoneLine()];
    }
    if Prints(out, Drain(empty), encode) {
      var order :| multiset(order) == multiset(empty) && out == RecursiveLines(order, encode) + [DoneLine()];
      assert |order| == |multiset(order)| == 0;
    }
  }

  /** Pushing no replica writes nothing. */
  lemma PushNothing(out: seq<string>, encode: string -> string)
    ensures Prints(out, Pushes({}), encode) <==> out == []
  {
    var none: seq<string>, empty: set<string> := [], {};
    if out == [] {
      assert multiset(none) == multiset(empty);
      assert out == PushLines(none, encode);
    }
    if Prints(out, Pushes(empty), encode) {
      var order :| multiset(order) == multiset(empty) && out == PushLines(order, encode);
      assert |order| == |multiset(order)| == 0;
    }
  }

  /* ---------- file-system events ---------- */

  /** The path `q` lies under the root of the registered replica `id`. */
  predicate Under(st: State, id: string, q: Path) {
    Hit(Roots(st.replicas), id, q)
  }

  /** The root of a registered replica is the path of its START string. */
  lemma RootOfUnder(st: State, id: string, q: Path)
    requires Under(st, id, q)
    ensures id in st.replicas && StartsWith(q, PathOf(st.replicas[id]))
    ensures Relative(Roots(st.replicas), id, q) == q[|PathOf(st.replicas[id])|..]
  {
  }

  /** Every candidate under a root is filed, root-stripped, under that replica. */
  lemma RecordFilesEveryHit(pending: map<string, set<Path>>, roots: map<string, Path>, cands: set<Path>, id: string, q: Path)
    requires q in cands && Hit(roots, id, q)
    ensures id in Record(pending, roots, cands) && Relative(roots, id, q) in Record(pending, roots, cands)[id]
    ensures roots[id] + Relative(roots, id, q) == q
  {
    assert Relative(roots, id, q) in Gains(roots, cands, id);
    PendingOfRecord(pending, roots, cands, id);
  }

  /** Whatever a replica gains is a candidate with the root stripped off. */
  lemma RecordGainsOnlyHits(pending: map<string, set<Path>>, roots: map<string, Path>, cands: set<Path>, id: string, rel: Path)
    requires rel in PendingOf(Record(pending, roots, cands), id) && rel !in PendingOf(pending, id)
    ensures exists q :: q in cands && Hit(roots, id, q) && roots[id] + rel == q
  {
    PendingOfRecord(pending, roots, cands, id);
    var q :| q in cands && Hit(roots, id, q) && rel == Relative(roots, id, q);
    assert roots[id] + rel == q;
  }

  /** A replica that no candidate falls under keeps its pending changes as they were. */
  lemma RecordLeavesOthers(pending: map<string, set<Path>>, roots: map<string, Path>, cands: set<Path>, id: string)
    requires id !in Matched(roots, cands)
    ensures id in Record(pending, roots, cands) <==> id in pending
    ensures PendingOf(Record(pending, roots, cands), id) == PendingOf(pending, id)
  {
    PendingOfRecord(pending, roots, cands, id);
    if id in roots {
      assert Gains(roots, cands, id) == {};
    } else {
      assert forall q :: !Hit(roots, id, q);
      assert Gains(roots, cands, id) == {};
    }
  }

  /**
   * A file-system event touches only the pending changes: no watcher call,
   * no exit, and the replicas, links and last START root stay as they were.
   * An event without a path changes nothing and writes nothing.
   */
  lemma FsEventTouchesOnlyPending(st: State, codec: Codec, w: World, path: Option<Path>)
    ensures var o := Next(st, codec, w, FsEvent(path));
      && o.next.replicas == st.replicas && o.next.links == st.links && o.next.replicaPath == st.replicaPath
      && o.calls == [] && o.halt == None
    ensures path.None? ==>
      Next(st, codec, w, FsEvent(path)).next == st
      && forall out :: Prints(out, Next(st, codec, w, FsEvent(path)).emitted, codec.encode) <==> out == []
  {
    if path.None? {
      forall out
        ensures Prints(out, Next(st, codec, w, FsEvent(path)).emitted, codec.encode) <==> out == []
      {
        PushNothing(out, codec.encode);
      }
    }
  }

  /**
   * An event at `p` files every candidate path `q` under every replica
   * whose root is a component prefix of `q`, as `q` with the root stripped,
   * and files nothing else: each new entry is such a stripped candidate.
   */
  lemma FsEventFilesCandidates(st: State, codec: Codec, w: World, p: Path)
    ensures var next := Next(st, codec, w, FsEvent(Some(p))).next;
      forall id, q :: q in Candidates(st.links, p) && Under(st, id, q) ==>
        id in next.pending && q[|PathOf(st.replicas[id])|..] in next.pending[id]
    ensures var next := Next(st, codec, w, FsEvent(Some(p))).next;
      forall id, rel :: id in next.pending && rel in next.pending[id] && rel !in PendingOf(st.pending, id) ==>
        exists q :: q in Candidates(st.links, p) && Under(st, id, q) && PathOf(st.replicas[id]) + rel == q
  {
    var roots, cands := Roots(st.replicas), Candidates(st.links, p);
    var next := Next(st, codec, w, FsEvent(Some(p))).next;
    assert next.pending == Record(st.pending, roots, cands);
    forall id, q | q in cands && Under(st, id, q)
      ensures id in next.pending && q[|PathOf(st.replicas[id])|..] in next.pending[id]
    {
      RootOfUnder(st, id, q);
      RecordFilesEveryHit(st.pending, roots, cands, id, q);
    }
    forall id, rel | id in next.pending && rel in next.pending[id] && rel !in PendingOf(st.pending, id)
      ensures exists q :: q in cands && Under(st, id, q) && PathOf(st.replicas[id]) + rel == q
    {
      RecordGainsOnlyHits(st.pending, roots, cands, id, rel);
      var q :| q in cands && Hit(roots, id, q) && roots[id] + rel == q;
      RootOfUnder(st, id, q);
    }
  }

  /**
   * A file-system event never drops a pending change, and only adds
   * entries for registered replicas.
   */
  lemma FsEventKeepsPending(st: State, codec: Codec, w: World, path: Option<Path>)
    ensures var next := Next(st, codec, w, FsEvent(path)).next;
      forall id :: id in st.pending ==> id in next.pending && st.pending[id] <= next.pending[id]
    ensures var next := Next(st, codec, w, FsEvent(path)).next;
      forall id :: id in next.pending ==> id in st.pending || id in st.replicas
  {
    if path.Some? {
      var roots, cands := Roots(st.replicas), Candidates(st.links, path.value);
      var next := Next(st, codec, w, FsEvent(path)).next;
      forall id | id in st.pending || id in next.pending
        ensures id in st.pending ==> id in next.pending && st.pending[id] <= next.pending[id]
        ensures id in next.pending ==> id in st.pending || id in st.replicas
      {
        PendingOfRecord(st.pending, roots, cands, id);
      }
    }
  }

  /**
   * An event at `p` pushes exactly the replicas some candidate path lies
   * under; every other replica keeps its pending changes untouched.
   */
  lemma FsEventPushesMatched(st: State, codec: Codec, w: World, p: Path)
    ensures var o := Next(st, codec, w, FsEvent(Some(p)));
      o.emitted == Pushes(set id | id in st.replicas && exists q :: q in Candidates(st.links, p) && Under(st, id, q))
    ensures var o := Next(st, codec, w, FsEvent(Some(p)));
      forall id :: id !in o.emitted.ids ==>
        (id in o.next.pending <==> id in st.pending) && PendingOf(o.next.pending, id) == PendingOf(st.pending, id)
  {
    var roots, cands := Roots(st.replicas), Candidates(st.links, p);
    MatchedUnder(st, cands);
    forall id | id !in Matched(roots, cands)
      ensures var next := Record(st.pending, roots, cands);
        (id in next <==> id in st.pending) && PendingOf(next, id) == PendingOf(st.pending, id)
    {
      RecordLeavesOthers(st.pending, roots, cands, id);
    }
  }

  /** The replicas matched by `cands` are those some candidate lies under. */
  lemma MatchedUnder(st: State, cands: set<Path>)
    ensures Matched(Roots(st.replicas), cands)
         == set id | id in st.replicas && exists q :: q in cands && Under(st, id, q)
  {
    var roots := Roots(st.replicas);
    forall id
      ensures id in Matched(roots, cands) <==> id in st.replicas && exists q :: q in cands && Under(st, id, q)
    {
      if id in Matched(roots, cands) {
        var rel :| rel in Gains(roots, cands, id);
        var q :| q in cands && Hit(roots, id, q) && rel == Relative(roots, id, q);
        RootOfUnder(st, id, q);
      }
      if id in st.replicas && exists q :: q in cands && Under(st, id, q) {
        var q :| q in cands && Under(st, id, q);
        RootOfUnder(st, id, q);
        assert Relative(roots, id, q) in Gains(roots, cands, id);
      }
    }
  }

  /**
   * Fan-out through links: an event at `p` below a registered real path
   * reaches every replica whose root lies above the corresponding path
   * through one of that real path's links.
   */
  lemma FsEventThroughLink(st: State, codec: Codec, w: World, p: Path, canonical: Path, link: Path, id: string)
    requires canonical in st.links && link in st.links[canonical] && StartsWith(p, canonical)
    requires Under(st, id, Join(link, p[|canonical|..]))
    ensures var o := Next(st, codec, w, FsEvent(Some(p)));
      var q := Join(link, p[|canonical|..]);
      id in o.emitted.ids && id in o.next.pending && q[|PathOf(st.replicas[id])|..] in o.next.pending[id]
  {
    var q := Join(link, p[|canonical|..]);
    CandidatesSpec(st.links, p);
    assert q in Candidates(st.links, p);
    FsEventFilesCandidates(st, codec, w, p);
    FsEventPushesMatched(st, codec, w, p);
  }

  /**
   * A replica none of whose candidate paths lies under its root is neither
   * pushed nor changed: roots are compared component by component.
   */
  lemma FsEventNoLeak(st: State, codec: Codec, w: World, p: Path, id: string)
    requires forall q :: q in Candidates(st.links, p) ==> !Under(st, id, q)
    ensures var o := Next(st, codec, w, FsEvent(Some(p)));
      id !in o.emitted.ids && PendingOf(o.next.pending, id) == PendingOf(st.pending, id)
  {
    FsEventPushesMatched(st, codec, w, p);
  }

  /** `/repo1` is not a prefix of `/repo12/f`: the component `repo12` is not `repo1`. */
  lemma SegmentBoundary()
    ensures PathOf("/repo1") == [RootDir, "repo1"]
    ensures PathOf("/repo12/f") == [RootDir, "repo12", "f"]
    ensures !StartsWith(PathOf("/repo12/f"), PathOf("/repo1"))
  {
    var short, long := [RootDir, "repo1"], [RootDir, "repo12", "f"];
    assert WellFormed(short) && WellFormed(long);
    assert Display(short) == "/repo1";
    assert JoinSlash(["repo12", "f"]) == "repo12/f";
    assert Display(long) == "/repo12/f";
    DisplayRoundTrip(short);
    DisplayRoundTrip(long);
    assert long[1] != short[1];
  }

  /**
   * Joining `./x` onto `/r` gives `/r/x`: the "." is no longer first once the
   * texts are joined, so it is not a component of the result.
   */
  lemma JoinDropsCurDir()
    ensures Join(PathOf("/r"), PathOf("./x")) == PathOf("/r/x") == [RootDir, "r", "x"]
  {
    var base, more, joined: Path := [RootDir, "r"], [CurDir, "x"], [RootDir, "r", "x"];
    assert JoinSlash(["r"]) == "r";
    assert JoinSlash(["x"]) == "x";
    assert JoinSlash(more) == "./x";
    assert JoinSlash(["r", "x"]) == "r/x";
    assert Display(base) == "/r" && Display(more) == "./x" && Display(joined) == "/r/x";
    DisplayRoundTrip(base);
    DisplayRoundTrip(more);
    DisplayRoundTrip(joined);
  }

  /* ---------- controller commands ---------- */

  /**
   * `CHANGES r` removes `r`'s pending entry and nothing else, and writes one
   * `RECURSIVE` line per path that was pending for `r`, then `DONE`.
   */
  lemma ChangesDrains(st: State, codec: Codec, w: World, line: string, r: string, rest: seq<string>)
    requires Parse(line, codec.decode) == ("CHANGES", [r] + rest)
    ensures var o := Next(st, codec, w, Input(line));
      && r !in o.next.pending
      && (forall id :: id != r ==> (id in o.next.pending <==> id in st.pending) && PendingOf(o.next.pending, id) == PendingOf(st.pending, id))
      && o.next.replicas == st.replicas && o.next.links == st.links && o.next.replicaPath == st.replicaPath
      && o.calls == [] && o.halt == None
      && o.emitted == Drain(PendingOf(st.pending, r))
    ensures var o := Next(st, codec, w, Input(line));
      forall out :: Prints(out, o.emitted, codec.encode) ==>
        && |out| == |PendingOf(st.pending, r)| + 1 && out[|out| - 1] == "DONE"
        && (forall p :: p in PendingOf(st.pending, r) ==> RecursiveLine(Display(p), codec.encode) in out[..|out| - 1])
        && (forall k :: 0 <= k < |out| - 1 ==>
              exists p :: p in PendingOf(st.pending, r) && out[k] == RecursiveLine(Display(p), codec.encode))
  {
    var o := Next(st, codec, w, Input(line));
    assert o == OnChanges(st, [r] + rest);
    forall out | Prints(out, o.emitted, codec.encode)
      ensures |out| == |PendingOf(st.pending, r)| + 1 && out[|out| - 1] == "DONE"
      ensures forall p :: p in PendingOf(st.pending, r) ==> RecursiveLine(Display(p), codec.encode) in out[..|out| - 1]
      ensures forall k :: 0 <= k < |out| - 1 ==>
        exists p :: p in PendingOf(st.pending, r) && out[k] == RecursiveLine(Display(p), codec.encode)
    {
      DrainLinesThenDone(out, PendingOf(st.pending, r), codec.encode);
    }
  }

  /** A second `CHANGES r` with nothing in between writes exactly `DONE`. */
  lemma ChangesTwice(st: State, codec: Codec, w1: World, w2: World, line1: string, line2: string,
                     r: string, rest1: seq<string>, rest2: seq<string>)
    requires Parse(line1, codec.decode) == ("CHANGES", [r] + rest1)
    requires Parse(line2, codec.decode) == ("CHANGES", [r] + rest2)
    ensures var first := Next(st, codec, w1, Input(line1));
      var second := Next(first.next, codec, w2, Input(line2));
      second.halt == None && forall out :: Prints(out, second.emitted, codec.encode) <==> out == ["DONE"]
  {
    var first := Next(st, codec, w1, Input(line1));
    ChangesDrains(st, codec, w1, line1, r, rest1);
    var second := Next(first.next, codec, w2, Input(line2));
    assert second.emitted == Drain(PendingOf(first.next.pending, r));
    assert PendingOf(first.next.pending, r) == {};
    forall out
      ensures Prints(out, second.emitted, codec.encode) <==> out == ["DONE"]
    {
      DrainNothing(out, codec.encode);
    }
  }

  /**
   * `START id root` records `root` as the latest START root and asks the
   * watcher to watch it; when that succeeds it registers (or overwrites)
   * replica `id` and acknowledges with `OK`, leaving the pending changes
   * and links as they were; when it fails the process ends.
   */
  lemma StartRegisters(st: State, codec: Codec, w: World, line: string, id: string, root: string, rest: seq<string>)
    requires Parse(line, codec.decode) == ("START", [id, root] + rest)
    ensures var o := Next(st, codec, w, Input(line));
      && o.calls == [Watch(PathOf(root))]
      && o.next.replicaPath == root && o.next.pending == st.pending && o.next.links == st.links
    ensures var o := Next(st, codec, w, Input(line));
      w.watch(PathOf(root)) ==>
        o.next.replicas == st.replicas[id := root] && o.emitted == Lines(["OK"]) && o.halt == None
    ensures var o := Next(st, codec, w, Input(line));
      !w.watch(PathOf(root)) ==>
        o.next.replicas == st.replicas && o.emitted == Lines([])
        && o.halt == Some(MainFailed(WatchFailed(PathOf(root))))
  {
    assert ([id, root] + rest)[0] == id && ([id, root] + rest)[1] == root;
  }

  /**
   * `LINK f` registers `f` under the latest START root as a link to its
   * canonical path and watches that path; a failure of either ends the
   * process.
   */
  lemma LinkRegisters(st: State, codec: Codec, w: World, line: string, f: string, rest: seq<string>)
    requires Parse(line, codec.decode) == ("LINK", [f] + rest)
    ensures var o := Next(st, codec, w, Input(line));
      var link := Join(PathOf(st.replicaPath), PathOf(f));
      && o.next.replicas == st.replicas && o.next.pending == st.pending && o.next.replicaPath == st.replicaPath
      && (w.canonicalize(link).None? ==>
            o.next == st && o.calls == [] && o.emitted == Lines([])
            && o.halt == Some(MainFailed(CanonicalizeFailed(link))))
      && (w.canonicalize(link).Some? ==>
            var canonical := w.canonicalize(link).value;
            o.calls == [Watch(canonical)]
            && (w.watch(canonical) ==>
                  && canonical in o.next.links && o.next.links[canonical] == LinksOf(st.links, canonical) + {link}
                  && (forall c :: c != canonical ==> (c in o.next.links <==> c in st.links) && LinksOf(o.next.links, c) == LinksOf(st.links, c))
                  && o.emitted == Lines(["OK"]) && o.halt == None)
            && (!w.watch(canonical) ==>
                  o.next == st && o.emitted == Lines([]) && o.halt == Some(MainFailed(WatchFailed(canonical)))))
  {
    assert ([f] + rest)[0] == f;
  }

  /**
   * `RESET r` asks the watcher to unwatch the path spelled by the replica id
   * itself; when that succeeds it forgets replica `r` and nothing else,
   * pending changes included, and writes nothing.
   */
  lemma ResetForgets(st: State, codec: Codec, w: World, line: string, r: string, rest: seq<string>)
    requires Parse(line, codec.decode) == ("RESET", [r] + rest)
    ensures var o := Next(st, codec, w, Input(line));
      && o.calls == [Unwatch(PathOf(r))] && o.emitted == Lines([])
      && o.next.pending == st.pending && o.next.links == st.links && o.next.replicaPath == st.replicaPath
    ensures var o := Next(st, codec, w, Input(line));
      w.unwatch(PathOf(r)) ==>
        && r !in o.next.replicas && o.halt == None
        && forall id :: id != r ==> (id in o.next.replicas <==> id in st.replicas) && (id in st.replicas ==> o.next.replicas[id] == st.replicas[id])
    ensures var o := Next(st, codec, w, Input(line));
      !w.unwatch(PathOf(r)) ==> o.next == st && o.halt == Some(MainFailed(UnwatchFailed(PathOf(r))))
  {
    assert ([r] + rest)[0] == r;
  }

  /** After a successful `RESET r`, file-system events no longer reach `r`. */
  lemma ResetSilences(st: State, codec: Codec, w: World, w': World, line: string, r: string, rest: seq<string>, p: Path)
    requires Parse(line, codec.decode) == ("RESET", [r] + rest)
    requires w.unwatch(PathOf(r))
    ensures var reset := Next(st, codec, w, Input(line)).next;
      var o := Next(reset, codec, w', FsEvent(Some(p)));
      r !in o.emitted.ids && PendingOf(o.next.pending, r) == PendingOf(st.pending, r)
  {
    ResetForgets(st, codec, w, line, r, rest);
    var reset := Next(st, codec, w, Input(line)).next;
    FsEventNoLeak(reset, codec, w', p, r);
  }

  /** `VERSION v`: silent when `v` is "1", otherwise `main` fails; the state is untouched either way. */
  lemma VersionChecks(st: State, codec: Codec, w: World, line: string, v: string, rest: seq<string>)
    requires Parse(line, codec.decode) == ("VERSION", [v] + rest)
    ensures var o := Next(st, codec, w, Input(line));
      o.next == st && o.emitted == Lines([]) && o.calls == []
      && (o.halt == None <==> v == "1")
      && (v != "1" ==> o.halt == Some(MainFailed(UnexpectedVersion(v))))
  {
    assert ([v] + rest)[0] == v;
  }

  /**
   * `WAIT r`: silent for a registered replica; otherwise it reports
   * `ERROR Unknown replica: r` and ends the process.
   */
  lemma WaitChecks(st: State, codec: Codec, w: World, line: string, r: string, rest: seq<string>)
    requires Parse(line, codec.decode) == ("WAIT", [r] + rest)
    ensures var o := Next(st, codec, w, Input(line));
      o.next == st && o.calls == []
      && (r in st.replicas ==> o.emitted == Lines([]) && o.halt == None)
      && (r !in st.replicas ==>
            o.emitted == Lines(["ERROR " + codec.encode("Unknown replica: " + r)])
            && o.halt == Some(ErrorReported("Unknown replica: " + r)))
  {
    assert ([r] + rest)[0] == r;
  }

  /** `DIR` acknowledges; `DEBUG` and `DONE` do nothing. */
  lemma QuietCommands(st: State, codec: Codec, w: World, line: string)
    requires Parse(line, codec.decode).0 in {"DIR", "DEBUG", "DONE"}
    ensures var o := Next(st, codec, w, Input(line));
      o.next == st && o.calls == [] && o.halt == None
      && o.emitted == (if Parse(line, codec.decode).0 == "DIR" then Lines(["OK"]) else Lines([]))
  {
  }

  /** The verbs the command table knows. */
  predicate Known(cmd: string) {
    cmd in {"VERSION", "START", "LINK", "DIR", "WAIT", "CHANGES", "RESET", "DEBUG", "DONE"}
  }

  /**
   * Any other verb, the empty verb of a blank line included, is reported as
   * `ERROR Unexpected cmd: <verb>` and ends the process.
   */
  lemma UnknownVerbFatal(st: State, codec: Codec, w: World, line: string)
    requires !Known(Parse(line, codec.decode).0)
    ensures var cmd := Parse(line, codec.decode).0;
      var o := Next(st, codec, w, Input(line));
      o.next == st && o.calls == []
      && o.emitted == Lines(["ERROR " + codec.encode("Unexpected cmd: " + cmd)])
      && o.halt == Some(ErrorReported("Unexpected cmd: " + cmd))
  {
  }

  /** A line of whitespace only is an unknown command with the empty verb. */
  lemma BlankLineFatal(st: State, codec: Codec, w: World, line: string)
    requires AllSeparators(line, IsSpace)
    ensures var o := Next(st, codec, w, Input(line));
      o.emitted == Lines(["ERROR " + codec.encode("Unexpected cmd: ")])
      && o.halt == Some(ErrorReported("Unexpected cmd: "))
  {
    ParseVerb(line, codec.decode);
    assert !Known("");
    UnknownVerbFatal(st, codec, w, line);
    assert "Unexpected cmd: " + Parse(line, codec.decode).0 == "Unexpected cmd: ";
  }

  /** A missing argument to a command that takes one is a panic, with the state untouched. */
  lemma MissingArgumentPanics(st: State, codec: Codec, w: World, line: string)
    requires Parse(line, codec.decode).0 in {"VERSION", "START", "LINK", "WAIT", "CHANGES", "RESET"}
    requires Parse(line, codec.decode).1 == []
    ensures var o := Next(st, codec, w, Input(line));
      o.next == st && o.emitted == Lines([]) && o.calls == [] && o.halt == Some(MissingArgument)
  {
  }

  /* ---------- across all events ---------- */

  /** The link map only ever grows: no event removes a real path or one of its links. */
  lemma LinksOnlyGrow(st: State, codec: Codec, w: World, e: Event)
    ensures var next := Next(st, codec, w, e).next;
      forall c :: c in st.links ==> c in next.links && st.links[c] <= next.links[c]
  {
  }

  /** A file-system event keeps every pending set non-empty. */
  lemma RecordKeepsNonEmpty(pending: map<string, set<Path>>, roots: map<string, Path>, cands: set<Path>)
    requires forall id :: id in pending ==> pending[id] != {}
    ensures forall id :: id in Record(pending, roots, cands) ==> Record(pending, roots, cands)[id] != {}
  {
    forall id | id in Record(pending, roots, cands)
      ensures Record(pending, roots, cands)[id] != {}
    {
      PendingOfRecord(pending, roots, cands, id);
    }
  }

  /** Every step keeps the pending sets and link sets non-empty. */
  lemma NextKeepsInv(st: State, codec: Codec, w: World, e: Event)
    requires Inv(st)
    ensures Inv(Next(st, codec, w, e).next)
  {
    match e
    case FsEvent(path) =>
      if path.Some? {
        RecordKeepsNonEmpty(st.pending, Roots(st.replicas), Candidates(st.links, path.value));
      }
    case Input(line) =>
      var (cmd, args) := Parse(line, codec.decode);
      CommandKeepsInv(st, codec, w, cmd, args);
  }

  lemma CommandKeepsInv(st: State, codec: Codec, w: World, cmd: string, args: seq<string>)
    requires Inv(st)
    ensures Inv(OnCommand(st, codec, w, cmd, args).next)
  {
  }
}
