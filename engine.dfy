/**
 * The event-correlation engine as a pure transition function: the session
 * state held by `main`'s loop, the two kinds of event it consumes, and what
 * one step does with each (state change, output, calls to the watcher, and
 * whether the process ends).
 */
module Engine {
  import opened Wrappers
  import opened Text
  import opened Paths
  import opened Protocol

  /** The four variables of the session loop. */
  datatype State = State(
    replicas: map<string, string>,      // replica id -> root, as given to START
    pending: map<string, set<Path>>,    // replica id -> changed paths, relative to its root
    links: map<Path, set<Path>>,        // canonical real path -> symbolic-link paths
    replicaPath: string)                // the root given to the most recent START

  const Initial: State := State(map[], map[], map[], "")

  /** One event pulled from the merged channel: a controller line or a raw watcher event. */
  datatype Event = Input(line: string) | FsEvent(path: Option<Path>)

  /**
   * What the file system and the watcher answer during one step:
   * `canonicalize` (None when it fails), and whether `watch` / `unwatch`
   * of a path succeed.
   */
  datatype World = World(
    canonicalize: Path -> Option<Path>,
    watch: Path -> bool,
    unwatch: Path -> bool)

  /** A call made to the watcher. */
  datatype WatchCall = Watch(target: Path) | Unwatch(target: Path)

  /** Why `main` returned an error. */
  datatype Cause =
    | UnexpectedVersion(version: string)
    | CanonicalizeFailed(link: Path)
    | WatchFailed(target: Path)
    | UnwatchFailed(target: Path)

  /** How the process ends. */
  datatype Exit =
    | ErrorReported(message: string)   // `send_error`: an ERROR line, then exit status 1
    | MainFailed(cause: Cause)         // `bail!` or `?` in `main`: exit status 1, nothing on the protocol
    | MissingArgument                  // `args.remove(0)` on an empty argument list panics

  /**
   * The output of one step. `Pushes` and `Drain` come from iterating a hash
   * set, so their lines may appear in any order.
   */
  datatype Emitted =
    | Lines(lines: seq<string>)   // exactly these lines
    | Pushes(ids: set<string>)    // one CHANGES line per replica id
    | Drain(paths: set<Path>)     // one RECURSIVE line per path, then DONE

  datatype Outcome = Outcome(next: State, emitted: Emitted, calls: seq<WatchCall>, halt: Option<Exit>)

  function PushLines(order: seq<string>, encode: string -> string): (out: seq<string>)
    ensures |out| == |order|
  {
    seq(|order|, i requires 0 <= i < |order| => ChangesLine(order[i], encode))
  }

  function RecursiveLines(order: seq<Path>, encode: string -> string): (out: seq<string>)
    ensures |out| == |order|
  {
    seq(|order|, i requires 0 <= i < |order| => RecursiveLine(Display(order[i]), encode))
  }

  /** `out` is what the step writes for `em`, the hash-set parts in some order that lists each element once. */
  ghost predicate Prints(out: seq<string>, em: Emitted, encode: string -> string) {
    match em
    case Lines(ls) => out == ls
    case Pushes(ids) =>
      exists order :: multiset(order) == multiset(ids) && out == PushLines(order, encode)
    case Drain(paths) =>
      exists order :: multiset(order) == multiset(paths) && out == RecursiveLines(order, encode) + [DoneLine()]
  }

  function PendingOf(pending: map<string, set<Path>>, id: string): set<Path> {
    if id in pending then pending[id] else {}
  }

  function LinksOf(links: map<Path, set<Path>>, canonical: Path): set<Path> {
    if canonical in links then links[canonical] else {}
  }

  /* ---------- file-system events ---------- */

  /** The paths `p` is also seen at through the links registered for the canonical paths in `canonicals`. */
  function LinkTargets(links: map<Path, set<Path>>, canonicals: set<Path>, p: Path): set<Path> {
    set canonical, link | canonical in canonicals && canonical in links && link in links[canonical] && StartsWith(p, canonical)
      :: Join(link, p[|canonical|..])
  }

  /**
   * The candidate set of an event at `p`: `p` itself and, for every
   * registered canonical path that is a prefix of `p` and every link to it, the
   * link joined with the rest of `p` (see `CandidatesSpec`).
   */
  function Candidates(links: map<Path, set<Path>>, p: Path): (cands: set<Path>)
    ensures p in cands
    ensures links == map[] ==> cands == {p}
  {
    {p} + LinkTargets(links, links.Keys, p)
  }

  /** What the candidate set holds, and that it holds nothing else. */
  lemma CandidatesSpec(links: map<Path, set<Path>>, p: Path)
    ensures p in Candidates(links, p)
    ensures forall canonical, link ::
      (canonical in links && link in links[canonical] && StartsWith(p, canonical)) ==> Join(link, p[|canonical|..]) in Candidates(links, p)
    ensures forall q :: q in Candidates(links, p) && q != p ==>
      exists canonical, link :: canonical in links && link in links[canonical] && StartsWith(p, canonical)
        && q == Join(link, p[|canonical|..])
  {
  }

  /** The root of every registered replica, as a path. */
  function Roots(replicas: map<string, string>): map<string, Path> {
    map id | id in replicas :: PathOf(replicas[id])
  }

  /** Replica `id` is registered and its root is a prefix of `q`. */
  predicate Hit(roots: map<string, Path>, id: string, q: Path) {
    id in roots && StartsWith(q, roots[id])
  }

  /** `q` relative to the root of replica `id`. */
  function Relative(roots: map<string, Path>, id: string, q: Path): Path
    requires Hit(roots, id, q)
  {
    q[|roots[id]|..]
  }

  /** The relative paths that the candidates `cands` add to replica `id`. */
  function Gains(roots: map<string, Path>, cands: set<Path>, id: string): set<Path> {
    set q | q in cands && Hit(roots, id, q) :: Relative(roots, id, q)
  }

  /** The replicas some candidate falls under. */
  function Matched(roots: map<string, Path>, cands: set<Path>): (ids: set<string>)
    ensures ids <= roots.Keys
    ensures cands == {} ==> ids == {}
  {
    set id | id in roots && Gains(roots, cands, id) != {}
  }

  /** The pending changes after the candidates `cands` are recorded. */
  function Record(pending: map<string, set<Path>>, roots: map<string, Path>, cands: set<Path>)
    : (r: map<string, set<Path>>)
    ensures forall id :: id in pending ==> id in r && pending[id] <= r[id]
    ensures forall id :: id in r ==> id in pending || id in Matched(roots, cands)
  {
    map id | id in pending.Keys + Matched(roots, cands) :: PendingOf(pending, id) + Gains(roots, cands, id)
  }

  /** A raw watcher event (`Event::FSEvent`). */
  function OnFsEvent(st: State, path: Option<Path>): (o: Outcome)
    ensures o.calls == [] && o.halt == None && o.emitted.Pushes?
    ensures o.next.replicas == st.replicas && o.next.links == st.links && o.next.replicaPath == st.replicaPath
    ensures path == None ==> o.next == st && o.emitted == Pushes({})
  {
    match path
    case None => Outcome(st, Pushes({}), [], None)
    case Some(p) =>
      var cands := Candidates(st.links, p);
      var roots := Roots(st.replicas);
      Outcome(st.(pending := Record(st.pending, roots, cands)), Pushes(Matched(roots, cands)), [], None)
  }

  /* ---------- controller commands ---------- */

  function Quiet(st: State): Outcome {
    Outcome(st, Lines([]), [], None)
  }

  function Quit(st: State, exit: Exit): Outcome {
    Outcome(st, Lines([]), [], Some(exit))
  }

  function ReportError(st: State, message: string, encode: string -> string): Outcome {
    Outcome(st, Lines([ErrorLine(message, encode)]), [], Some(ErrorReported(message)))
  }

  function OnVersion(st: State, args: seq<string>): (o: Outcome)
    ensures o.next == st && o.calls == [] && o.emitted == Lines([])
    ensures o.halt == None <==> |args| > 0 && args[0] == "1"
  {
    if |args| == 0 then Quit(st, MissingArgument)
    else if args[0] != "1" then Quit(st, MainFailed(UnexpectedVersion(args[0])))
    else Quiet(st)
  }

  function OnStart(st: State, w: World, args: seq<string>): (o: Outcome)
    ensures o.next.pending == st.pending && o.next.links == st.links
    ensures |args| < 2 ==> o.next == st && o.calls == [] && o.halt == Some(MissingArgument)
    ensures |args| >= 2 ==> o.calls == [Watch(PathOf(args[1]))] && o.next.replicaPath == args[1]
    ensures |args| >= 2 ==>
      (o.halt == None <==> w.watch(PathOf(args[1])))
      && o.next.replicas == (if o.halt == None then st.replicas[args[0] := args[1]] else st.replicas)
  {
    if |args| < 2 then Quit(st, MissingArgument)
    else
      var id, root := args[0], args[1];
      var target := PathOf(root);
      var st' := st.(replicaPath := root);
      if !w.watch(target) then
        Outcome(st', Lines([]), [Watch(target)], Some(MainFailed(WatchFailed(target))))
      else
        Outcome(st'.(replicas := st.replicas[id := root]), Lines([AckLine()]), [Watch(target)], None)
  }

  function OnLink(st: State, w: World, args: seq<string>): (o: Outcome)
    ensures o.next.pending == st.pending && o.next.replicas == st.replicas && o.next.replicaPath == st.replicaPath
    ensures o.halt != None ==> o.next == st
    ensures |o.calls| <= 1 && (o.halt == None ==> |args| > 0 && |o.calls| == 1 && o.emitted == Lines([AckLine()]))
  {
    if |args| == 0 then Quit(st, MissingArgument)
    else
      var link := Join(PathOf(st.replicaPath), PathOf(args[0]));
      match w.canonicalize(link)
      case None => Quit(st, MainFailed(CanonicalizeFailed(link)))
      case Some(canonical) =>
        if !w.watch(canonical) then
          Outcome(st, Lines([]), [Watch(canonical)], Some(MainFailed(WatchFailed(canonical))))
        else
          Outcome(st.(links := st.links[canonical := LinksOf(st.links, canonical) + {link}]), Lines([AckLine()]), [Watch(canonical)], None)
  }

  function OnWait(st: State, args: seq<string>, encode: string -> string): (o: Outcome)
    ensures o.next == st && o.calls == []
    ensures o.halt == None <==> |args| > 0 && args[0] in st.replicas
  {
    if |args| == 0 then Quit(st, MissingArgument)
    else if args[0] in st.replicas then Quiet(st)
    else ReportError(st, "Unknown replica: " + args[0], encode)
  }

  function OnChanges(st: State, args: seq<string>): (o: Outcome)
    ensures o.calls == [] && o.next.replicas == st.replicas && o.next.links == st.links && o.next.replicaPath == st.replicaPath
    ensures o.halt == None <==> |args| > 0
    ensures |args| > 0 ==> o.next.pending.Keys == st.pending.Keys - {args[0]}
  {
    if |args| == 0 then Quit(st, MissingArgument)
    else Outcome(st.(pending := st.pending - {args[0]}), Drain(PendingOf(st.pending, args[0])), [], None)
  }

  function OnReset(st: State, w: World, args: seq<string>): (o: Outcome)
    ensures o.next.pending == st.pending && o.next.links == st.links && o.next.replicaPath == st.replicaPath
    ensures o.emitted == Lines([])
    ensures |args| > 0 ==> o.calls == [Unwatch(PathOf(args[0]))] && (o.halt == None <==> w.unwatch(PathOf(args[0])))
    ensures o.halt == None ==> |args| > 0 && o.next.replicas.Keys == st.replicas.Keys - {args[0]}
  {
    if |args| == 0 then Quit(st, MissingArgument)
    else
      var target := PathOf(args[0]);
      if !w.unwatch(target) then
        Outcome(st, Lines([]), [Unwatch(target)], Some(MainFailed(UnwatchFailed(target))))
      else
        Outcome(st.(replicas := st.replicas - {args[0]}), Lines([]), [Unwatch(target)], None)
  }

  /** The command table of `main`. */
  function OnCommand(st: State, codec: Codec, w: World, cmd: string, args: seq<string>): (o: Outcome)
    ensures cmd != "CHANGES" ==> o.next.pending == st.pending
    ensures cmd != "START" && cmd != "RESET" ==> o.next.replicas == st.replicas
    ensures cmd != "LINK" ==> o.next.links == st.links
    ensures cmd != "START" ==> o.next.replicaPath == st.replicaPath
    ensures cmd != "START" && cmd != "LINK" && cmd != "RESET" ==> o.calls == []
    ensures !o.emitted.Pushes?
  {
    if cmd == "VERSION" then OnVersion(st, args)
    else if cmd == "START" then OnStart(st, w, args)
    else if cmd == "LINK" then OnLink(st, w, args)
    else if cmd == "DIR" then Outcome(st, Lines([AckLine()]), [], None)
    else if cmd == "WAIT" then OnWait(st, args, codec.encode)
    else if cmd == "CHANGES" then OnChanges(st, args)
    else if cmd == "RESET" then OnReset(st, w, args)
    else if cmd == "DEBUG" || cmd == "DONE" then Quiet(st)
    else ReportError(st, "Unexpected cmd: " + cmd, codec.encode)
  }

  /** One iteration of the session loop. */
  function Next(st: State, codec: Codec, w: World, e: Event): (o: Outcome)
    ensures e.FsEvent? ==> o.calls == [] && o.halt == None && o.emitted.Pushes? && o.next.replicas == st.replicas && o.next.links == st.links
    ensures e.Input? ==> !o.emitted.Pushes?
  {
    match e
    case Input(line) =>
      var (cmd, args) := Parse(line, codec.decode);
      OnCommand(st, codec, w, cmd, args)
    case FsEvent(path) => OnFsEvent(st, path)
  }

  /** Every pending set and every link set that exists is non-empty. */
  ghost predicate Inv(st: State) {
    && (forall id :: id in st.pending ==> st.pending[id] != {})
    && (forall canonical :: canonical in st.links ==> st.links[canonical] != {})
  }

  /* ---------- one step at a time: facts the session's loops rely on ---------- */

  /** The links of one registered real path, joined with the rest of `p`. */
  function ThroughLinks(links: set<Path>, canonical: Path, p: Path): set<Path>
    requires StartsWith(p, canonical)
  {
    set link | link in links :: Join(link, p[|canonical|..])
  }

  lemma LinkTargetsAdd(links: map<Path, set<Path>>, done: set<Path>, canonical: Path, p: Path)
    requires canonical in links
    ensures LinkTargets(links, done + {canonical}, p)
         == LinkTargets(links, done, p)
            + (if StartsWith(p, canonical) then ThroughLinks(links[canonical], canonical, p) else {})
  {
    var extra := if StartsWith(p, canonical) then ThroughLinks(links[canonical], canonical, p) else {};
    forall x | x in LinkTargets(links, done + {canonical}, p)
      ensures x in LinkTargets(links, done, p) + extra
    {
      var c, l :| c in done + {canonical} && c in links && l in links[c] && StartsWith(p, c)
        && x == Join(l, p[|c|..]);
      if c != canonical {
        assert x in LinkTargets(links, done, p);
      }
    }
  }

  /** `Record` for the single candidate `q`, over the roots in `seen` only. */
  function RecordAmong(pending: map<string, set<Path>>, roots: map<string, Path>, seen: set<string>, q: Path)
    : map<string, set<Path>>
  {
    map id | id in pending.Keys + (set id | id in seen && Hit(roots, id, q)) ::
      PendingOf(pending, id) + (if id in seen && Hit(roots, id, q) then {Relative(roots, id, q)} else {})
  }

  /** The replicas among `seen` whose root is a prefix of `q`. */
  function HitsAmong(roots: map<string, Path>, seen: set<string>, q: Path): set<string> {
    set id | id in seen && Hit(roots, id, q)
  }

  lemma HitsAmongAdd(roots: map<string, Path>, seen: set<string>, id: string, q: Path)
    ensures HitsAmong(roots, seen + {id}, q) == HitsAmong(roots, seen, q) + (if Hit(roots, id, q) then {id} else {})
  {
  }

  lemma RecordAmongNothing(pending: map<string, set<Path>>, roots: map<string, Path>, q: Path)
    ensures RecordAmong(pending, roots, {}, q) == pending
  {
    var r := RecordAmong(pending, roots, {}, q);
    assert r.Keys == pending.Keys;
    forall id | id in r
      ensures r[id] == pending[id]
    {
    }
  }

  lemma RecordAmongAdd(pending: map<string, set<Path>>, roots: map<string, Path>, seen: set<string>, id: string, q: Path)
    requires id !in seen
    ensures var before := RecordAmong(pending, roots, seen, q);
      RecordAmong(pending, roots, seen + {id}, q)
        == if Hit(roots, id, q)
           then before[id := PendingOf(before, id) + {Relative(roots, id, q)}]
           else before
  {
    var before := RecordAmong(pending, roots, seen, q);
    var after := RecordAmong(pending, roots, seen + {id}, q);
    var expected := if Hit(roots, id, q)
                  then before[id := PendingOf(before, id) + {Relative(roots, id, q)}]
                  else before;
    assert after.Keys == expected.Keys;
    forall k | k in after
      ensures after[k] == expected[k]
    {
    }
  }

  lemma GainsAdd(roots: map<string, Path>, cands: set<Path>, q: Path, id: string)
    ensures Gains(roots, cands + {q}, id)
         == Gains(roots, cands, id) + (if Hit(roots, id, q) then {Relative(roots, id, q)} else {})
  {
  }

  lemma MatchedAddCandidate(roots: map<string, Path>, done: set<Path>, q: Path)
    ensures Matched(roots, done) + HitsAmong(roots, roots.Keys, q)
         == Matched(roots, done + {q})
  {
    forall id
      ensures Gains(roots, done + {q}, id)
           == Gains(roots, done, id) + (if Hit(roots, id, q) then {Relative(roots, id, q)} else {})
    {
      GainsAdd(roots, done, q, id);
    }
  }

  /** What `Record` holds for any replica id, stored or not. */
  lemma PendingOfRecord(pending: map<string, set<Path>>, roots: map<string, Path>, cands: set<Path>, id: string)
    ensures id in Record(pending, roots, cands) <==> id in pending || id in Matched(roots, cands)
    ensures PendingOf(Record(pending, roots, cands), id) == PendingOf(pending, id) + Gains(roots, cands, id)
  {
  }

  /** What `RecordAmong` holds for any replica id, stored or not. */
  lemma PendingOfRecordAmong(pending: map<string, set<Path>>, roots: map<string, Path>, seen: set<string>, q: Path, id: string)
    ensures id in RecordAmong(pending, roots, seen, q) <==> id in pending || (id in seen && Hit(roots, id, q))
    ensures PendingOf(RecordAmong(pending, roots, seen, q), id)
         == PendingOf(pending, id) + (if id in seen && Hit(roots, id, q) then {Relative(roots, id, q)} else {})
  {
  }

  /** Two pending maps are equal when they agree on every id, stored or not. */
  lemma PendingExtensional(a: map<string, set<Path>>, b: map<string, set<Path>>)
    requires forall id :: (id in a <==> id in b) && PendingOf(a, id) == PendingOf(b, id)
    ensures a == b
  {
    assert a.Keys == b.Keys;
    forall id | id in a
      ensures a[id] == b[id]
    {
      assert PendingOf(a, id) == a[id] && PendingOf(b, id) == b[id];
    }
  }

  /** One id of `RecordAddCandidate`. */
  lemma RecordAddCandidateAt(pending: map<string, set<Path>>, roots: map<string, Path>, done: set<Path>, q: Path, id: string)
    ensures var lhs := RecordAmong(Record(pending, roots, done), roots, roots.Keys, q);
      var rhs := Record(pending, roots, done + {q});
      (id in lhs <==> id in rhs) && PendingOf(lhs, id) == PendingOf(rhs, id)
  {
    GainsAdd(roots, done, q, id);
    PendingOfRecord(pending, roots, done, id);
    PendingOfRecord(pending, roots, done + {q}, id);
    PendingOfRecordAmong(Record(pending, roots, done), roots, roots.Keys, q, id);
  }

  /** Handling one more candidate `q` for every replica extends `Record` by `q`. */
  lemma RecordAddCandidate(pending: map<string, set<Path>>, roots: map<string, Path>, done: set<Path>, q: Path)
    ensures RecordAmong(Record(pending, roots, done), roots, roots.Keys, q)
         == Record(pending, roots, done + {q})
  {
    var lhs := RecordAmong(Record(pending, roots, done), roots, roots.Keys, q);
    var rhs := Record(pending, roots, done + {q});
    forall id
      ensures (id in lhs <==> id in rhs) && PendingOf(lhs, id) == PendingOf(rhs, id)
    {
      RecordAddCandidateAt(pending, roots, done, q, id);
    }
    PendingExtensional(lhs, rhs);
  }

  lemma RecordNothing(pending: map<string, set<Path>>, roots: map<string, Path>)
    ensures Record(pending, roots, {}) == pending
  {
    forall id
      ensures Gains(roots, {}, id) == {}
    {
    }
    assert Matched(roots, {}) == {};
    var r := Record(pending, roots, {});
    assert r.Keys == pending.Keys;
    forall id | id in r
      ensures r[id] == pending[id]
    {
    }
  }

  /** Event `e` takes `st` to `st'`, writes `out` and ends the process with `halt` (or not, when None). */
  ghost predicate Steps(st: State, codec: Codec, w: World, e: Event, st': State, out: seq<string>, halt: Option<Exit>) {
    var o := Next(st, codec, w, e);
    st' == o.next && Prints(out, o.emitted, codec.encode) && halt == o.halt
  }


  /**
   * `states`, `outs` and `halts` record a run of `events`: the trace without
   * its last step is a run, and the last step takes the state before it to
   * the last state, writes the last lines and ends the process (or not) as
   * the last entry of `halts` says.
   */
  ghost predicate Trace(codec: Codec, worlds: seq<World>, events: seq<Event>, states: seq<State>,
                        outs: seq<seq<string>>, halts: seq<Option<Exit>>)
    decreases |outs|
  {
    && |states| == |outs| + 1 && |halts| == |outs| && |outs| <= |events| && |outs| <= |worlds|
    && (outs != [] ==>
          var n := |outs| - 1;
          && Trace(codec, worlds, events, states[..n + 1], outs[..n], halts[..n])
          && Steps(states[n], codec, worlds[n], events[n], states[n + 1], outs[n], halts[n]))
  }

  /** A trace extended by one more step. */
  lemma TraceExtend(codec: Codec, worlds: seq<World>, events: seq<Event>, states: seq<State>,
                    outs: seq<seq<string>>, halts: seq<Option<Exit>>, st': State, lines: seq<string>, h: Option<Exit>)
    requires Trace(codec, worlds, events, states, outs, halts)
    requires |outs| < |events| && |outs| < |worlds|
    requires Steps(states[|outs|], codec, worlds[|outs|], events[|outs|], st', lines, h)
    ensures Trace(codec, worlds, events, states + [st'], outs + [lines], halts + [h])
  {
    assert (states + [st'])[..|outs| + 1] == states;
    assert (outs + [lines])[..|outs|] == outs;
    assert (halts + [h])[..|outs|] == halts;
  }

}
