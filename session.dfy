/**
 * The single consumer of `main`: an object owning the session variables,
 * whose `Step` handles one merged event in place, and the driver that
 * announces the protocol version and then steps through the events until one
 * of them ends the process.
 */
module Session {
  import opened Wrappers
  import opened Paths
  import opened Protocol
  import opened Engine

  /** Writes one `CHANGES` line for each matched replica id, in whatever order the set yields them. */
  method SendChanges(ids: set<string>, encode: string -> string) returns (out: seq<string>)
    ensures Prints(out, Pushes(ids), encode)
  {
    out := [];
    ghost var order: seq<string> := [];
    var todo := ids;
    while todo != {}
      invariant todo <= ids
      invariant multiset(order) + multiset(todo) == multiset(ids)
      invariant out == PushLines(order, encode)
      decreases todo
    {
      var id :| id in todo;
      var line := SendCmd("CHANGES", [id], encode);
      assert multiset(todo) == multiset(todo - {id}) + multiset{id};
      out, order := out + [line], order + [id];
      todo := todo - {id};
    }
    assert multiset(order) == multiset(ids) && out == PushLines(order, encode);
  }

  /** Writes one `RECURSIVE` line for each drained path, in whatever order the set yields them, then `DONE`. */
  method SendRecursive(paths: set<Path>, encode: string -> string) returns (out: seq<string>)
    ensures Prints(out, Drain(paths), encode)
  {
    out := [];
    ghost var order: seq<Path> := [];
    var todo := paths;
    while todo != {}
      invariant todo <= paths
      invariant multiset(order) + multiset(todo) == multiset(paths)
      invariant out == RecursiveLines(order, encode)
      decreases todo
    {
      var c :| c in todo;
      var line := SendCmd("RECURSIVE", [Display(c)], encode);
      assert multiset(todo) == multiset(todo - {c}) + multiset{c};
      out, order := out + [line], order + [c];
      todo := todo - {c};
    }
    var done := SendCmd("DONE", [], encode);
    out := out + [done];
    assert multiset(order) == multiset(paths) && out == RecursiveLines(order, encode) + [DoneLine()];
  }

  class Session {
    const codec: Codec
    var replicas: map<string, string>
    var pendingChanges: map<string, set<Path>>
    var linkMap: map<Path, set<Path>>
    var replicaPath: string
    /** The calls made to the watcher so far. */
    ghost var watchLog: seq<WatchCall>
    /** Every replica id that a START has registered. */
    ghost var registered: set<string>

    function Current(): State
      reads this
    {
      State(replicas, pendingChanges, linkMap, replicaPath)
    }

    /**
     * Pending and link sets are never empty, and every id with pending
     * changes is, or was, a registered replica.
     */
    ghost predicate Valid()
      reads this
    {
      Inv(Current()) && replicas.Keys <= registered && pendingChanges.Keys <= registered
    }

    /** The step's effect on the state, the output and the exit status is the outcome `o`. */
    ghost predicate Became(o: Outcome, out: seq<string>, halt: Option<Exit>)
      reads this
    {
      Current() == o.next && Prints(out, o.emitted, codec.encode) && halt == o.halt
    }

    constructor (codec: Codec)
      ensures Valid() && this.codec == codec
      ensures Current() == Initial && watchLog == [] && registered == {}
    {
      this.codec := codec;
      replicas, pendingChanges, linkMap, replicaPath := map[], map[], map[], "";
      watchLog, registered := [], {};
    }

    /** The candidate paths of an event at `p` (the loop over `link_map`). */
    method CandidatePaths(p: Path) returns (paths: set<Path>)
      ensures paths == Candidates(linkMap, p)
    {
      paths := {p};
      var todo := linkMap.Keys;
      ghost var done: set<Path> := {};
      while todo != {}
        invariant todo + done == linkMap.Keys && todo !! done
        invariant paths == {p} + LinkTargets(linkMap, done, p)
        decreases todo
      {
        var canonical :| canonical in todo;
        if StartsWith(p, canonical) {
          var links := linkMap[canonical];
          ghost var seen: set<Path> := {};
          while links != {}
            invariant links + seen == linkMap[canonical] && links !! seen
            invariant paths == {p} + LinkTargets(linkMap, done, p) + ThroughLinks(seen, canonical, p)
            decreases links
          {
            var link :| link in links;
            paths := paths + {Join(link, StripPrefix(p, canonical).value)};
            assert ThroughLinks(seen + {link}, canonical, p)
                == ThroughLinks(seen, canonical, p) + {Join(link, p[|canonical|..])};
            links, seen := links - {link}, seen + {link};
          }
        }
        LinkTargetsAdd(linkMap, done, canonical, p);
        todo, done := todo - {canonical}, done + {canonical};
      }
    }

    /**
     * Files the candidate `q` under each replica whose root is a prefix of
     * it (the loop over `replicas`), and returns those replicas.
     */
    method FileCandidate(q: Path) returns (hits: set<string>)
      modifies this`pendingChanges
      ensures pendingChanges == RecordAmong(old(pendingChanges), Roots(replicas), replicas.Keys, q)
      ensures hits == HitsAmong(Roots(replicas), replicas.Keys, q)
    {
      ghost var roots := Roots(replicas);
      ghost var before := pendingChanges;
      hits := {};
      var ids := replicas.Keys;
      ghost var seen: set<string> := {};
      RecordAmongNothing(before, roots, q);
      while ids != {}
        invariant ids + seen == replicas.Keys && ids !! seen
        invariant pendingChanges == RecordAmong(before, roots, seen, q)
        invariant hits == HitsAmong(roots, seen, q)
        decreases ids
      {
        var id :| id in ids;
        var root := PathOf(replicas[id]);
        RecordAmongAdd(before, roots, seen, id, q);
        HitsAmongAdd(roots, seen, id, q);
        if StartsWith(q, root) {
          hits := hits + {id};
          var relative := StripPrefix(q, root).value;
          assert relative == Relative(roots, id, q);
          pendingChanges := pendingChanges[id := PendingOf(pendingChanges, id) + {relative}];
        }
        ids, seen := ids - {id}, seen + {id};
      }
    }

    /**
     * Files every candidate under each replica whose root is a prefix of it
     * (the loop over `paths`), and returns the replicas hit.
     */
    method Attribute(paths: set<Path>) returns (matched: set<string>)
      modifies this`pendingChanges
      ensures pendingChanges == Record(old(pendingChanges), Roots(replicas), paths)
      ensures matched == Matched(Roots(replicas), paths)
    {
      ghost var roots := Roots(replicas);
      assert roots.Keys == replicas.Keys;
      ghost var start := pendingChanges;
      RecordNothing(start, roots);
      matched := {};
      var todo := paths;
      ghost var done: set<Path> := {};
      while todo != {}
        invariant todo + done == paths && todo !! done
        invariant pendingChanges == Record(start, roots, done)
        invariant matched == Matched(roots, done)
        decreases todo
      {
        var q :| q in todo;
        var hits := FileCandidate(q);
        matched := matched + hits;
        RecordAddCandidate(start, roots, done, q);
        MatchedAddCandidate(roots, done, q);
        todo, done := todo - {q}, done + {q};
      }
    }

    /** The `Event::FSEvent` arm. */
    method FsEventStep(path: Option<Path>) returns (out: seq<string>)
      requires Valid()
      modifies this
      ensures Valid() && watchLog == old(watchLog)
      ensures Became(OnFsEvent(old(Current()), path), out, None)
    {
      var matched: set<string> := {};
      if path.Some? {
        var p := path.value;
        var paths := CandidatePaths(p);
        matched := Attribute(paths);
        forall id | id in pendingChanges
          ensures pendingChanges[id] != {}
        {
          PendingOfRecord(old(pendingChanges), Roots(replicas), paths, id);
        }
      }
      out := SendChanges(matched, codec.encode);
    }

    /** `VERSION v`. */
    method Version(args: seq<string>) returns (out: seq<string>, halt: Option<Exit>)
      ensures out == [] && halt == OnVersion(Current(), args).halt
    {
      out, halt := [], None;
      if |args| == 0 {
        halt := Some(MissingArgument);
        return;
      }
      var version := args[0];
      if version != "1" {
        halt := Some(MainFailed(UnexpectedVersion(version)));
      }
    }

    /** `START id path`. */
    method Start(w: World, args: seq<string>) returns (out: seq<string>, halt: Option<Exit>)
      requires Valid()
      modifies this
      ensures Valid()
      ensures var o := OnStart(old(Current()), w, args);
        Became(o, out, halt) && watchLog == old(watchLog) + o.calls
    {
      out, halt := [], None;
      if |args| < 2 {
        halt := Some(MissingArgument);
        return;
      }
      var replicaId := args[0];
      replicaPath := args[1];
      var target := PathOf(replicaPath);
      watchLog := watchLog + [Watch(target)];
      if !w.watch(target) {
        halt := Some(MainFailed(WatchFailed(target)));
        return;
      }
      replicas := replicas[replicaId := replicaPath];
      registered := registered + {replicaId};
      var ack := SendCmd("OK", [], codec.encode);
      out := [ack];
    }

    /** `LINK filename`. */
    method Link(w: World, args: seq<string>) returns (out: seq<string>, halt: Option<Exit>)
      requires Valid()
      modifies this
      ensures Valid()
      ensures var o := OnLink(old(Current()), w, args);
        Became(o, out, halt) && watchLog == old(watchLog) + o.calls
    {
      out, halt := [], None;
      if |args| == 0 {
        halt := Some(MissingArgument);
        return;
      }
      var filename := args[0];
      var link := Join(PathOf(replicaPath), PathOf(filename));
      var canonical := w.canonicalize(link);
      if canonical.None? {
        halt := Some(MainFailed(CanonicalizeFailed(link)));
        return;
      }
      var realPath := canonical.value;
      watchLog := watchLog + [Watch(realPath)];
      if !w.watch(realPath) {
        halt := Some(MainFailed(WatchFailed(realPath)));
        return;
      }
      linkMap := linkMap[realPath := LinksOf(linkMap, realPath) + {link}];
      var ack := SendCmd("OK", [], codec.encode);
      out := [ack];
    }

    /** `WAIT replica`. */
    method Wait(args: seq<string>) returns (out: seq<string>, halt: Option<Exit>)
      ensures var o := OnWait(Current(), args, codec.encode);
        Became(o, out, halt)
    {
      out, halt := [], None;
      if |args| == 0 {
        halt := Some(MissingArgument);
        return;
      }
      var replica := args[0];
      if replica !in replicas {
        var message := "Unknown replica: " + replica;
        var line := SendCmd("ERROR", [message], codec.encode);
        out, halt := [line], Some(ErrorReported(message));
      }
    }

    /** `CHANGES replica`: removes the replica's pending set and reports it. */
    method Changes(args: seq<string>) returns (out: seq<string>, halt: Option<Exit>)
      requires Valid()
      modifies this`pendingChanges
      ensures Valid()
      ensures Became(OnChanges(old(Current()), args), out, halt)
    {
      out, halt := [], None;
      if |args| == 0 {
        halt := Some(MissingArgument);
        return;
      }
      var replica := args[0];
      var changes: set<Path> := {};
      if replica in pendingChanges {
        changes := pendingChanges[replica];
        pendingChanges := pendingChanges - {replica};
      }
      assert pendingChanges == old(pendingChanges) - {replica};
      out := SendRecursive(changes, codec.encode);
    }

    /** `RESET replica`. */
    method Reset(w: World, args: seq<string>) returns (out: seq<string>, halt: Option<Exit>)
      requires Valid()
      modifies this
      ensures Valid()
      ensures var o := OnReset(old(Current()), w, args);
        Became(o, out, halt) && watchLog == old(watchLog) + o.calls
    {
      out, halt := [], None;
      if |args| == 0 {
        halt := Some(MissingArgument);
        return;
      }
      var replica := args[0];
      var target := PathOf(replica);
      watchLog := watchLog + [Unwatch(target)];
      if !w.unwatch(target) {
        halt := Some(MainFailed(UnwatchFailed(target)));
        return;
      }
      replicas := replicas - {replica};
    }

    /** The `Event::Input` arm: the command table. */
    method Command(w: World, cmd: string, args: seq<string>) returns (out: seq<string>, halt: Option<Exit>)
      requires Valid()
      modifies this
      ensures Valid()
      ensures var o := OnCommand(old(Current()), codec, w, cmd, args);
        Became(o, out, halt) && watchLog == old(watchLog) + o.calls
    {
      out, halt := [], None;
      if cmd == "VERSION" {
        out, halt := Version(args);
      } else if cmd == "START" {
        out, halt := Start(w, args);
      } else if cmd == "LINK" {
        out, halt := Link(w, args);
      } else if cmd == "DIR" {
        var ack := SendCmd("OK", [], codec.encode);
        out := [ack];
      } else if cmd == "WAIT" {
        out, halt := Wait(args);
      } else if cmd == "CHANGES" {
        out, halt := Changes(args);
      } else if cmd == "RESET" {
        out, halt := Reset(w, args);
      } else if cmd == "DEBUG" || cmd == "DONE" {
      } else {
        var message := "Unexpected cmd: " + cmd;
        var line := SendCmd("ERROR", [message], codec.encode);
        out, halt := [line], Some(ErrorReported(message));
      }
    }

    /** One iteration of `main`'s loop. */
    method Step(w: World, e: Event) returns (out: seq<string>, halt: Option<Exit>)
      requires Valid()
      modifies this
      ensures Valid()
      ensures Steps(old(Current()), codec, w, e, Current(), out, halt)
      ensures watchLog == old(watchLog) + Next(old(Current()), codec, w, e).calls
    {
      match e
      case Input(line) =>
        var cmd, args := ParseInput(line, codec.decode);
        out, halt := Command(w, cmd, args);
      case FsEvent(path) =>
        out := FsEventStep(path);
        halt := None;
    }

    /** One more step of a run: `Step` on the next event, recorded in the trace. */
    method Advance(worlds: seq<World>, events: seq<Event>, i: nat, ghost states: seq<State>,
                   ghost outs: seq<seq<string>>, ghost halts: seq<Option<Exit>>)
      returns (out: seq<string>, halt: Option<Exit>)
      requires Valid() && Trace(codec, worlds, events, states, outs, halts)
      requires i == |outs| < |events| && i < |worlds| && states[i] == Current()
      modifies this
      ensures Valid()
      ensures Trace(codec, worlds, events, states + [Current()], outs + [out], halts + [halt])
    {
      out, halt := Step(worlds[i], events[i]);
      TraceExtend(codec, worlds, events, states, outs, halts, Current(), out, halt);
    }
  }

  /** The lines of the steps one after another. */
  function Flatten(outs: seq<seq<string>>): seq<string> {
    if outs == [] then [] else Flatten(outs[..|outs| - 1]) + outs[|outs| - 1]
  }

  /** Flattening one more step's lines appends them. */
  lemma FlattenSnoc(outs: seq<seq<string>>, lines: seq<string>)
    ensures Flatten(outs + [lines]) == Flatten(outs) + lines
  {
    assert (outs + [lines])[..|outs|] == outs;
  }

  /**
   * The session driver: announce `VERSION 1`, then take the events in order,
   * `worlds[i]` answering the file-system and watcher calls of event `i`,
   * until the events run out or a step ends the process. `states`, `outs`
   * and `halts` are the states passed through, the lines of each step and
   * how each step ended.
   */
  method Run(codec: Codec, events: seq<Event>, worlds: seq<World>)
    returns (out: seq<string>, halt: Option<Exit>,
             ghost states: seq<State>, ghost outs: seq<seq<string>>, ghost halts: seq<Option<Exit>>)
    requires |worlds| == |events|
    ensures Trace(codec, worlds, events, states, outs, halts)
    ensures forall i :: 0 <= i < |outs| - 1 ==> halts[i] == None
    ensures halt == None ==> |outs| == |events|
    ensures halt == (if |outs| == 0 then None else halts[|outs| - 1])
    ensures states[0] == Initial
    ensures out == [VersionLine(codec.encode)] + Flatten(outs)
  {
    var session := new Session(codec);
    var announce := SendCmd("VERSION", ["1"], codec.encode);
    assert announce == VersionLine(codec.encode);
    var body: seq<string> := [];
    halt := None;
    states, outs, halts := [session.Current()], [], [];
    var i := 0;
    while i < |events| && halt == None
      invariant 0 <= i <= |events| && |outs| == i
      invariant Trace(codec, worlds, events, states, outs, halts)
      invariant session.Valid() && session.codec == codec && states[i] == session.Current()
      invariant forall j :: 0 <= j < i - 1 ==> halts[j] == None
      invariant halt == (if i == 0 then None else halts[i - 1])
      invariant states[0] == Initial
      invariant body == Flatten(outs)
      decreases |events| - i
    {
      var lines, h := session.Advance(worlds, events, i, states, outs, halts);
      FlattenSnoc(outs, lines);
      body, halt := body + lines, h;
      states, outs, halts := states + [session.Current()], outs + [lines], halts + [h];
      i := i + 1;
    }
    out := [announce] + body;
  }

}
