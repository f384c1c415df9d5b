# unison-fsmonitor session model

unison-fsmonitor is a bridge between the Unison file synchroniser and the
file-system watcher of the operating system. It talks to Unison over a line
protocol on stdin and stdout. Each line is a command word followed by
percent-encoded arguments.

Unison starts replicas (`START id root`), follows symbolic links (`LINK f`),
and waits on replicas (`WAIT id`). It pulls the changed paths of a replica
with `CHANGES id`, which the bridge answers with `RECURSIVE path` lines and
then `DONE`. It stops watching a replica with `RESET id`.

Between commands, the bridge turns raw watcher events into pending changes.
Each event path is fanned out through the registered links. Every resulting
path is then filed, relative to its root, under every replica whose root is a
component prefix of it, and the bridge pushes `CHANGES id` for each replica
hit.

The project models the single consumer loop of `src/main.rs`:

- `text.dfy`: whitespace and slash splitting (`split_whitespace`, path pieces).
- `paths.dfy`: paths as component sequences. `starts_with` and `strip_prefix`
  are component-wise. `join` joins the texts and reads them again, so a
  leading `.` of the second path is dropped. The text-to-path conversion is
  concrete, and display of a path round-trips.
- `protocol.dfy`: `send_cmd` and its helpers, and `parse_input`. The
  percent codec is kept abstract.
- `engine.dfy`: the session state (`replicas`, `pending_changes`, `link_map`,
  `replica_path`) and one loop iteration as a pure transition `Next`.
  - The transition gives the next state, the lines written, the watcher calls
    made and whether the process ends.
  - Lines whose order comes from hash-set iteration are specified up to
    order.
- `session.dfy`: the same loop as a class whose methods update those
  variables in place with the source's nested loops. Each method is proved
  to agree with `Next`. `Run` announces `VERSION 1` and steps through a
  sequence of events until one of them ends the process.
- `properties.dfy`: what the session promises, stated about `Next`.

Where the documented behaviour of the tool and the code differ, the model
follows the code:

- A blank line parses to the empty verb, which the command table reports as
  `ERROR Unexpected cmd: ` before exiting. It is not treated as a no-op.
- `RESET r` passes the replica id itself, read as a path, to `unwatch`. It
  does not pass the replica's root.
- `START` does not clear a pending entry left over under a reused id.
- `START` stores the new root as `replica_path` before the watch is
  attempted, so a failed watch still changes `replica_path`. The replica
  itself is registered only after the watch succeeds.

## Model

| member | source | states |
|---|---|---|
| Text.Words | src/main.rs:63 | every word that `split_whitespace` yields is a non-empty run without whitespace |
| Text.NoTokensIffSeparators | src/main.rs:63 | a line yields no words exactly when it is whitespace only |
| Paths.StripPrefix | src/main.rs:202 | strip_prefix succeeds exactly when the base is a component prefix, and base joined with the rest gives back the path |
| Paths.Join | src/main.rs:148 | join appends a relative path without its leading `.` (kept whole only on an empty base), and strip_prefix then recovers what was appended; an absolute second path replaces the base |
| Paths.PathOf | src/main.rs:137-140 | the components of a string are well formed, and the path is absolute exactly when the string starts with '/' |
| Paths.DisplayRoundTrip | src/main.rs:170 | the model's text of a path (the normalised form it writes in a RECURSIVE line) denotes that same path |
| Protocol.SendCmd | src/main.rs:28-37 | the line is the command followed by " " and the encoded argument for each argument, in order |
| Protocol.AckLine | src/main.rs:39-41 | send_ack writes exactly `OK` |
| Protocol.ChangesLine | src/main.rs:43-45 | send_changes writes `CHANGES ` and the encoded replica id |
| Protocol.RecursiveLine | src/main.rs:47-49 | send_recursive writes `RECURSIVE ` and the encoded path |
| Protocol.DoneLine | src/main.rs:51-53 | send_done writes exactly `DONE` |
| Protocol.ErrorLine | src/main.rs:55-58 | send_error writes `ERROR ` and the encoded message |
| Protocol.VersionLine | src/main.rs:115 | the start-up announcement is `VERSION ` and the encoded "1" |
| Protocol.ParseInput | src/main.rs:60-71 | the loop over words yields the first word verbatim as the verb and every later word decoded, in order |
| Protocol.ParseVerb | src/main.rs:60-71 | the verb is empty exactly when the line is blank; a blank line parses to ("", []); a non-empty verb is one whitespace-free word |
| Protocol.WordsOfCommandLine | src/main.rs:28-37 | the words of a line written by send_cmd are the command and the encoded arguments, provided none is empty or holds whitespace |
| Protocol.ParseCommandLine | src/main.rs:28-71 | parsing a line written by send_cmd gives back the command and decode(encode(arg)) for every argument, under the same proviso |
| Engine.Candidates | src/main.rs:195-206 | the candidate set of an event always holds the event path itself, and nothing more when no link is registered (its full content is `Engine.CandidatesSpec`); `Session.Session.CandidatePaths` is proved to build it |
| Engine.Matched | src/main.rs:208-211 | the matched replicas are registered ones, and no candidates match none; `Session.Session.Attribute` is proved to return it |
| Engine.Record | src/main.rs:208-220 | recording candidates keeps every pending entry and path and adds entries only for matched replicas; `Session.Session.Attribute` is proved to leave it |
| Engine.OnFsEvent | src/main.rs:190-226 | an FS event changes only pending changes, calls no watcher, never exits and writes only CHANGES lines; without a path it changes nothing; `Session.Session.FsEventStep` is proved to follow it |
| Engine.OnVersion | src/main.rs:128-133 | VERSION changes nothing, writes nothing, and continues exactly when its argument is "1" |
| Engine.OnStart | src/main.rs:134-144 | START sets replica_path and calls watch on the root even when the watch fails; it registers the replica exactly when the watch succeeds; without two arguments it stops unchanged |
| Engine.OnLink | src/main.rs:145-154 | LINK changes only the link map, leaves the state unchanged when it stops, makes at most one watcher call, and writes OK on success |
| Engine.OnWait | src/main.rs:158-164 | WAIT changes nothing and continues exactly when its argument is a registered replica |
| Engine.OnChanges | src/main.rs:165-174 | CHANGES removes exactly its replica's pending entry, changes nothing else and calls no watcher |
| Engine.OnReset | src/main.rs:175-181 | RESET writes nothing, calls unwatch on the path of its argument, continues exactly when that succeeds, and then removes just that replica |
| Engine.OnCommand | src/main.rs:127-188 | the command table: only CHANGES touches pending changes, only START and RESET touch replicas, only LINK touches links, only START touches replica_path, only START, LINK and RESET call the watcher, and no command writes CHANGES lines |
| Engine.Next | src/main.rs:119-228 | one loop iteration: an FS event calls no watcher, never exits and changes no replica or link, and only FS events write CHANGES lines; `Session.Session.Step` is proved to follow it, and the lemmas of `properties.dfy` are stated about it |
| Engine.CandidatesSpec | src/main.rs:195-206 | the candidate set holds the event path, and the link joined with the rest of the path for every link of every registered real path that is a prefix of it, and nothing else |
| Engine.RecordAddCandidate | src/main.rs:208-220 | filing one more candidate under every replica extends the filing of the earlier candidates by that candidate |
| Engine.TraceExtend | src/main.rs:119-228 | a run extended by one transition of the loop is a run |
| Session.SendChanges | src/main.rs:223-225 | one `CHANGES id` line per matched replica, in an order that lists each id once |
| Session.SendRecursive | src/main.rs:165-174 | one `RECURSIVE` line per path of the removed set, in an order that lists each path once, then `DONE` |
| Session.Session.constructor | src/main.rs:82-91 | the session starts with no replicas, no pending changes, no links and an empty `replica_path` |
| Session.Session.CandidatePaths | src/main.rs:195-206 | the nested loops over link_map build exactly the candidate set |
| Session.Session.FileCandidate | src/main.rs:209-219 | the loop over replicas files the candidate, root-stripped, under each replica whose root is a prefix of it, and returns those replicas |
| Session.Session.Attribute | src/main.rs:208-220 | the loop over candidates leaves pending_changes as the filing of all candidates, and returns the matched replicas |
| Session.Session.FsEventStep | src/main.rs:190-226 | the FSEvent arm updates the state and writes the lines as the transition says, and keeps every pending set non-empty |
| Session.Session.Version | src/main.rs:128-133 | VERSION writes nothing; it panics without an argument and fails on any version but "1" |
| Session.Session.Start | src/main.rs:134-144 | START changes the state, writes and calls the watcher as the transition says |
| Session.Session.Link | src/main.rs:145-154 | LINK changes the link map, writes and calls the watcher as the transition says |
| Session.Session.Wait | src/main.rs:158-164 | WAIT is silent for a registered replica and reports `Unknown replica` otherwise |
| Session.Session.Changes | src/main.rs:165-174 | CHANGES removes the replica's pending entry and writes its drain |
| Session.Session.Reset | src/main.rs:175-181 | RESET unwatches the id read as a path and then forgets the replica, as the transition says |
| Session.Session.Command | src/main.rs:127-188 | the command table behaves as the transition for that verb and arguments |
| Session.Session.Step | src/main.rs:119-228 | one loop iteration is the transition, and the watcher calls are appended to the log |
| Session.Session.Advance | src/main.rs:119-228 | one more iteration extends the run recorded so far |
| Session.Run | src/main.rs:115-228 | `VERSION 1` first, then the lines of each step in order; every step is a transition; the loop stops exactly at the first step that ends the process or when the events run out |
| Properties.PushLinesOnePerReplica | src/main.rs:223-225 | a push has one line per matched replica, each replica's CHANGES line appears, and every line is the CHANGES line of some matched replica |
| Properties.DrainLinesThenDone | src/main.rs:169-173 | a drain has one line per pending path plus a final `DONE`, and every earlier line is the RECURSIVE line of a pending path, each of them present |
| Properties.DrainNothing | src/main.rs:168-173 | draining an empty set writes exactly `DONE` |
| Properties.PushNothing | src/main.rs:223-225 | pushing no replica writes nothing |
| Properties.RecordFilesEveryHit | src/main.rs:208-216 | every candidate under a root is filed under that replica, and root plus relative path is the candidate |
| Properties.RecordGainsOnlyHits | src/main.rs:208-216 | each path a replica gains is a candidate under its root with the root stripped |
| Properties.RecordLeavesOthers | src/main.rs:208-216 | a replica that no candidate falls under keeps its pending entry unchanged |
| Properties.FsEventTouchesOnlyPending | src/main.rs:190-226 | an FS event changes no replica, link or replica_path, calls no watcher and does not exit; without a path it changes nothing and writes nothing |
| Properties.FsEventFilesCandidates | src/main.rs:195-220 | every candidate under a replica's root is filed there root-stripped, and every new entry is such a candidate |
| Properties.FsEventKeepsPending | src/main.rs:208-220 | an FS event never drops a pending path, and adds entries only for registered replicas |
| Properties.FsEventPushesMatched | src/main.rs:208-225 | an FS event pushes exactly the replicas some candidate lies under; the others keep their pending entries |
| Properties.MatchedUnder | src/main.rs:209-211 | the matched replicas are the registered ones with a candidate under their root |
| Properties.FsEventThroughLink | src/main.rs:198-216 | an event below a registered real path reaches a replica through a link to that real path |
| Properties.FsEventNoLeak | src/main.rs:208-225 | a replica with no candidate under its root is neither pushed nor changed |
| Properties.SegmentBoundary | src/main.rs:199 | `/repo1` is not a prefix of `/repo12/f`, because prefixes are compared by component |
| Properties.JoinDropsCurDir | src/main.rs:148 | joining `./x` onto `/r` gives the path of `/r/x`, without the `.` component |
| Properties.ChangesDrains | src/main.rs:165-174 | CHANGES r removes r's entry and nothing else, and writes one RECURSIVE line per path that was pending for r, then DONE |
| Properties.ChangesTwice | src/main.rs:165-174 | a second CHANGES r with nothing in between writes exactly DONE |
| Properties.StartRegisters | src/main.rs:134-144 | START sets replica_path and watches the root; on success it registers or overwrites the replica and writes OK; on failure the process ends with the replica not registered |
| Properties.LinkRegisters | src/main.rs:145-154 | LINK records replica_path joined with the file under its canonical path and writes OK; a failure to canonicalise or to watch ends the process with the state unchanged |
| Properties.ResetForgets | src/main.rs:175-181 | RESET unwatches the id read as a path; on success it removes only that replica and leaves pending changes intact; on failure the process ends |
| Properties.ResetSilences | src/main.rs:175-181 | after a successful RESET r, no FS event pushes r or changes its pending entry |
| Properties.VersionChecks | src/main.rs:128-133 | VERSION is silent for "1" and ends the process for any other version, with the state unchanged |
| Properties.WaitChecks | src/main.rs:158-164 | WAIT is silent for a registered replica, and otherwise writes `ERROR Unknown replica: r` and ends the process |
| Properties.QuietCommands | src/main.rs:155-157 | DIR writes OK; DEBUG and DONE do nothing |
| Properties.UnknownVerbFatal | src/main.rs:185-187 | any other verb writes `ERROR Unexpected cmd: <verb>` and ends the process |
| Properties.BlankLineFatal | src/main.rs:60-71 | a blank line is reported as `Unexpected cmd: ` and ends the process |
| Properties.MissingArgumentPanics | src/main.rs:129 | a command that takes an argument panics without one, with the state untouched |
| Properties.LinksOnlyGrow | src/main.rs:152 | no event removes a real path or a link from the link map |
| Properties.NextKeepsInv | src/main.rs:119-228 | every step keeps all pending sets and link sets non-empty |

## Left out

- The two producer threads, the channels and the blocking stdin read. The input is a sequence of already-merged events, and a failed channel receive is not modelled.
- The watcher library and `std::fs::canonicalize`. The answers of `watch`, `unwatch` and `canonicalize` are supplied with each event, and a failure of any of them ends the process. Calls to `watch` and `unwatch` are recorded in a ghost log; `canonicalize` is not logged.
- Percent-encoding. `encode` and `decode` are uninterpreted functions. No `decode(encode(s)) == s` round trip is assumed, because the simple encode set leaves spaces and `%` unescaped.
- The order of CHANGES and RECURSIVE lines. It comes from hash-set iteration, so it is specified only up to order.
- Logging, `env_logger`, and the process exit itself. An exit is a terminal outcome.
- Lossy string conversion. Paths and strings are sequences of characters, and invalid UTF-8 does not arise.
- Windows path prefixes, and `..` components, which the model keeps as ordinary components.
- The infinite loop. `Run` takes a finite sequence of events.
- Engine.RecursiveLines: a RECURSIVE line carries the normalised text of the pending path's components. The source writes the text of the stored `strip_prefix` result, which keeps inner `//` and `/./` from the event or link path (after `LINK a//b` it writes `a//b/f` where the model writes `a/b/f`). Paths are compared by components in both, so only the written text differs.
- Session.Run: the lines are collected and the announcement is put in front at the end, rather than printed one at a time. The resulting sequence of lines is the same.
- Session.Session.Advance: it keeps the transition but not the watcher log, which `Step` states.
