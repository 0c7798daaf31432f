# web-code process coordination and live updates, in Dafny

This project models the coordination core of `index.js` of web-code, a
locally run editor server. The core has three parts.

- **The single-instance lock.** The `web-code.lock` record and the hand-off
  of a new invocation's path to the process that already runs.
  - The first invocation creates the lock file and writes
    `pid + "\n" + lastWorkingDir` into it.
  - A later invocation finds the lock busy. If it was given a path, it
    replaces line 1 of the record with that path, rewrites the whole record,
    and only then sends SIGPIPE to the pid on line 0.
  - The owner's SIGPIPE handler re-reads line 1 into `lastWorkingDir` and
    opens a view. It keeps the lock.
  - Only the `exit` handler removes the lock. SIGTERM and SIGINT reach it
    through `process.exit`.
- **The socket registry and its heartbeat.** On connect a socket is alive,
  owns a fresh watcher and gets one `HANDSHAKE`. Every pong marks it alive
  again. Each sweep terminates the sockets whose flag is already false, and
  clears the flag of the others and pings them. Closing a socket, directly
  or through termination, destroys its watcher and nulls the reference.
- **The watcher-event mapping.** Each watcher event becomes one
  `[type, null, payload]` envelope:
  - `change` gives `FS_CHANGE`;
  - `add` and `addDir` give `FS_ADD`;
  - `unlink` and `unlinkDir` give `FS_UNLINK`.

Modules, one per component:

- `Wrappers` (wrappers.dfy): `Option`.
- `Text` (text.dfy): JavaScript's `split('\n')` and `join('\n')`, and the
  decimal text of a pid. Round trips are proved in both directions.
- `Lock` (lock.dfy): the `lastWorkingDir` value, which can be JavaScript
  `false`, `undefined` or a string. Also the `Host`, which holds the lock file
  and a log of outward events (record writes, signals, unlocks, opened views),
  and one launch as a pure step `Launch`, with its lemmas.
- `Envelopes` (envelopes.dfy): the envelope datatype, the event mapping, the
  handshake and a client-side reading of them.
- `Heartbeat` (heartbeat.dfy): sessions, the sweep, pong, connect and close
  as functions on the registry, the registry invariant `Wf` and the liveness
  lemmas.
- `WebCode` (server.dfy): the owning process as a class `Server`, whose
  methods update its fields. Also the start-up method `Start` and the
  hand-off scenario.

The lock file is modelled as its text (`Option<string>`), not as a list of
lines. Reading a record back is therefore `split('\n')` of what was last
written, as in the source. One consequence is proved in `NewlineInPathIsCut`:
for every record, a requested path that contains a line feed is cut at its
first line feed when the owner re-reads line 1.

Three behaviours of the code shape the model:

- With no argument the record is `<pid>\nfalse`, because `false` is
  concatenated into it. An owner re-reading that record gets the truthy
  string `"false"` (`NoArgumentRecord`).
- The SIGPIPE handler reads the record synchronously, inside the handler.
- Every error from `lockFile.lock` takes the busy branch (index.js:27). The
  model has only the busy case: the lock is busy exactly when the lock file
  exists.

## Model

| member | source | states |
|---|---|---|
| Text.Split | index.js:29 | `split('\n')` gives at least one line, no line holds a line feed, and there is exactly one line iff the text has no line feed |
| Text.Join | index.js:39 | `join('\n')` starts with the first line, followed by a line feed when there is a second; `JoinSplit` and `SplitJoin` make it the inverse of `Split` |
| Text.JoinSplit | index.js:29-39 | joining the split lines of any record gives the record back, so rewriting keeps every untouched byte |
| Text.JoinEmptyFirst | index.js:39 | joining after an empty first line is a line feed followed by the join of the rest |
| Text.JoinConsFirst | index.js:39 | joining after a character is put in front of the first line is that character followed by the join of the lines |
| Text.SplitJoin | index.js:39-41 | splitting joined lines that hold no line feed gives the same lines back |
| Text.JoinKeepsFirstLine | index.js:39-41 | line 0 of a joined record is the first line, whatever the other lines hold |
| Text.Decimal | index.js:47 | the pid text is non-empty, all decimal digits, and has no line feed |
| Text.DecimalRoundTrip | index.js:41 | the pid text, read back as `kill` reads it, is the same pid |
| Text.DecimalInjective | index.js:41 | different pids have different texts |
| Lock.InitialDir | index.js:20-23 | `lastWorkingDir` starts as the resolved path when an argument was given, and otherwise as `false`; it is never `undefined` at start-up |
| Lock.Host.constructor | index.js:25 | the host starts with no lock file and no outward events |
| Lock.SetLine1 | index.js:34 | `data[1] = p` sets line 1 to `p`, keeps line 0 and all later lines, and grows a one-line record to two lines |
| Lock.OwnerRecord | index.js:47 | the owner's record starts with its pid text and a line feed; `OwnerRecordReadBack` gives both of its lines |
| Lock.BusyRecord | index.js:29-39 | the rewritten record starts with the recorded owner and a line feed; `BusyRewriteLines` and `NewlineInPathIsCut` give its other lines |
| Lock.RecordedOwner | index.js:41 | `data[0]` is the part of the record before its first line feed |
| Lock.RecordedDir | index.js:147-148 | `data[1]` is never `false`; it is a path (holding no line feed) exactly when the record has a line feed, and `undefined` otherwise |
| Lock.Launch | index.js:25-47 | a launch serves iff there is no lock file, and then writes exactly `pid\nlastWorkingDir`; without a path, a busy launch changes nothing and emits nothing |
| Lock.OwnerRecordReadBack | index.js:47 | the owner's record splits into exactly its pid text and its directory text |
| Lock.OwnerRecordOwner | index.js:47 | line 0 of the owner's record is its pid text, for every directory value |
| Lock.NoArgumentRecord | index.js:21-47 | without an argument the record is `<pid>\nfalse`, and its line 1 reads back as the string `"false"` |
| Lock.BusyRewriteLines | index.js:29-39 | the busy rewrite keeps line 0 and every line after line 1, puts the path on line 1, and gives the record at least two lines |
| Lock.BusyKeepsOwner | index.js:29-41 | no busy rewrite changes the owner on line 0, whatever path it writes |
| Lock.HandOff | index.js:34-42 | a busy launch with a path writes the record first and then signals the pid on line 0, once; the owner re-reading line 1 sees the path |
| Lock.NewlineInPathIsCut | index.js:29-148 | for every record and every path holding a line feed, the owner re-reading line 1 gets only the part of the path before its first line feed, which differs from the path |
| Lock.BusyLaunches | index.js:25-44 | every launch on a held lock is busy, keeps the recorded owner, hands off iff it has a path, and signals only that owner |
| Lock.MutualExclusion | index.js:25-47 | of any number of launches on a free lock, exactly the first serves, and every hand-off signals the first launch's pid |
| Envelopes.ToEnvelope | index.js:92-106 | every watcher event gives an envelope with a null middle element and a non-handshake type; the type is `FS_UNLINK` and the payload is the raw object exactly for removals |
| Envelopes.HandshakePath | index.js:118 | `lastWorkingDir \|\| false` is a non-empty path or `false`: the directory itself when it is truthy, `false` otherwise |
| Envelopes.HandshakeEnvelope | index.js:117-119 | the handshake has type `HANDSHAKE`, no correlation id, and the payload `{path: lastWorkingDir \|\| false}` |
| Envelopes.EventRoundTrip | index.js:92-106 | reading an envelope back gives the event, with `addDir` read as `add` and `unlinkDir` as `unlink` |
| Envelopes.AddRoundTrip | index.js:95-96 | an `add` of document D gives one `FS_ADD` envelope that reads back as D |
| Envelopes.EnvelopeRoundTrip | index.js:92-106 | every readable pushed envelope is exactly the one its read-back event produces |
| Envelopes.SameEnvelope | index.js:92-106 | two events give the same envelope iff they agree up to the file/directory distinction |
| Envelopes.TagsDistinct | index.js:93-105 | the four wire tags are pairwise distinct |
| Heartbeat.Opened | index.js:91-114 | a new socket is alive and holds the watcher it was given |
| Heartbeat.AfterClose | index.js:108-110 | after the close handler the socket's watcher reference is null |
| Heartbeat.CloseLog | index.js:109 | the close handler destroys exactly the watcher the socket holds, and nothing when it holds none |
| Heartbeat.Answered | index.js:75-77 | a pong sets that socket's flag to true, keeps its identity and watcher, and changes no other socket |
| Heartbeat.Kept | index.js:79-86 | every socket left open by a sweep has its flag false |
| Heartbeat.Evicted | index.js:81-110 | every socket terminated by a sweep has had its watcher reference nulled |
| Heartbeat.SweepLog | index.js:80-85 | a sweep emits at least one action per socket; `SweepPings`, `SweepTerminates` and `SweepReleases` say which |
| Heartbeat.SweepSplitsIds | index.js:80-85 | each socket is either kept or terminated by a sweep, never both and never neither |
| Heartbeat.SweepReleases | index.js:79-112 | a sweep destroys exactly the watchers of the sockets it terminates, and the kept sockets hold all the others |
| Heartbeat.SweepPings | index.js:83-84 | a sweep pings exactly the sockets it keeps |
| Heartbeat.SweepTerminates | index.js:81 | a sweep terminates exactly the sockets whose flag was already false |
| Heartbeat.FindKept | index.js:80-85 | a sweep treats each socket by its own flag, independently of the others |
| Heartbeat.SweepPerSession | index.js:80-85 | a socket whose flag is false is terminated and not pinged; any other socket stays with its flag false and is pinged exactly once |
| Heartbeat.SweepCountsAt | index.js:80-85 | a socket of a registry with distinct identities appears once among the kept sockets when its flag was true and once among the evicted ones otherwise, never in both |
| Heartbeat.ReleasedOnce | index.js:108-112 | under the registry invariant no watcher is destroyed twice or shared by two sockets; each allocated watcher is held or destroyed, never both |
| Heartbeat.WfConnect | index.js:88-119 | a connect keeps the registry invariant, because the new identity and watcher are fresh |
| Heartbeat.WfPong | index.js:75-77 | a pong keeps the registry invariant |
| Heartbeat.WfSend | index.js:92-106 | sending an envelope keeps the registry invariant |
| Heartbeat.WfClose | index.js:108-112 | a close keeps the registry invariant: the socket leaves and its watcher is destroyed once |
| Heartbeat.WfSweep | index.js:79-86 | a sweep keeps the registry invariant |
| Heartbeat.PongAllUnion | index.js:75-77 | two batches of pongs before one sweep act as one batch from both sets of sockets |
| Heartbeat.SweepIsRound | index.js:79-86 | a sweep with no pongs before it is one interval of `Rounds` with an empty pong set |
| Heartbeat.AnsweredIsPong | index.js:75-77 | in a registry with distinct identities, the pong handler on one socket is the pong batch of that socket alone |
| Heartbeat.PongThenRound | index.js:75-86 | a pong handled before an interval joins that interval's pong set, so a run of pong handlers and sweeps is a run of `Rounds` |
| Heartbeat.RoundLocal | index.js:75-86 | one interval of pongs and a sweep acts on each socket separately, as a pong then a sweep of that socket alone |
| Heartbeat.RoundsLocal | index.js:75-86 | any number of intervals act on each socket separately |
| Heartbeat.FateSurvives | index.js:75-86 | one socket survives a run of sweeps iff it was alive or ponged before the first sweep, and ponged before every later one |
| Heartbeat.Survival | index.js:75-86 | the same iff for a socket inside the registry, over any number of sweeps |
| Heartbeat.AnsweringSessionStays | index.js:75-86 | a socket that pongs before every sweep is never terminated |
| Heartbeat.SilentSessionEvictedOnSecondSweep | index.js:79-114 | a newly connected socket that never pongs survives the first sweep and is terminated on the second |
| Heartbeat.FindConnect | index.js:88-91 | a connect of another socket leaves every other socket as it was |
| Heartbeat.FindClose | index.js:108-112 | a close of another socket leaves every other socket as it was |
| Heartbeat.RoundAfterConnect | index.js:75-91 | an interval after another socket connected acts on this socket exactly as `Cycle` says |
| Heartbeat.RoundAfterClose | index.js:75-112 | an interval after another socket closed acts on this socket exactly as `Cycle` says, and identities stay distinct |
| Heartbeat.SilentWatcherDestroyedOnce | index.js:79-110 | the sweep that terminates a silent socket destroys its watcher exactly once, and over the whole history that watcher is destroyed exactly once |
| WebCode.Server.constructor | index.js:49-131 | the serving process starts with an empty registry, its pid and its start-up `lastWorkingDir` |
| WebCode.Server.Connect | index.js:88-121 | the new socket is alive, owns a watcher no one held or destroyed, and is sent one handshake carrying `lastWorkingDir \|\| false` |
| WebCode.Server.Emit | index.js:92-106 | a watcher event sends exactly one envelope, the mapped one, to that watcher's socket |
| WebCode.Server.Pong | index.js:75-77 | the pong handler sets that socket's flag; the new registry is the pong batch of that one socket. With `Sweep` as an empty round and the connect/close locality lemmas, each socket's fate in a run of the class is the `Fate` of its own pongs |
| WebCode.Server.Close | index.js:108-112 | the watcher is destroyed once, the reference is nulled, and the socket leaves the registry |
| WebCode.Server.Sweep | index.js:79-86 | the registry, the closed sockets and the output are those of one sweep (an interval with no further pongs), and the invariant holds |
| WebCode.SweepEach | index.js:80-85 | the loop over the registry yields exactly the sockets a sweep keeps, appends the ones it terminates to the closed list and its per-socket output to the log, and keeps the registry invariant |
| WebCode.Server.Redirect | index.js:146-155 | SIGPIPE sets `lastWorkingDir` to line 1 of the current record (or `undefined`) and opens a view; the lock file is untouched |
| WebCode.Server.Exit | index.js:133-136 | the `exit` handler removes the lock file |
| WebCode.Server.OnSignal | index.js:138-157 | SIGTERM and SIGINT release the lock and end the process and keep `lastWorkingDir`; SIGPIPE keeps both the lock and the process, and with no lock file changes nothing |
| WebCode.Start | index.js:25-47 | the host's lock file and events follow `Launch`, and a serving setup exists iff the lock was free |
| WebCode.HandOffScenario | index.js:20-155 | first launch without an argument: it serves and its handshake says `false`. Second launch with a path: it hands off, writes before it signals the first pid, and the owner reads the path back. `WebCode.RunHandOff` plays the same scenario on a `Host` object with `Start`, `Connect` and `ServeHandedOff`, checking each step with assertions |
| WebCode.ServeHandedOff | index.js:114-157 | on the owner, a SIGPIPE over a record whose line 1 is `dir` makes the next socket's handshake carry `dir`, and a SIGTERM after it leaves no lock file and no running server |

## Left out

- Static file serving and the `/api/` mount (index.js:49-73): HTTP plumbing outside the core.
- `server.listen`, the port, `console.log` and the `termux-open-url` command: the view opened at start-up and on SIGPIPE is the abstract `OpenView` event.
- How a signal is delivered: the busy process's `kill -s 13` is a `Signal(target)` event naming line 0 of the record. What happens when no process has that pid is not modelled: `execSync` throws, and stale locks go undetected.
- File-system failures: any error from `lockFile.lock` takes the busy branch (index.js:27), and `readFileSync` then throws if the file is missing. The model has no such failures: the busy case always finds a record to read. Failures of `writeFileSync` are not modelled either.
- The window between `lockFile.lock` creating an empty lock file and the owner's `writeFileSync`: acquisition and the first write are one step here. So the model cannot show a busy launch reading an empty record in that window.
- Concurrency and timing: the `ws` callbacks, `setInterval` and the asynchronous `close` after `terminate()` are discrete method calls. Termination runs the close path at once.
- `JSON.stringify` and `wsSendFormat` (from lib/ws-routing, which is not part of this model): envelopes are datatypes, not text. The handshake is taken to be the same `[type, null, payload]` triple.
- Inbound message routing (`wsRouting`) and the send-error callbacks `e => console.log(e)`.
- The watcher class `Client` and `stats.toDoc()` (lib/client, which is not part of this model): watcher events are inputs, and a `Doc` payload carries the stats value whose `toDoc()` would be sent.
- Joining the arguments and `path.resolve`: `InitialDir` takes the argument text and the resolved path as given strings.
- WebCode.Server.Redirect: when the lock file is missing, `readFileSync` throws inside the source's handler. The model returns `ok == false` and changes nothing, and does not model the crash that follows.
- WebCode.Server.Exit: ending the process does not close the open sockets in the model.
