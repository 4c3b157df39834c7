# xIM flow tracker in Dafny

xIM (xApp Isolation Monitor) watches file I/O on a host and warns when one
workload reads a path that a different workload wrote earlier. Workloads are
processes, containers or pods, depending on the configured granularity. This
project models the monitor's analysis engine as pure functions over an
immutable state and proves its security properties.

The engine's state has two parts:

- `written`: the source's `written_paths`, mapping each path to the set of workloads that wrote it.
- `flows`: the source's `cross_app_flows`, the set of `(writer, path, reader)` flows already reported.

Each I/O event is dispatched by direction:

- A write adds the writer to the path's writer set.
- A read of a written path reports every not-yet-reported flow into the reader from each writer other than the reader. Each reported flow stands for one warning.

The model is laid out in five modules:

- `Wrappers` (`wrappers.dfy`): `Option` and `Result`. A `Result` stands for a Python call that returns a value or raises.
- `Granularity` (`granularity.dfy`): the process/container/pod choice, how the `--granularity` argument selects it, and the record field that names the workload at each granularity.
- `RawRecord` (`raw_record.dfy`): turning one line of capture output into a record. The line is split with `str.split()`, each token with `split(':', 1)`, and the pairs go through `dict`. Python's `ValueError` and `KeyError` are modelled as the datatype `Fault`.
- `FlowTracker` (`flow_tracker.dfy`): the tracker state, its operations and the per-event properties:
  - `Write` and `Read`;
  - `ReadLoop`, the source's per-writer loop;
  - `ProcessEvent`, the typed dispatch;
  - `Decode` and `ProcessIoEvent`, the key lookups and the dispatch on a parsed record;
  - the invariant `Valid` and the growth relation `Extends`.
- `Session` (`session.dfy`): runs over sequences of events and the analysis loop over lines of output. It proves:
  - per-session dedup;
  - a characterisation of the final state by the event history;
  - a round trip from a line of capture output, in the requested output format, to the event it stands for;
  - five example sessions: a self-read, two writers, a repeated read, a late writer, and a read of an unwritten path.

Behaviour of the program that the model keeps, although a reader might expect otherwise:

- The program does not drop a malformed record. A token without `:` makes `dict` raise `ValueError`, and a missing field makes a lookup raise `KeyError`. Either exception ends the analysis loop and the program, and the state built and the warnings emitted before that stay as they were. `Consume` and `Analyze` model exactly this.
- Nothing checks that a path or a workload name is non-empty. A token `fd_name:` gives an empty path, which is tracked like any other.
- An `evt_io_dir` value other than `write` or `read` causes no further lookups. It is not an error, and the state is unchanged.
- `str.split()` splits a path or name that contains whitespace into several tokens. Such a line either raises (a piece without `:`) or records a wrong value. `DecodeCaptureLine` therefore requires every value on the line to be whitespace-free.

## Model

| member | source | states |
|---|---|---|
| Granularity.Resolve | src/xIM.py:39-41 | the granularity is Container exactly when the argument is the string "container", Pod exactly when it is "pod", and Process otherwise, including when the flag is absent |
| Granularity.ResolveName | src/xIM.py:39-41 | spelling a granularity's name selects that granularity, and no argument selects Process |
| Granularity.IdentityField | src/xIM.py:13-17 | the identity field of a granularity is never `evt_io_dir` or `fd_name`, and it holds no ':' |
| Granularity.IdentityFieldInjective | src/xIM.py:13-17 | two granularities read the same identity field only if they are the same granularity |
| RawRecord.Tokens | src/xIM.py:98 | every token produced by `str.split()` is non-empty and free of whitespace |
| RawRecord.TokensOfJoin | src/xIM.py:98 | splitting single-space-joined words gives back exactly those words, in order |
| RawRecord.TokensSpaceSuffix | src/xIM.py:97-98 | a trailing whitespace character, such as the newline ending each line of output, adds no token |
| RawRecord.ParseLineSpaceSuffix | src/xIM.py:97-98 | a line parses the same with or without a trailing whitespace character |
| RawRecord.SplitField | src/xIM.py:98 | `split(':', 1)` yields a pair exactly when the token holds ':'; the pair's name holds no ':', and name + ":" + value rebuilds the token |
| RawRecord.SplitFieldOfRendered | src/xIM.py:98 | splitting `name:value` with a colon-free name gives back that name and that value, even when the value itself holds ':' |
| RawRecord.SplitTokens | src/xIM.py:98 | succeeds exactly when every token holds ':', with one split pair per token; otherwise it fails at the first token without ':' |
| RawRecord.BuildDict | src/xIM.py:98 | `dict` of pairs: the keys are exactly the pairs' names, and each name maps to the value of its last occurrence |
| RawRecord.ParseLine | src/xIM.py:98 | a line parses exactly when every token holds ':'; if not, the result is ValueError at the first token without ':'; on success the keys are the tokens' names and each key holds the value of the last token with that name |
| RawRecord.ParseRender | src/xIM.py:98 | rendering fields as `name:value` tokens and parsing the line gives the dict of those fields |
| FlowTracker.Write | src/xIM.py:113-127 | after a write of `p` by `w`, the writers of `p` are the old writers (none if `p` was new) plus `w`; every other path keeps its writers; the reported flows do not change |
| FlowTracker.WriteIdempotent | src/xIM.py:118-127 | repeating a write leaves the state as it was after the first write, and a write by a writer already recorded changes nothing |
| FlowTracker.Read | src/xIM.py:130-150 | a read never changes the writer map; it reports exactly the flows into the reader from a recorded writer of the path other than the reader that were not reported before, and adds them to the reported set |
| FlowTracker.ReadLoop | src/xIM.py:135-156 | the per-writer loop over the other writers, in any order the set yields them, with the not-yet-reported check and the reporting step, has exactly the outcome `Read` states |
| FlowTracker.ProcessEvent | src/xIM.py:102-108 | a write reports nothing, a read or other event leaves the writer map alone, an event of another direction changes nothing, and the reported set grows by exactly what was reported |
| FlowTracker.Decode | src/xIM.py:102-132 | missing `evt_io_dir` is KeyError('evt_io_dir'); a direction other than write/read gives the ignored event carrying that direction, whatever other fields are missing; for write/read, `fd_name` is looked up before the identity field, the first missing one is the KeyError, and a record holding both decodes to the write or read of that path by that workload |
| FlowTracker.DecodeEncode | src/xIM.py:102-132 | decoding the record of a write, read or other-direction event gives the event back |
| FlowTracker.ProcessIoEvent | src/xIM.py:102-132 | on a parsed record: 'write' goes to the write handler, 'read' to the read handler, any other direction leaves the state unchanged, and missing keys raise KeyError in the source's lookup order |
| FlowTracker.ReadUnwritten | src/xIM.py:134 | reading a path nobody has written changes nothing and reports nothing |
| FlowTracker.SelfLoopExcluded | src/xIM.py:136-138 | no reported flow has the reader as writer; if the reader is the path's only writer, nothing is reported and the state is unchanged |
| FlowTracker.ReadComplete | src/xIM.py:147-155 | after a read of `p` by `r`, every writer `w` of `p` other than `r` has the flow `(w, p, r)` in the reported set |
| FlowTracker.ReadTwice | src/xIM.py:149-150 | a repeated identical read reports nothing and changes nothing |
| FlowTracker.ProcessValid | src/xIM.py:113-155 | every event keeps the invariant: each recorded path has a writer, and each reported flow runs from a recorded writer of its path to a different workload |
| FlowTracker.ProcessExtends | src/xIM.py:113-155 | every event keeps all recorded paths, writers and reported flows, so state only grows |
| Session.RunEvents | src/xIM.py:96-99 | processing events in order yields one report set per event |
| Session.RunValid | src/xIM.py:113-155 | the invariant holds after any sequence of events from a valid state |
| Session.RunExtends | src/xIM.py:113-155 | writer sets and reported flows only grow over any sequence of events |
| Session.RunReportsOnce | src/xIM.py:149-155 | over a session each flow is reported at most once: no two events report the same flow, no event reports an already reported one, and the final reported set is the initial one plus everything reported |
| Session.ReplayWriters | src/xIM.py:113-127 | from an empty tracker, a workload is a recorded writer of a path exactly when the session contains a write of that path by it |
| Session.ReplayFlows | src/xIM.py:130-155 | from an empty tracker, a flow is reported exactly when its writer wrote the path before its reader read it and the two differ |
| Session.Consume | src/xIM.py:96-99 | without a fault, the loop handles every line; with a fault, it stops before the end |
| Session.ConsumeIsRun | src/xIM.py:96-99 | the loop's state and reports are those of running the events before the first fault, and its fault is that one |
| Session.AnalyzeIsRun | src/xIM.py:96-99 | on raw lines, the analysis loop equals the event run over the decoded prefix and ends with the first line's exception |
| Session.DecodeCaptureLine | src/xIM.py:74-132 | a newline-terminated line of capture output with the fields `evt_io_dir`, `fd_name`, `proc_name`, `container_id` (and `k8s_pod_name` in pod mode), all values whitespace-free, decodes at each granularity to the write, read or ignored event it stands for, read by the workload named in that granularity's field |
| Session.ParseCaptureLine | src/xIM.py:74-98 | such a line parses to the dict of its fields, the newline included |
| Session.ScenarioSelfRead | src/xIM.py:113-150 | write of /data/x by svcA, then read by svcA: no flow |
| Session.ScenarioTwoWriters | src/xIM.py:113-156 | writes by svcA and svcB, then read by svcC: exactly the two flows, both from the one read |
| Session.ScenarioRepeatedRead | src/xIM.py:146-156 | write by svcA, then two reads by svcB: one flow in total |
| Session.ScenarioLateWriter | src/xIM.py:113-156 | a writer added after a reported read yields only its own new flow on the next read |
| Session.ScenarioUnwrittenRead | src/xIM.py:134 | a read of a path nobody wrote: no flow |

## Left out

- Debug-only `read_paths` bookkeeping and the debug log lines (src/xIM.py:139-145): these affect log output only, never which flows are reported.
- Logging setup, the entry message and the warning text (src/xIM.py:44-57, 156): I/O. A warning is modelled as membership of the flow in an event's `reported` set.
- Command-line parsing beyond the granularity choice (src/xIM.py:31-37), including the debug flag: CLI glue.
- Launching the capture tool with `sudo`, the pod-mode endpoint, and blocking on its output (src/xIM.py:62-70, 97): external process and I/O. The stream of lines is a finite `seq<string>` parameter, so the unbounded stream is modelled by its finite prefixes.
- The capture tool's filter string and the `%`-placeholders of its output format (src/xIM.py:73-93): their meaning lies in the capture tool's filter language, which is not modelled. Only the field names and their order are modelled, in `CaptureFields`.
- The monitor's own user id (src/xIM.py:10): an operating-system call.
- RawRecord.Tokens: its own contract states only the shape of each token. Which tokens come out is stated by `TokensOfJoin` and `TokensSpaceSuffix`, for single-space joins and trailing whitespace. Runs of whitespace inside a line have no lemma of their own.
- Set iteration order: Python yields set elements in an unspecified order, so each event's reports are a set. `ReadLoop` shows that the outcome does not depend on that order.
