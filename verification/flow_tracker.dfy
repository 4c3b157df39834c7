/** The flow tracker (src/xIM.py:101-156): for every path, the set of
    workloads that have written it, and the set of (writer, path, reader)
    flows already reported. A write records its writer; a read of a written
    path reports, once each, the flows from every other writer to the
    reader. */
module FlowTracker {
  import opened Wrappers
  import opened Granularity
  import opened RawRecord

  type Path = string
  type Actor = string

  /** A cross-workload flow: `reader` read `path` after `writer` wrote it. */
  datatype Flow = Flow(writer: Actor, path: Path, reader: Actor)

  /** The tracker's state: `written` maps each written path to its writers
      (the source's `written_paths`), `flows` holds every flow reported so
      far (the source's `cross_app_flows`). */
  datatype Tracker = Tracker(written: map<Path, set<Actor>>, flows: set<Flow>)

  /** The state after one event, and the flows that event newly reported
      (one warning each, in no particular order). */
  datatype Step = Step(tracker: Tracker, reported: set<Flow>)

  /** An I/O event after its fields have been looked up: a write, a read,
      or an event whose direction is neither (kept with that direction). */
  datatype IoEvent =
    | IoWrite(path: Path, actor: Actor)
    | IoRead(path: Path, actor: Actor)
    | IoOther(dir: string)

  /** The state a monitoring session starts from. */
  function Init(): Tracker {
    Tracker(map[], {})
  }

  /** The recorded writers of `p`, empty when `p` has never been written. */
  function WritersOf(t: Tracker, p: Path): set<Actor> {
    if p in t.written then t.written[p] else {}
  }

  /** The tracker's invariant: a path is recorded only with at least one
      writer, and every reported flow runs from a recorded writer of its
      path to a different workload. */
  predicate Valid(t: Tracker) {
    && (forall p :: p in t.written ==> t.written[p] != {})
    && (forall f :: f in t.flows ==> f.writer in WritersOf(t, f.path) && f.writer != f.reader)
  }

  /** `t'` has everything `t` has: writer sets and reported flows only grow. */
  predicate Extends(t: Tracker, t': Tracker) {
    && t.written.Keys <= t'.written.Keys
    && (forall p :: p in t.written ==> t.written[p] <= t'.written[p])
    && t.flows <= t'.flows
  }

  /** process_write: `w` joins the writers of `p`; no other path changes and
      nothing is reported. */
  function Write(t: Tracker, p: Path, w: Actor): (t': Tracker)
    ensures t'.written.Keys == t.written.Keys + {p}
    ensures t'.written[p] == WritersOf(t, p) + {w}
    ensures forall q :: q != p ==> WritersOf(t', q) == WritersOf(t, q)
    ensures t'.flows == t.flows
  {
    if p !in t.written then
      t.(written := t.written[p := {w}])
    else if w !in t.written[p] then
      t.(written := t.written[p := t.written[p] + {w}])
    else
      t
  }

  /** process_read, stated over the whole set of other writers: the flows
      reported are exactly those from a recorded writer of `p` other than
      `r` that had not been reported before; they are added to the reported
      set and the writer sets are left alone. */
  function Read(t: Tracker, p: Path, r: Actor): (s: Step)
    ensures s.tracker.written == t.written
    ensures s.tracker.flows == t.flows + s.reported
    ensures forall f :: f in s.reported <==>
              && f.path == p && f.reader == r
              && f.writer in WritersOf(t, p) && f.writer != r
              && f !in t.flows
  {
    if p !in t.written then Step(t, {})
    else
      var others := t.written[p] - {r};
      var novel := set w | w in others && Flow(w, p, r) !in t.flows :: Flow(w, p, r);
      Step(t.(flows := t.flows + novel), novel)
  }

  /** process_read as the source runs it: copy the writers, discard the
      reader, then visit the remaining writers one at a time in whatever
      order the set yields them, reporting (process_cross_app_flow) each
      flow not yet in the reported set. Whatever the order, the outcome is
      the one `Read` describes. */
  method ReadLoop(t: Tracker, p: Path, r: Actor) returns (s: Step)
    ensures s == Read(t, p, r)
  {
    if p !in t.written {
      return Step(t, {});
    }
    var others := t.written[p] - {r};
    var flows := t.flows;
    var reported: set<Flow> := {};
    var remaining := others;
    while remaining != {}
      invariant remaining <= others
      invariant flows == t.flows + reported
      invariant forall f :: f in reported <==>
                  && f.path == p && f.reader == r
                  && f.writer in others && f.writer !in remaining
                  && f !in t.flows
      decreases remaining
    {
      var w :| w in remaining;
      if Flow(w, p, r) !in flows {
        flows := flows + {Flow(w, p, r)};
        reported := reported + {Flow(w, p, r)};
      }
      remaining := remaining - {w};
    }
    s := Step(Tracker(t.written, flows), reported);
    assert s.reported == Read(t, p, r).reported;
  }

  /** One event: writes go to `Write`, reads to `Read`, anything else is
      ignored. */
  function ProcessEvent(t: Tracker, e: IoEvent): (s: Step)
    ensures s.tracker.flows == t.flows + s.reported
    ensures e.IoWrite? ==> s.reported == {}
    ensures !e.IoWrite? ==> s.tracker.written == t.written
    ensures e.IoOther? ==> s == Step(t, {})
  {
    match e
    case IoWrite(p, w) => Step(Write(t, p, w), {})
    case IoRead(p, r) => Read(t, p, r)
    case IoOther(_) => Step(t, {})
  }

  /** The field lookups of process_io_event, process_write and
      process_read, in the order the source makes them: the direction
      first; for a write or a read, the path and then the identity field of
      granularity `g`. A missing field is a KeyError; a direction other
      than "write" or "read" looks nothing else up. */
  function Decode(g: Granularity, rec: Record): (r: Result<IoEvent, Fault>)
    ensures "evt_io_dir" !in rec ==> r == Failure(KeyError("evt_io_dir"))
    ensures "evt_io_dir" in rec && rec["evt_io_dir"] != "write" && rec["evt_io_dir"] != "read" ==>
              r == Success(IoOther(rec["evt_io_dir"]))
    ensures "evt_io_dir" in rec && rec["evt_io_dir"] in {"write", "read"} ==>
              if "fd_name" !in rec then r == Failure(KeyError("fd_name"))
              else if IdentityField(g) !in rec then r == Failure(KeyError(IdentityField(g)))
              else if rec["evt_io_dir"] == "write" then
                r == Success(IoWrite(rec["fd_name"], rec[IdentityField(g)]))
              else
                r == Success(IoRead(rec["fd_name"], rec[IdentityField(g)]))
    ensures r.Failure? ==> r.error.KeyError? && r.error.key !in rec
  {
    if "evt_io_dir" !in rec then Failure(KeyError("evt_io_dir"))
    else
      var dir := rec["evt_io_dir"];
      if dir != "write" && dir != "read" then Success(IoOther(dir))
      else if "fd_name" !in rec then Failure(KeyError("fd_name"))
      else if IdentityField(g) !in rec then Failure(KeyError(IdentityField(g)))
      else if dir == "write" then Success(IoWrite(rec["fd_name"], rec[IdentityField(g)]))
      else Success(IoRead(rec["fd_name"], rec[IdentityField(g)]))
  }

  /** A typed event written back as a record with the fields `Decode`
      reads. */
  function Encode(g: Granularity, e: IoEvent): Record {
    match e
    case IoWrite(p, w) => map["evt_io_dir" := "write", "fd_name" := p, IdentityField(g) := w]
    case IoRead(p, r) => map["evt_io_dir" := "read", "fd_name" := p, IdentityField(g) := r]
    case IoOther(d) => map["evt_io_dir" := d]
  }

  /** An event whose direction, when neither write nor read, is not
      spelled "write" or "read" either. */
  predicate WellFormed(e: IoEvent) {
    e.IoOther? ==> e.dir != "write" && e.dir != "read"
  }

  /** process_io_event on a parsed record. */
  function ProcessIoEvent(t: Tracker, g: Granularity, rec: Record): (r: Result<Step, Fault>)
    ensures "evt_io_dir" !in rec ==> r == Failure(KeyError("evt_io_dir"))
    ensures "evt_io_dir" in rec && rec["evt_io_dir"] != "write" && rec["evt_io_dir"] != "read" ==>
              r == Success(Step(t, {}))
    ensures "evt_io_dir" in rec && rec["evt_io_dir"] in {"write", "read"} ==>
              if "fd_name" !in rec then r == Failure(KeyError("fd_name"))
              else if IdentityField(g) !in rec then r == Failure(KeyError(IdentityField(g)))
              else if rec["evt_io_dir"] == "write" then
                r == Success(Step(Write(t, rec["fd_name"], rec[IdentityField(g)]), {}))
              else
                r == Success(Read(t, rec["fd_name"], rec[IdentityField(g)]))
  {
    match Decode(g, rec)
    case Failure(err) => Failure(err)
    case Success(e) => Success(ProcessEvent(t, e))
  }

  /** Decoding an encoded event gives the event back. */
  lemma DecodeEncode(g: Granularity, e: IoEvent)
    requires WellFormed(e)
    ensures Decode(g, Encode(g, e)) == Success(e)
  {
  }

  /** Repeating a write changes nothing, and a write of a recorded writer
      is already a no-op. */
  lemma WriteIdempotent(t: Tracker, p: Path, w: Actor)
    ensures Write(Write(t, p, w), p, w) == Write(t, p, w)
    ensures w in WritersOf(t, p) ==> Write(t, p, w) == t
  {
  }

  /** A read of a path nobody has written changes nothing and reports
      nothing. */
  lemma ReadUnwritten(t: Tracker, p: Path, r: Actor)
    requires p !in t.written
    ensures Read(t, p, r) == Step(t, {})
  {
  }

  /** Self-loop exclusion: no reported flow has the reader as its writer,
      so a reader that is the only writer of the path is reported nothing
      and the state is unchanged. */
  lemma SelfLoopExcluded(t: Tracker, p: Path, r: Actor)
    ensures forall f :: f in Read(t, p, r).reported ==> f.writer != r
    ensures WritersOf(t, p) <= {r} ==> Read(t, p, r) == Step(t, {})
  {
  }

  /** Completeness: after a read, the flow from every other writer of the
      path to the reader is in the reported set (reported now or before). */
  lemma ReadComplete(t: Tracker, p: Path, r: Actor)
    ensures forall w :: w in WritersOf(t, p) && w != r ==>
              Flow(w, p, r) in Read(t, p, r).tracker.flows
  {
  }

  /** Dedup for a repeated read: the second of two identical reads reports
      nothing and changes nothing. */
  lemma ReadTwice(t: Tracker, p: Path, r: Actor)
    ensures var t1 := Read(t, p, r).tracker;
            Read(t1, p, r) == Step(t1, {})
  {
  }

  /** Every event keeps the invariant. */
  lemma ProcessValid(t: Tracker, e: IoEvent)
    requires Valid(t)
    ensures Valid(ProcessEvent(t, e).tracker)
  {
  }

  /** Every event only adds writers and reported flows. */
  lemma ProcessExtends(t: Tracker, e: IoEvent)
    ensures Extends(t, ProcessEvent(t, e).tracker)
  {
  }
}
