/** A monitoring session: the analysis loop (src/xIM.py:96-99) feeding
    one event after another to the flow tracker, and what the tracker's
    state and reports amount to over a whole sequence of events. */
module Session {
  import opened Wrappers
  import opened Granularity
  import opened RawRecord
  import opened FlowTracker

  /** The state after a sequence of events, and the flows each event
      newly reported (`reports[i]` belongs to event `i`). */
  datatype Run = Run(tracker: Tracker, reports: seq<set<Flow>>)

  /** The events processed in order, starting from `t`. */
  function RunEvents(t: Tracker, es: seq<IoEvent>): (run: Run)
    ensures |run.reports| == |es|
    decreases |es|
  {
    if es == [] then Run(t, [])
    else
      var prev := RunEvents(t, es[..|es| - 1]);
      var step := ProcessEvent(prev.tracker, es[|es| - 1]);
      Run(step.tracker, prev.reports + [step.reported])
  }

  /** A session: the state and reports after `es`, from an empty tracker. */
  function Replay(es: seq<IoEvent>): Run {
    RunEvents(Init(), es)
  }

  /** The invariant holds after any sequence of events from a valid state. */
  lemma {:induction false} RunValid(t: Tracker, es: seq<IoEvent>)
    requires Valid(t)
    ensures Valid(RunEvents(t, es).tracker)
    decreases |es|
  {
    if es != [] {
      RunValid(t, es[..|es| - 1]);
      ProcessValid(RunEvents(t, es[..|es| - 1]).tracker, es[|es| - 1]);
    }
  }

  /** `Extends` is transitive. */
  lemma ExtendsTransitive(t1: Tracker, t2: Tracker, t3: Tracker)
    requires Extends(t1, t2) && Extends(t2, t3)
    ensures Extends(t1, t3)
  {
  }

  /** Writer sets and reported flows only grow over a session. */
  lemma {:induction false} RunExtends(t: Tracker, es: seq<IoEvent>)
    ensures Extends(t, RunEvents(t, es).tracker)
    decreases |es|
  {
    if es != [] {
      var prev := RunEvents(t, es[..|es| - 1]).tracker;
      RunExtends(t, es[..|es| - 1]);
      ProcessExtends(prev, es[|es| - 1]);
      ExtendsTransitive(t, prev, RunEvents(t, es).tracker);
    }
  }

  /** Each flow is reported at most once: no two events report the same
      flow, none reports one reported before the run, and the reported set
      at the end is the initial one plus everything reported on the way. */
  lemma {:induction false} RunReportsOnce(t: Tracker, es: seq<IoEvent>)
    ensures var run := RunEvents(t, es);
            && (forall i, j :: 0 <= i < j < |run.reports| ==> run.reports[i] !! run.reports[j])
            && (forall i :: 0 <= i < |run.reports| ==> run.reports[i] !! t.flows)
            && (forall f :: f in run.tracker.flows <==>
                  f in t.flows || exists i :: 0 <= i < |run.reports| && f in run.reports[i])
    decreases |es|
  {
    if es != [] {
      var n := |es| - 1;
      var prev := RunEvents(t, es[..n]);
      var run := RunEvents(t, es);
      RunReportsOnce(t, es[..n]);
      var last := ProcessEvent(prev.tracker, es[n]).reported;
      assert last !! prev.tracker.flows;
      assert forall i :: 0 <= i < n ==> run.reports[i] == prev.reports[i];
      assert run.reports[n] == last;
      forall f | f in run.tracker.flows
        ensures f in t.flows || exists i :: 0 <= i < |run.reports| && f in run.reports[i]
      {
        if f in last {
          assert f in run.reports[n];
        } else if f !in t.flows {
          var i :| 0 <= i < n && f in prev.reports[i];
          assert f in run.reports[i];
        }
      }
    }
  }

  /** Some event of `es` is a write of `p` by `w`. */
  predicate WroteBefore(es: seq<IoEvent>, p: Path, w: Actor, k: int) {
    exists i :: 0 <= i < k && i < |es| && es[i] == IoWrite(p, w)
  }

  /** The flow `f` happened in `es`: a write of its path by its writer
      comes before a read of that path by its reader, and the two are
      different workloads. */
  predicate Happened(es: seq<IoEvent>, f: Flow) {
    && f.writer != f.reader
    && exists j :: 0 <= j < |es| && es[j] == IoRead(f.path, f.reader) && WroteBefore(es, f.path, f.writer, j)
  }

  /** The writers recorded for a path are exactly the workloads that wrote
      it during the session. */
  lemma {:induction false} ReplayWriters(es: seq<IoEvent>)
    ensures var t := Replay(es).tracker;
            forall p, w :: w in WritersOf(t, p) <==> WroteBefore(es, p, w, |es|)
    decreases |es|
  {
    if es != [] {
      var n := |es| - 1;
      var t0 := Replay(es[..n]).tracker;
      var t := Replay(es).tracker;
      ReplayWriters(es[..n]);
      forall p, w ensures w in WritersOf(t, p) <==> WroteBefore(es, p, w, |es|) {
        if w in WritersOf(t0, p) {
          var i :| 0 <= i < n && i < |es[..n]| && es[..n][i] == IoWrite(p, w);
          assert es[i] == IoWrite(p, w);
        }
        if WroteBefore(es, p, w, |es|) && es[n] != IoWrite(p, w) {
          var i :| 0 <= i < |es| && es[i] == IoWrite(p, w);
          assert es[..n][i] == IoWrite(p, w);
        }
      }
    }
  }

  /** The flows reported over a session are exactly the flows that
      happened in it: a write by one workload followed, at any distance,
      by a read of the same path by another. */
  lemma {:induction false} ReplayFlows(es: seq<IoEvent>)
    ensures forall f :: f in Replay(es).tracker.flows <==> Happened(es, f)
    decreases |es|
  {
    if es != [] {
      var n := |es| - 1;
      var pre := es[..n];
      var t0 := Replay(pre).tracker;
      var t := Replay(es).tracker;
      ReplayFlows(pre);
      ReplayWriters(pre);
      forall f ensures f in t.flows <==> Happened(es, f) {
        if f in t0.flows {
          var j :| 0 <= j < |pre| && pre[j] == IoRead(f.path, f.reader) && WroteBefore(pre, f.path, f.writer, j);
          var i :| 0 <= i < j && i < |pre| && pre[i] == IoWrite(f.path, f.writer);
          assert es[i] == IoWrite(f.path, f.writer);
          assert es[j] == IoRead(f.path, f.reader);
          assert WroteBefore(es, f.path, f.writer, j);
        }
        if f in t.flows && f !in t0.flows {
          assert es[n] == IoRead(f.path, f.reader);
          assert f.writer in WritersOf(t0, f.path);
          var i :| 0 <= i < |pre| && pre[i] == IoWrite(f.path, f.writer);
          assert es[i] == IoWrite(f.path, f.writer);
          assert WroteBefore(es, f.path, f.writer, n);
        }
        if Happened(es, f) {
          var j :| 0 <= j < |es| && es[j] == IoRead(f.path, f.reader) && WroteBefore(es, f.path, f.writer, j);
          var i :| 0 <= i < j && i < |es| && es[i] == IoWrite(f.path, f.writer);
          assert pre[i] == IoWrite(f.path, f.writer);
          if j < n {
            assert pre[j] == IoRead(f.path, f.reader);
            assert WroteBefore(pre, f.path, f.writer, j);
            assert Happened(pre, f);
          } else {
            assert WroteBefore(pre, f.path, f.writer, |pre|);
            assert f.writer in WritersOf(t0, f.path);
          }
        }
      }
    }
  }

  /** One raw line, parsed and then decoded into an event. */
  function DecodeLine(g: Granularity, line: string): Result<IoEvent, Fault> {
    match ParseLine(line)
    case Failure(err) => Failure(err)
    case Success(rec) => Decode(g, rec)
  }

  /** The values on one line of capture output, field by field, in the
      output format the monitor requests (src/xIM.py:74-82). */
  datatype CaptureRecord = CaptureRecord(
    dir: string, fd: string, proc: string, container: string, pod: string)

  /** The fields the requested format prints: direction, path, process
      name and container id, then the pod name in pod mode only. */
  function CaptureFields(g: Granularity, c: CaptureRecord): seq<Field> {
    [("evt_io_dir", c.dir), ("fd_name", c.fd), ("proc_name", c.proc), ("container_id", c.container)]
    + (if g == Pod then [("k8s_pod_name", c.pod)] else [])
  }

  /** The line the analysis loop receives for a record: its fields joined
      by single spaces, ending in the newline that iterating over the
      output in text mode keeps. */
  function CaptureLine(g: Granularity, c: CaptureRecord): string {
    Render(CaptureFields(g, c)) + "\n"
  }

  /** The workload a record names at granularity `g`. */
  function IdentityOf(g: Granularity, c: CaptureRecord): Actor {
    match g
    case Process => c.proc
    case Container => c.container
    case Pod => c.pod
  }

  /** The event a record stands for. */
  function EventOf(g: Granularity, c: CaptureRecord): IoEvent {
    if c.dir == "write" then IoWrite(c.fd, IdentityOf(g, c))
    else if c.dir == "read" then IoRead(c.fd, IdentityOf(g, c))
    else IoOther(c.dir)
  }

  /** Whitespace-free text: a value that survives `str.split()` whole. */
  predicate NoSpace(s: string) {
    forall i :: 0 <= i < |s| ==> !IsSpace(s[i])
  }

  /** A record none of whose values holds whitespace. */
  predicate Printable(c: CaptureRecord) {
    NoSpace(c.dir) && NoSpace(c.fd) && NoSpace(c.proc) && NoSpace(c.container) && NoSpace(c.pod)
  }

  /** Round trip through the whole adapter: a newline-terminated line of
      capture output whose values hold no whitespace parses and decodes to
      the event it stands for, at every granularity; the fields the
      granularity does not use are read past. */
  lemma DecodeCaptureLine(g: Granularity, c: CaptureRecord)
    requires Printable(c)
    ensures DecodeLine(g, CaptureLine(g, c)) == Success(EventOf(g, c))
  {
    ParseCaptureLine(g, c);
    CaptureDict(g, c);
  }

  /** A printable record's line parses to the `dict` of its fields. */
  lemma ParseCaptureLine(g: Granularity, c: CaptureRecord)
    requires Printable(c)
    ensures ParseLine(CaptureLine(g, c)) == Success(BuildDict(CaptureFields(g, c)))
  {
    var fs := CaptureFields(g, c);
    CaptureFieldsRenderable(g, c);
    ParseRender(fs);
    ParseLineSpaceSuffix(Render(fs), '\n');
  }

  /** Every field of a printable record survives rendering. */
  lemma CaptureFieldsRenderable(g: Granularity, c: CaptureRecord)
    requires Printable(c)
    ensures forall i :: 0 <= i < |CaptureFields(g, c)| ==> Renderable(CaptureFields(g, c)[i])
  {
    FieldNamesPlain();
  }

  /** The field names hold no whitespace. */
  lemma FieldNamesPlain()
    ensures NoSpace("evt_io_dir") && NoSpace("fd_name")
    ensures NoSpace("proc_name") && NoSpace("container_id") && NoSpace("k8s_pod_name")
  {
  }

  /** `dict` of a record's fields: the names are distinct, so each holds
      its own value. */
  lemma CaptureDict(g: Granularity, c: CaptureRecord)
    ensures var m := BuildDict(CaptureFields(g, c));
            && "evt_io_dir" in m && m["evt_io_dir"] == c.dir
            && "fd_name" in m && m["fd_name"] == c.fd
            && IdentityField(g) in m && m[IdentityField(g)] == IdentityOf(g, c)
  {
    var fs := CaptureFields(g, c);
    assert LastWithName(fs, 0) && LastWithName(fs, 1);
    match g
    case Process =>
      assert LastWithName(fs, 2);
    case Container =>
      assert LastWithName(fs, 3);
    case Pod =>
      assert LastWithName(fs, 4);
  }

  /** What the analysis loop leaves behind: the run over the lines handled
      so far, and the exception that ended the loop, if any. */
  datatype Analysis = Analysis(run: Run, fault: Option<Fault>)

  /** Every line of the capture output, parsed and decoded. Decoding is
      pure, so doing it up front rather than line by line changes nothing. */
  function DecodeLines(g: Granularity, lines: seq<string>): seq<Result<IoEvent, Fault>> {
    seq(|lines|, i requires 0 <= i < |lines| => DecodeLine(g, lines[i]))
  }

  /** The body of the analysis loop over decoded lines: each event is
      processed in turn; the first fault ends the loop (and the program),
      keeping what earlier lines did. */
  function Consume(t: Tracker, ds: seq<Result<IoEvent, Fault>>): (a: Analysis)
    ensures a.fault.None? ==> |a.run.reports| == |ds|
    ensures a.fault.Some? ==> |a.run.reports| < |ds|
    decreases |ds|
  {
    if ds == [] then Analysis(Run(t, []), None)
    else
      var prev := Consume(t, ds[..|ds| - 1]);
      if prev.fault.Some? then prev
      else
        match ds[|ds| - 1]
        case Failure(err) => Analysis(prev.run, Some(err))
        case Success(e) =>
          var step := ProcessEvent(prev.run.tracker, e);
          Analysis(Run(step.tracker, prev.run.reports + [step.reported]), None)
  }

  /** The analysis loop over the capture output (src/xIM.py:96-99). */
  function Analyze(t: Tracker, g: Granularity, lines: seq<string>): Analysis {
    Consume(t, DecodeLines(g, lines))
  }

  /** The loop over decoded lines is the event run over the events before
      the first fault: when `ds` starts with `es` and the next entry (if
      any) is a fault, the loop's state and reports are those of running
      `es`, and its fault is that entry's. */
  lemma {:induction false} ConsumeIsRun(t: Tracker, ds: seq<Result<IoEvent, Fault>>, es: seq<IoEvent>)
    requires |es| <= |ds|
    requires forall i :: 0 <= i < |es| ==> ds[i] == Success(es[i])
    requires |es| < |ds| ==> ds[|es|].Failure?
    ensures Consume(t, ds).run == RunEvents(t, es)
    ensures Consume(t, ds).fault == if |es| < |ds| then Some(ds[|es|].error) else None
    decreases |ds|
  {
    if ds != [] {
      var n := |ds| - 1;
      var pre := ds[..n];
      if |es| == |ds| {
        ConsumeIsRun(t, pre, es[..n]);
        assert es[..n] + [es[n]] == es;
        RunEventsSnoc(t, es[..n], es[n]);
      } else {
        ConsumeIsRun(t, pre, es);
      }
    }
  }

  /** The analysis loop is the event run over the lines' events: when the
      first `|es|` lines decode to `es` and the next one (if any) raises,
      the state and reports are those of running `es`, and the loop ends
      with that line's exception. */
  lemma AnalyzeIsRun(t: Tracker, g: Granularity, lines: seq<string>, es: seq<IoEvent>)
    requires |es| <= |lines|
    requires forall i :: 0 <= i < |es| ==> DecodeLine(g, lines[i]) == Success(es[i])
    requires |es| < |lines| ==> DecodeLine(g, lines[|es|]).Failure?
    ensures Analyze(t, g, lines).run == RunEvents(t, es)
    ensures Analyze(t, g, lines).fault ==
              if |es| < |lines| then Some(DecodeLine(g, lines[|es|]).error) else None
  {
    ConsumeIsRun(t, DecodeLines(g, lines), es);
  }

  /** Running one more event extends the run by that event's step. */
  lemma RunEventsSnoc(t: Tracker, es: seq<IoEvent>, e: IoEvent)
    ensures var prev := RunEvents(t, es);
            var step := ProcessEvent(prev.tracker, e);
            RunEvents(t, es + [e]) == Run(step.tracker, prev.reports + [step.reported])
  {
    assert (es + [e])[..|es|] == es;
  }

  /** Scenario: a workload reading back its own write is not a flow. */
  lemma ScenarioSelfRead()
    ensures Replay([IoWrite("/data/x", "svcA"), IoRead("/data/x", "svcA")]).reports == [{}, {}]
  {
    var es := [IoWrite("/data/x", "svcA"), IoRead("/data/x", "svcA")];
    var t1 := Write(Init(), "/data/x", "svcA");
    RunEventsSnoc(Init(), [], es[0]);
    assert [] + [es[0]] == [es[0]] && [es[0]] + [es[1]] == es;
    RunEventsSnoc(Init(), [es[0]], es[1]);
    SelfLoopExcluded(t1, "/data/x", "svcA");
  }

  /** Scenario: two writers then a third-party reader give both flows,
      from that single read. */
  lemma ScenarioTwoWriters()
    ensures Replay([IoWrite("/data/x", "svcA"), IoWrite("/data/x", "svcB"), IoRead("/data/x", "svcC")]).reports
            == [{}, {}, {Flow("svcA", "/data/x", "svcC"), Flow("svcB", "/data/x", "svcC")}]
  {
    var es := [IoWrite("/data/x", "svcA"), IoWrite("/data/x", "svcB"), IoRead("/data/x", "svcC")];
    var t1 := Write(Init(), "/data/x", "svcA");
    var t2 := Write(t1, "/data/x", "svcB");
    assert [] + [es[0]] == [es[0]] && [es[0]] + [es[1]] == es[..2] && es[..2] + [es[2]] == es;
    RunEventsSnoc(Init(), [], es[0]);
    RunEventsSnoc(Init(), [es[0]], es[1]);
    RunEventsSnoc(Init(), es[..2], es[2]);
    assert WritersOf(t2, "/data/x") == {"svcA", "svcB"};
    var s := Read(t2, "/data/x", "svcC");
    assert s.reported == {Flow("svcA", "/data/x", "svcC"), Flow("svcB", "/data/x", "svcC")};
  }

  /** Scenario: a repeated read reports its flow only the first time. */
  lemma ScenarioRepeatedRead()
    ensures Replay([IoWrite("/data/x", "svcA"), IoRead("/data/x", "svcB"), IoRead("/data/x", "svcB")]).reports
            == [{}, {Flow("svcA", "/data/x", "svcB")}, {}]
  {
    var es := [IoWrite("/data/x", "svcA"), IoRead("/data/x", "svcB"), IoRead("/data/x", "svcB")];
    var t1 := Write(Init(), "/data/x", "svcA");
    assert [] + [es[0]] == [es[0]] && [es[0]] + [es[1]] == es[..2] && es[..2] + [es[2]] == es;
    RunEventsSnoc(Init(), [], es[0]);
    RunEventsSnoc(Init(), [es[0]], es[1]);
    RunEventsSnoc(Init(), es[..2], es[2]);
    assert WritersOf(t1, "/data/x") == {"svcA"};
    var s := Read(t1, "/data/x", "svcB");
    assert s.reported == {Flow("svcA", "/data/x", "svcB")};
    ReadTwice(t1, "/data/x", "svcB");
  }

  /** Scenario: a writer that arrives after a reported read becomes a new
      flow on the next read, and the old flow is not repeated. */
  lemma ScenarioLateWriter()
    ensures Replay([IoWrite("/data/x", "svcA"), IoRead("/data/x", "svcB"),
                    IoWrite("/data/x", "svcC"), IoRead("/data/x", "svcB")]).reports
            == [{}, {Flow("svcA", "/data/x", "svcB")}, {}, {Flow("svcC", "/data/x", "svcB")}]
  {
    var es := [IoWrite("/data/x", "svcA"), IoRead("/data/x", "svcB"),
               IoWrite("/data/x", "svcC"), IoRead("/data/x", "svcB")];
    assert [] + [es[0]] == [es[0]] && [es[0]] + [es[1]] == es[..2]
        && es[..2] + [es[2]] == es[..3] && es[..3] + [es[3]] == es;
    RunEventsSnoc(Init(), [], es[0]);
    RunEventsSnoc(Init(), [es[0]], es[1]);
    RunEventsSnoc(Init(), es[..2], es[2]);
    RunEventsSnoc(Init(), es[..3], es[3]);
    var t1 := Write(Init(), "/data/x", "svcA");
    assert WritersOf(t1, "/data/x") == {"svcA"};
    var s2 := Read(t1, "/data/x", "svcB");
    assert s2.reported == {Flow("svcA", "/data/x", "svcB")};
    var t3 := Write(s2.tracker, "/data/x", "svcC");
    assert WritersOf(t3, "/data/x") == {"svcA", "svcC"};
    var s4 := Read(t3, "/data/x", "svcB");
    assert s4.reported == {Flow("svcC", "/data/x", "svcB")};
  }

  /** Scenario: reading a path nobody wrote reports nothing. */
  lemma ScenarioUnwrittenRead()
    ensures Replay([IoRead("/data/y", "svcA")]).reports == [{}]
  {
  }
}
