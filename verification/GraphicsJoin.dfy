/**
 Drawing in parallel on the SMP machine: graphics_fill_rect and its siblings in
 kernel/drivers/graphics.c submit one job for each band, run a job themselves when the submission is
 refused, and then wait for all the others. The pixel writes of all cores are one log, in the order in
 which they happen; each is made in some state of the run.
 */
module GraphicsJoin {
  import opened SmpTables
  import opened SmpMachine
  import opened SmpExecutions
  import opened GraphicsClip
  import opened GraphicsDraw

  /** A write for a band, made while the machine is in the state with index at. */
  datatype Event = Event(at: nat, band: nat, write: Write)

  /**
   What became of a band's submission at step at: it got a slot under an id, and the wait for it returned at
   step joined; or it was refused, and the caller ran the job itself in the states from first to last.
   */
  datatype Ticket =
    | Sent(at: nat, work: Work, id: Id, joined: nat)
    | Kept(at: nat, first: nat, last: nat)

  /** The drawing operation: its machine run, the state in which it returns, and its bands. */
  datatype Drawing = Drawing(trace: seq<State>, steps: seq<Step>, end: nat,
                             whole: Job, bands: seq<Rect>, pitch: nat, tickets: seq<Ticket>)

  /** smp_submit_work returns 0: no second core is online or no slot is free. */
  ghost predicate Refuses(s: State, step: Step)
  {
    step.OfSmp? && step.smp.SubmitPlain? && step.smp.fn != 0 && !Accepts(s, step.smp.online)
  }

  /** The caller submits a band and waits for it, or runs it, before it returns. */
  ghost predicate TicketOk(trace: seq<State>, steps: seq<Step>, end: nat, t: Ticket)
    requires |trace| == |steps| + 1 && end <= |steps|
  {
    match t
    case Sent(at, work, id, joined) =>
      at < joined < end && Submits(trace[at], steps[at], work, id) && WaitReturns(trace[joined], steps[joined], id)
    case Kept(at, first, last) =>
      at < first <= last <= end && Refuses(trace[at], steps[at])
  }

  ghost predicate DrawingOk(d: Drawing)
  {
    && |d.trace| == |d.steps| + 1 && IsRun(d.trace, d.steps) && NoWrap(d.trace[|d.steps|])
    && d.end <= |d.steps| && d.pitch > 0 && Stacked(d.bands, d.whole.rect) && |d.tickets| == |d.bands|
    && forall i :: 0 <= i < |d.bands| ==> TicketOk(d.trace, d.steps, d.end, d.tickets[i])
  }

  // ---- The log ----------------------------------------------------------------------------------------------------

  function Writes(log: seq<Event>): seq<Write>
  {
    if log == [] then [] else [log[0].write] + Writes(log[1..])
  }

  /** The writes for band i. */
  function LogOf(log: seq<Event>, i: nat): seq<Write>
  {
    if log == [] then [] else (if log[0].band == i then [log[0].write] else []) + LogOf(log[1..], i)
  }

  /** Those of them made in the states lo to hi. */
  function Between(log: seq<Event>, i: nat, lo: nat, hi: nat): seq<Write>
  {
    if log == [] then []
    else (if log[0].band == i && lo <= log[0].at <= hi then [log[0].write] else []) + Between(log[1..], i, lo, hi)
  }

  /** Some core is inside the function of item x. */
  ghost predicate Active(s: State, x: Id, work: Work)
  {
    exists a :: Executes(s, a, x, work)
  }

  /** Only a core that is inside the job writes for it. */
  ghost predicate WriterOk(d: Drawing, e: Event)
    requires |d.trace| == |d.steps| + 1 && |d.tickets| == |d.bands|
  {
    && e.band < |d.bands| && e.at <= |d.steps|
    && match d.tickets[e.band]
       case Sent(_, work, id, _) => Active(d.trace[e.at], id, work)
       case Kept(_, first, last) => first <= e.at <= last
  }

  /** Whenever the job function of band i has been called and has returned, it has made the writes of its job. */
  ghost predicate JobOk(d: Drawing, log: seq<Event>, i: nat)
    requires |d.trace| == |d.steps| + 1 && |d.tickets| == |d.bands| && i < |d.bands|
  {
    && d.bands[i].y >= d.whole.rect.y
    && var job := BandJob(d.whole, d.bands[i]);
       match d.tickets[i]
       case Sent(_, work, id, _) =>
         forall c: nat, r: nat, a: nat ::
           IsExecution(d.trace, d.steps, c, r, a, id, work) ==> Performs(job, d.pitch, Between(log, i, c + 1, r))
       case Kept(_, first, last) => Performs(job, d.pitch, Between(log, i, first, last))
  }

  /** The log of everything that is ever written for this operation, in the whole run. */
  ghost predicate LogOk(d: Drawing, log: seq<Event>)
    requires DrawingOk(d)
  {
    && (forall e :: e in log ==> WriterOk(d, e))
    && (forall i :: 0 <= i < |d.bands| ==> JobOk(d, log, i))
  }

  lemma {:induction false} AllBetween(log: seq<Event>, i: nat, lo: nat, hi: nat)
    requires forall e :: e in log && e.band == i ==> lo <= e.at <= hi
    ensures Between(log, i, lo, hi) == LogOf(log, i)
    decreases |log|
  {
    if log != [] {
      assert log[0] in log && forall e :: e in log[1..] ==> e in log;
      AllBetween(log[1..], i, lo, hi);
    }
  }

  function Logs(log: seq<Event>, n: nat): (r: seq<seq<Write>>)
    ensures |r| == n && forall i :: 0 <= i < n ==> r[i] == LogOf(log, i)
  {
    seq(n, i requires 0 <= i < n => LogOf(log, i))
  }

  /** The first write of the log is the first of its band; the rest are the logs of the rest. */
  lemma RestLogs(log: seq<Event>, n: nat)
    requires log != [] && log[0].band < n
    ensures var j, logs := log[0].band, Logs(log, n);
            logs[j] != [] && logs[j][0] == log[0].write && logs[j := logs[j][1..]] == Logs(log[1..], n)
  {
    var j, logs := log[0].band, Logs(log, n);
    assert logs[j] == [log[0].write] + LogOf(log[1..], j);
    var rest := logs[j := logs[j][1..]];
    forall i | 0 <= i < n ensures rest[i] == Logs(log[1..], n)[i] {
      if i != j { assert LogOf(log, i) == [] + LogOf(log[1..], i) == LogOf(log[1..], i); }
    }
  }

  /** The log interleaves the writes for the bands. */
  lemma {:induction false} LogInterleaves(log: seq<Event>, n: nat)
    requires forall e :: e in log ==> e.band < n
    ensures Interleaves(Writes(log), Logs(log, n))
    decreases |log|
  {
    if log == [] {
      assert forall i :: 0 <= i < n ==> Logs(log, n)[i] == [];
    } else {
      assert log[0] in log && forall e :: e in log[1..] ==> e in log;
      LogInterleaves(log[1..], n);
      var j, logs := log[0].band, Logs(log, n);
      RestLogs(log, n);
      assert Writes(log)[1..] == Writes(log[1..]);
      assert TakenFrom(Writes(log), logs, j);
    }
  }

  // ---- The join waits for all -----------------------------------------------------------------------------------

  /** The writes for band i are complete, and none is made after the operation returns. */
  lemma BandComplete(d: Drawing, log: seq<Event>, i: nat)
    requires DrawingOk(d) && LogOk(d, log) && i < |d.bands|
    ensures d.bands[i].y >= d.whole.rect.y && Performs(BandJob(d.whole, d.bands[i]), d.pitch, LogOf(log, i))
    ensures forall e :: e in log && e.band == i ==> e.at <= d.end
  {
    hide Performs, BandJob, IsRun, NoWrap, Submits, WaitReturns, Executes, IsExecution, Stacked, Between, LogOf;
    assert TicketOk(d.trace, d.steps, d.end, d.tickets[i]) && JobOk(d, log, i);
    match d.tickets[i]
    case Sent(at, work, id, joined) =>
      var c, r, a := OneExecution(d.trace, d.steps, at, joined, work, id);
      forall e | e in log && e.band == i ensures c + 1 <= e.at <= r { assert WriterOk(d, e); }
      AllBetween(log, i, c + 1, r);
    case Kept(at, first, last) =>
      forall e | e in log && e.band == i ensures first <= e.at <= last { assert WriterOk(d, e); }
      AllBetween(log, i, first, last);
  }

  /** When a drawing operation returns, all its writes have been made and no further one is ever made. */
  lemma JoinedWrites(d: Drawing, log: seq<Event>)
    requires DrawingOk(d) && LogOk(d, log)
    ensures forall e :: e in log ==> e.at <= d.end
    ensures Performs(d.whole, d.pitch, Writes(log))
  {
    hide Performs, BandJob, Interleaves, Stacked, JobOk, TicketOk, IsRun;
    var n := |d.bands|;
    forall i | 0 <= i < n
      ensures d.bands[i].y >= d.whole.rect.y && Performs(BandJob(d.whole, d.bands[i]), d.pitch, Logs(log, n)[i]) {
      BandComplete(d, log, i);
    }
    forall e | e in log ensures e.band < n && e.at <= d.end {
      assert WriterOk(d, e);
      BandComplete(d, log, e.band);
    }
    LogInterleaves(log, n);
    BandsPerform(d.whole, d.bands, d.pitch, Logs(log, n), Writes(log));
  }

  /**
   Whatever the interleaving of the cores and whichever submissions were refused, the frame buffer is, when
   the operation returns and ever after, the one a single core would have left.
   */
  lemma JoinedDrawing(d: Drawing, log: seq<Event>, fb: seq<int>, single: seq<Write>)
    requires DrawingOk(d) && LogOk(d, log) && Fits(d.whole, d.pitch, |fb|) && Performs(d.whole, d.pitch, single)
    ensures forall e :: e in log ==> e.at <= d.end
    ensures Apply(fb, Writes(log)) == Apply(fb, single)
  {
    hide Performs, Apply, Fits, DrawingOk, LogOk;
    JoinedWrites(d, log);
    PitchOk(d);
    SameResult(fb, d.whole, d.pitch, Writes(log), single);
  }

  lemma PitchOk(d: Drawing)
    requires DrawingOk(d)
    ensures d.pitch > 0
  {
  }

  /** On the screen: the wanted pixels have the job's colours, all others are as they were, as FillRect promises. */
  lemma JoinedDrawn(d: Drawing, log: seq<Event>, s: Screen, fb: seq<int>, x: nat, y: nat, width: nat, height: nat)
    requires DrawingOk(d) && LogOk(d, log) && d.pitch == s.pitch && Fits(d.whole, s.pitch, |fb|)
    requires forall row: nat, col: nat :: d.whole.rect.Has(row, col) <==> Wanted(s, x, y, width, height, row, col)
    ensures Drawn(s, fb, Apply(fb, Writes(log)), x, y, width, height, d.whole)
  {
    hide Performs, Apply, Fits, DrawingOk, LogOk, Drawn;
    JoinedWrites(d, log);
    DrawnByJob(s, fb, x, y, width, height, d.whole, Writes(log));
  }

  // ---- An instance -----------------------------------------------------------------------------------------------

  /** The states of a run in which one core submits an item and waits for it while another one runs it. */
  function OneItemStates(): seq<State>
  {
    var work := Plain(1, 0);
    var s0 := State([FREE_SMP], 1, [], 1, map[], map[], map[], map[], map[], {}, {}, 0, 0,
                    multiset{}, multiset{}, multiset{}, multiset{}, map[]);
    var s1 := s0.(smp := [SmpSlot(Queued, 1, work)], nextSmp := 2, smpClaims := {1}, smpSubmits := 1);
    var s2 := s1.(smp := [SmpSlot(Running, 1, work)], runs := map[0 := Item(0, 1, work, Taken)]);
    var s3 := s2.(runs := map[0 := Item(0, 1, work, Inside)], began := multiset{1});
    var s4 := s3.(runs := map[0 := Item(0, 1, work, Returned)], ended := multiset{1});
    var s5 := s4.(smp := [SmpSlot(Done, 1, work)], runs := map[]);
    var s6 := s5.(waiters := map[0 := Waiting(1)], smpClaims := {});
    var s7 := s6.(waiters := map[0 := Releasing(1)]);
    var s8 := s7.(smp := [FREE_SMP], waiters := map[]);
    [s0, s1, s2, s3, s4, s5, s6, s7, s8]
  }

  function OneItemSteps(): seq<Step>
  {
    [OfSmp(SubmitPlain(1, 0, 2)), OfSmp(Take(0)), OfSmp(Call(0)), OfSmp(Return(0)), OfSmp(StoreDone(0)),
     OfSmp(StartWait(0, 1)), OfSmp(PollWait(0)), OfSmp(Release(0))]
  }

  lemma ItemTaken()
    ensures LegalAt(OneItemStates(), OneItemSteps(), 0) && LegalAt(OneItemStates(), OneItemSteps(), 1)
  {
    var ss := OneItemStates();
    assert DoSubmitPlain(ss[0], 1, 0, 2) == ss[1];
    assert DoTake(ss[1], 0) == ss[2];
  }

  lemma ItemRuns()
    ensures LegalAt(OneItemStates(), OneItemSteps(), 2) && LegalAt(OneItemStates(), OneItemSteps(), 3)
  {
    var ss := OneItemStates();
    assert DoCall(ss[2], 0) == ss[3];
    assert DoReturn(ss[3], 0) == ss[4];
  }

  lemma ItemDone()
    ensures LegalAt(OneItemStates(), OneItemSteps(), 4) && LegalAt(OneItemStates(), OneItemSteps(), 5)
  {
    var ss := OneItemStates();
    assert DoStoreDone(ss[4], 0) == ss[5];
    assert DoStartWait(ss[5], 0, 1) == ss[6];
  }

  lemma ItemJoined()
    ensures LegalAt(OneItemStates(), OneItemSteps(), 6) && LegalAt(OneItemStates(), OneItemSteps(), 7)
  {
    var ss := OneItemStates();
    assert DoPollWait(ss[6], 0) == ss[7];
    assert DoRelease(ss[7], 0) == ss[8];
  }

  lemma OneItemRun()
    ensures IsRun(OneItemStates(), OneItemSteps()) && NoWrap(OneItemStates()[8])
    ensures Submits(OneItemStates()[0], OneItemSteps()[0], Plain(1, 0), 1)
  {
    hide LegalAt;
    ItemTaken();
    ItemRuns();
    ItemDone();
    ItemJoined();
  }

  /** One pixel drawn by another core: what the theorems speak about exists. */
  lemma OnePixel() returns (d: Drawing, log: seq<Event>)
    ensures DrawingOk(d) && LogOk(d, log) && d.tickets == [Sent(0, Plain(1, 0), 1, 7)]
    ensures log == [Event(3, 0, Write(0, 5))] && Apply([0], Writes(log)) == [5]
  {
    OneItemRun();
    var rect := Rect(0, 0, 1, 1);
    var job := Job(rect, Solid(5));
    d := Drawing(OneItemStates(), OneItemSteps(), 8, job, [rect], 1, [Sent(0, Plain(1, 0), 1, 7)]);
    log := [Event(3, 0, Write(0, 5))];
    assert log[1..] == [] && Writes(log) == [Write(0, 5)];
    assert Top([rect], rect, 0) == 0 && Top([rect], rect, 1) == 1;
    assert Executes(d.trace[3], 0, 1, Plain(1, 0));
    assert BandJob(job, rect) == job && PixelWrite(job, 1, 0, 0) == Write(0, 5);
    assert Between(log, 0, 3, 3) == [Write(0, 5)];
    assert Performs(job, 1, [Write(0, 5)]) by { assert IsPixelOf(Write(0, 5), job, 1); }
    forall c: nat, r: nat, a: nat | IsExecution(d.trace, d.steps, c, r, a, 1, Plain(1, 0)) ensures c == 2 && r == 3 {
      assert d.steps[c] == OfSmp(Call(a));
    }
    assert [Write(0, 5)][..0] == [] && Apply([0], []) == [0];
  }
}
