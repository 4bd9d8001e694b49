/**
  The job queue of packages/account-postgres-sink-service/src/server.ts: jobs are queued by requests
  and timers, run one at a time, and each end of a job schedules another look at the queue.
  Webhooks are turned away while a refresh is running or waiting.
 */
module JobQueue {
  import opened Common

  datatype JobType = IntegrityCheck | RefreshAccounts

  datatype Job = Job(kind: JobType, programId: string, accountType: Option<string>)

  datatype Settled = Settled(job: Job, ok: bool)

  datatype State = State(
    current: Option<Job>,     // currentJob; processingJob is true exactly while it is set
    queue: seq<Job>,
    ticks: nat,               // setImmediate callbacks not yet run
    enqueued: seq<Job>,       // history: every job ever queued
    started: seq<Job>,        // history: every job taken off the queue
    settled: seq<Settled>)    // history: every promise resolved or rejected

  const Initial := State(None, [], 0, [], [], [])

  /** processJobQueue up to its await; a job without a configuration fails on the spot. */
  function Process(s: State, configs: set<string>): State {
    if s.current.Some? || s.queue == [] then s
    else
      var job := s.queue[0];
      var taken := s.(queue := s.queue[1..], started := s.started + [job]);
      if job.programId in configs then taken.(current := Some(job))
      else taken.(settled := s.settled + [Settled(job, false)], ticks := s.ticks + 1)
  }

  datatype Event =
    | Enqueue(job: Job)
    | Tick
    | Finish(ok: bool)  // the running job's work resolved or threw

  predicate Enabled(s: State, e: Event) {
    match e
    case Enqueue(_) => true
    case Tick => s.ticks > 0
    case Finish(_) => s.current.Some?
  }

  function Apply(s: State, e: Event, configs: set<string>): State
    requires Enabled(s, e)
  {
    match e
    case Enqueue(job) => Process(s.(queue := s.queue + [job], enqueued := s.enqueued + [job]), configs)
    case Tick => Process(s.(ticks := s.ticks - 1), configs)
    case Finish(ok) =>
      s.(current := None, settled := s.settled + [Settled(s.current.value, ok)], ticks := s.ticks + 1)
  }

  // ---------------------------------------------------------------------------------------------
  // What every event keeps
  // ---------------------------------------------------------------------------------------------

  ghost function Jobs(settled: seq<Settled>): seq<Job> {
    seq(|settled|, (i: int) requires 0 <= i < |settled| => settled[i].job)
  }

  ghost function Running(s: State): seq<Job> {
    if s.current.Some? then [s.current.value] else []
  }

  /** Jobs start and settle in the order they were queued; at most one has started and not settled. */
  ghost predicate InOrder(s: State) {
    && s.started == Jobs(s.settled) + Running(s)
    && s.enqueued == s.started + s.queue
  }

  /** Waiting jobs with nothing running always have a tick to wake them. */
  ghost predicate Woken(s: State) {
    s.queue != [] && s.current.None? ==> s.ticks > 0
  }

  ghost predicate Inv(s: State) {
    InOrder(s) && Woken(s)
  }

  lemma JobsSnoc(settled: seq<Settled>, x: Settled)
    ensures Jobs(settled + [x]) == Jobs(settled) + [x.job]
  {
  }

  lemma ProcessKeepsOrder(s: State, configs: set<string>)
    requires InOrder(s)
    ensures InOrder(Process(s, configs))
    ensures Woken(Process(s, configs))
  {
    if s.current.None? && s.queue != [] {
      var job := s.queue[0];
      JobsSnoc(s.settled, Settled(job, false));
      assert s.queue == [job] + s.queue[1..];
      assert Jobs(s.settled) + [] == Jobs(s.settled);
      assert Jobs(s.settled) + [job] + [] == Jobs(s.settled) + [job];
    }
  }

  lemma StepKeeps(s: State, e: Event, configs: set<string>)
    requires Inv(s) && Enabled(s, e)
    ensures Inv(Apply(s, e, configs))
  {
    match e
    case Enqueue(job) =>
      var pushed := s.(queue := s.queue + [job], enqueued := s.enqueued + [job]);
      assert pushed.enqueued == pushed.started + pushed.queue;
      ProcessKeepsOrder(pushed, configs);
    case Tick =>
      ProcessKeepsOrder(s.(ticks := s.ticks - 1), configs);
    case Finish(ok) =>
      JobsSnoc(s.settled, Settled(s.current.value, ok));
      assert s.started + [] == s.started;
  }

  // ---------------------------------------------------------------------------------------------
  // Runs
  // ---------------------------------------------------------------------------------------------

  ghost predicate IsRun(s: State, events: seq<Event>, configs: set<string>)
    decreases |events|
  {
    events == [] || (Enabled(s, events[0]) && IsRun(Apply(s, events[0], configs), events[1..], configs))
  }

  ghost function Run(s: State, events: seq<Event>, configs: set<string>): State
    requires IsRun(s, events, configs)
    decreases |events|
  {
    if events == [] then s else Run(Apply(s, events[0], configs), events[1..], configs)
  }

  /**
    In every interleaving of enqueues, completions and ticks: the jobs queued so far are, in order,
    the settled ones, at most one running, and the waiting ones; and waiting jobs with nothing
    running always have a tick pending.
   */
  lemma {:induction false} RunKeeps(s: State, events: seq<Event>, configs: set<string>)
    requires Inv(s) && IsRun(s, events, configs)
    ensures Inv(Run(s, events, configs))
    decreases |events|
  {
    if events != [] {
      StepKeeps(s, events[0], configs);
      RunKeeps(Apply(s, events[0], configs), events[1..], configs);
    }
  }

  /** What is still to be done; every event but an enqueue lowers it. */
  ghost function Backlog(s: State): nat {
    3 * |s.queue| + 2 * |Running(s)| + s.ticks
  }

  lemma EventsDrain(s: State, e: Event, configs: set<string>)
    requires Enabled(s, e) && !e.Enqueue?
    ensures Backlog(Apply(s, e, configs)) < Backlog(s)
  {
  }

  lemma {:induction false} RunsDrain(s: State, events: seq<Event>, configs: set<string>)
    requires IsRun(s, events, configs) && forall i :: 0 <= i < |events| ==> !events[i].Enqueue?
    ensures |events| + Backlog(Run(s, events, configs)) <= Backlog(s)
    decreases |events|
  {
    if events != [] {
      EventsDrain(s, events[0], configs);
      RunsDrain(Apply(s, events[0], configs), events[1..], configs);
    }
  }

  /**
    No job is lost or run twice: once requests stop, only boundedly many events can follow, and
    when none can, every job ever queued has been settled exactly once, in order.
   */
  lemma EveryJobSettles(before: seq<Event>, after: seq<Event>, configs: set<string>)
    requires IsRun(Initial, before, configs)
    requires IsRun(Run(Initial, before, configs), after, configs)
    requires forall i :: 0 <= i < |after| ==> !after[i].Enqueue?
    ensures var mid := Run(Initial, before, configs);
      var end := Run(mid, after, configs);
      && |after| <= Backlog(mid)
      && (!Enabled(end, Tick) && end.current.None? ==>
            end.queue == [] && Jobs(end.settled) == end.started == end.enqueued)
  {
    var mid := Run(Initial, before, configs);
    assert Inv(Initial);
    RunKeeps(Initial, before, configs);
    RunKeeps(mid, after, configs);
    RunsDrain(mid, after, configs);
    var end := Run(mid, after, configs);
    assert end.current.None? && end.queue == [] ==> end.started + [] == end.started;
    assert end.current.None? ==> Jobs(end.settled) + [] == Jobs(end.settled);
  }

  // How each job settles

  /** The outcomes of the settled jobs whose program has a configuration, in order. */
  ghost function Worked(settled: seq<Settled>, configs: set<string>): seq<bool> {
    if settled == [] then []
    else
      var n := |settled| - 1;
      Worked(settled[..n], configs) + if settled[n].job.programId in configs then [settled[n].ok] else []
  }

  /** How the work of the jobs that ran came out, in order. */
  ghost function Outcomes(events: seq<Event>): seq<bool> {
    if events == [] then [] else (if events[0].Finish? then [events[0].ok] else []) + Outcomes(events[1..])
  }

  ghost predicate UnconfiguredFail(settled: seq<Settled>, configs: set<string>) {
    forall i :: 0 <= i < |settled| && settled[i].job.programId !in configs ==> !settled[i].ok
  }

  ghost predicate RunningConfigured(s: State, configs: set<string>) {
    s.current.Some? ==> s.current.value.programId in configs
  }

  lemma WorkedSnoc(settled: seq<Settled>, x: Settled, configs: set<string>)
    ensures Worked(settled + [x], configs)
         == Worked(settled, configs) + if x.job.programId in configs then [x.ok] else []
  {
    assert (settled + [x])[..|settled|] == settled;
  }

  lemma StepSettles(s: State, e: Event, configs: set<string>)
    requires Enabled(s, e) && RunningConfigured(s, configs) && UnconfiguredFail(s.settled, configs)
    ensures var s' := Apply(s, e, configs);
      && RunningConfigured(s', configs) && UnconfiguredFail(s'.settled, configs)
      && Worked(s'.settled, configs) == Worked(s.settled, configs) + if e.Finish? then [e.ok] else []
  {
    var s' := Apply(s, e, configs);
    assert Worked(s.settled, configs) + [] == Worked(s.settled, configs);
    if s'.settled != s.settled {
      var x := s'.settled[|s.settled|];
      assert s'.settled == s.settled + [x];
      WorkedSnoc(s.settled, x, configs);
    }
  }

  /**
    In every run, a job whose program has no configuration settles as failed, and the others settle
    as their own work came out: the k-th of them to settle with the k-th outcome.
   */
  lemma JobsSettleAsTheyWorked(events: seq<Event>, configs: set<string>)
    requires IsRun(Initial, events, configs)
    ensures var s := Run(Initial, events, configs);
      UnconfiguredFail(s.settled, configs) && Worked(s.settled, configs) == Outcomes(events)
  {
    RunSettles(Initial, events, configs);
    assert [] + Outcomes(events) == Outcomes(events);
  }

  lemma RunFirst(s: State, events: seq<Event>, configs: set<string>)
    requires events != [] && IsRun(s, events, configs)
    ensures Enabled(s, events[0]) && IsRun(Apply(s, events[0], configs), events[1..], configs)
    ensures Run(s, events, configs) == Run(Apply(s, events[0], configs), events[1..], configs)
    ensures Outcomes(events) == (if events[0].Finish? then [events[0].ok] else []) + Outcomes(events[1..])
  {
  }

  lemma {:induction false} RunSettles(s: State, events: seq<Event>, configs: set<string>)
    requires IsRun(s, events, configs) && RunningConfigured(s, configs) && UnconfiguredFail(s.settled, configs)
    ensures var end := Run(s, events, configs);
      && UnconfiguredFail(end.settled, configs)
      && Worked(end.settled, configs) == Worked(s.settled, configs) + Outcomes(events)
    decreases |events|
  {
    hide Worked, Apply, UnconfiguredFail, RunningConfigured, Enabled;
    if events == [] {
      assert Worked(s.settled, configs) + [] == Worked(s.settled, configs);
    } else {
      var s', rest := Apply(s, events[0], configs), events[1..];
      RunFirst(s, events, configs);
      hide Run, IsRun, Outcomes;
      StepSettles(s, events[0], configs);
      RunSettles(s', rest, configs);
      var first := if events[0].Finish? then [events[0].ok] else [];
      var before := Worked(s.settled, configs);
      assert before + first + Outcomes(rest) == before + (first + Outcomes(rest));
    }
  }

  // ---------------------------------------------------------------------------------------------
  // The webhook gate
  // ---------------------------------------------------------------------------------------------

  /** The gate is closed: a refresh is running or waiting. */
  predicate HasRefreshJob(s: State) {
    || (s.current.Some? && s.current.value.kind.RefreshAccounts?)
    || (exists i :: 0 <= i < |s.queue| && s.queue[i].kind.RefreshAccounts?)
  }

  /** A webhook passes exactly when every refresh ever queued has already settled. */
  lemma GateOpenIffRefreshesSettled(events: seq<Event>, configs: set<string>)
    requires IsRun(Initial, events, configs)
    ensures var s := Run(Initial, events, configs);
      && |s.settled| <= |s.enqueued|
      && (!HasRefreshJob(s) <==>
            forall i :: |s.settled| <= i < |s.enqueued| ==> !s.enqueued[i].kind.RefreshAccounts?)
  {
    assert Inv(Initial);
    RunKeeps(Initial, events, configs);
    var s := Run(Initial, events, configs);
    var n, r := |s.settled|, |Running(s)|;
    assert s.enqueued == Jobs(s.settled) + Running(s) + s.queue;
    assert s.enqueued[n..n + r] == Running(s) && s.enqueued[n + r..] == s.queue;
    assert r == 1 ==> s.enqueued[n] == s.enqueued[n..n + r][0] == s.current.value;
    assert forall i :: 0 <= i < |s.queue| ==> s.queue[i] == s.enqueued[n + r + i];
    assert forall i :: n + r <= i < |s.enqueued| ==> s.enqueued[i] == s.queue[i - n - r];
  }

  // ---------------------------------------------------------------------------------------------
  // The program
  // ---------------------------------------------------------------------------------------------

  class SinkServer {
    const configs: set<string>
    var processingJob: bool
    var currentJob: Option<Job>
    var jobQueue: seq<Job>
    var ticks: nat
    ghost var enqueued: seq<Job>
    ghost var started: seq<Job>
    ghost var settled: seq<Settled>

    ghost function Abs(): State
      reads this
    {
      State(currentJob, jobQueue, ticks, enqueued, started, settled)
    }

    ghost predicate Valid()
      reads this
    {
      Inv(Abs()) && (processingJob <==> currentJob.Some?)
    }

    constructor (configs: set<string>)
      ensures Valid() && Abs() == Initial && this.configs == configs
    {
      this.configs := configs;
      processingJob, currentJob, jobQueue, ticks := false, None, [], 0;
      enqueued, started, settled := [], [], [];
    }

    method ProcessJobQueue()
      requires processingJob <==> currentJob.Some?
      modifies this
      ensures Abs() == Process(old(Abs()), configs)
      ensures processingJob <==> currentJob.Some?
    {
      if processingJob || |jobQueue| == 0 {
        return;
      }
      processingJob := true;
      var job := jobQueue[0];
      jobQueue := jobQueue[1..];
      started := started + [job];
      currentJob := Some(job);
      if job.programId !in configs {
        JobDone(false);
      }
    }

    /** resolve or reject, then the finally block. */
    method JobDone(ok: bool)
      requires currentJob.Some?
      modifies this
      ensures Abs() == Apply(old(Abs()), Finish(ok), configs) && !processingJob
    {
      settled := settled + [Settled(currentJob.value, ok)];
      processingJob := false;
      currentJob := None;
      ticks := ticks + 1;
    }

    method QueueJob(job: Job)
      requires Valid()
      modifies this
      ensures Abs() == Apply(old(Abs()), Enqueue(job), configs) && Valid()
    {
      StepKeeps(Abs(), Enqueue(job), configs);
      jobQueue := jobQueue + [job];
      enqueued := enqueued + [job];
      ProcessJobQueue();
    }

    method RunTick()
      requires Valid() && ticks > 0
      modifies this
      ensures Abs() == Apply(old(Abs()), Tick, configs) && Valid()
    {
      StepKeeps(Abs(), Tick, configs);
      ticks := ticks - 1;
      ProcessJobQueue();
    }

    method FinishJob(ok: bool)
      requires Valid() && currentJob.Some?
      modifies this
      ensures Abs() == Apply(old(Abs()), Finish(ok), configs) && Valid()
    {
      StepKeeps(Abs(), Finish(ok), configs);
      JobDone(ok);
    }

    /** The check at the head of both webhooks. */
    method Admits() returns (admitted: bool)
      ensures admitted <==> !HasRefreshJob(Abs())
    {
      if currentJob.Some? && currentJob.value.kind.RefreshAccounts? {
        return false;
      }
      for i := 0 to |jobQueue|
        invariant forall j :: 0 <= j < i ==> !jobQueue[j].kind.RefreshAccounts?
      {
        if jobQueue[i].kind.RefreshAccounts? {
          return false;
        }
      }
      return true;
    }
  }
}
