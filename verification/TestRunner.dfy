/** The parallel test runner: worker threads, the two queues they share with the main thread,
    and the main thread's dispatcher, break markers and collector. */
module TestRunner {

  /** A job; `isBreak` marks both a worker's stop order and a job thrown back after an interrupt. */
  datatype Job = Job(id: nat, isSkip: bool, isBreak: bool, returncode: int)

  /** A worker thread between two operations on the queues or on the interrupt flag. */
  datatype Worker =
    | Waiting
    | Got(job: Job)
    | Reporting(job: Job, leaving: bool)
    | Exited

  /** `dispatched` counts what the main thread has put into the input queue. */
  datatype State = State(
    dispatched: nat, input: seq<Job>, workers: seq<Worker>, output: seq<Job>,
    collected: seq<Job>, interrupted: bool)

  datatype Event =
    | Put
    | Take(w: nat)
    | Check(w: nat, code: int)
    | Report(w: nat)
    | Interrupt
    | Collect

  /** The test list and the number of processors. */
  datatype Setup = Setup(jobs: seq<Job>, processors: nat) {

    ghost predicate Valid() {
      forall i :: 0 <= i < |jobs| ==> jobs[i].id == i && !jobs[i].isBreak
    }

    /** Everything the main thread puts into the input queue, in order. */
    function DispatchList(): (r: seq<Job>)
      ensures |r| == |jobs| + processors
      ensures forall i :: 0 <= i < |jobs| ==> r[i] == jobs[i]
      ensures forall i :: |jobs| <= i < |r| ==> r[i].isBreak
    {
      jobs + seq(processors, (i: nat) => Job(|jobs| + i, false, true, 0))
    }

    function Init(): State {
      State(0, [], seq(processors, i => Waiting), [], [], false)
    }

    predicate Enabled(s: State, e: Event) {
      match e
      case Put => s.dispatched < |DispatchList()|
      case Take(w) => w < |s.workers| && s.workers[w].Waiting? && s.input != []
      case Check(w, _) => w < |s.workers| && s.workers[w].Got?
      case Report(w) => w < |s.workers| && s.workers[w].Reporting?
      case Interrupt => !s.interrupted
      case Collect => s.dispatched == |DispatchList()| && |s.collected| < |jobs| && s.output != []
    }

    function Next(s: State, e: Event): State
      requires Enabled(s, e)
    {
      match e
      case Put =>
        s.(dispatched := s.dispatched + 1, input := s.input + [DispatchList()[s.dispatched]])
      case Take(w) =>
        var job := s.input[0];
        s.(input := s.input[1..], workers := s.workers[w := if job.isBreak then Exited else Got(job)])
      case Check(w, code) =>
        var job := s.workers[w].job;
        var reporting :=
          if s.interrupted then Reporting(job.(isBreak := true), false)
          else if job.isSkip then Reporting(job, true)
          else Reporting(job.(returncode := code), false);
        s.(workers := s.workers[w := reporting])
      case Report(w) =>
        var done := s.workers[w];
        s.(output := s.output + [done.job], workers := s.workers[w := if done.leaving then Exited else Waiting])
      case Interrupt => s.(interrupted := true)
      case Collect => s.(output := s.output[1..], collected := s.collected + [s.output[0]])
    }

    /** A run, as the states it passes through; any interleaving of the threads is one. */
    ghost predicate IsRun(states: seq<State>, events: seq<Event>) {
      && |states| == |events| + 1
      && states[0] == Init()
      && forall i :: 0 <= i < |events| ==> Enabled(states[i], events[i]) && states[i + 1] == Next(states[i], events[i])
    }

    /** Nothing but an interrupt can still happen. */
    ghost predicate Stuck(s: State) {
      forall e :: Enabled(s, e) ==> e.Interrupt?
    }

    predicate CollectorDone(s: State) { s.dispatched == |DispatchList()| && |s.collected| == |jobs| }
  }

  // ---------------------------------------------------------------- counting

  function Skips(jobs: seq<Job>): nat {
    if jobs == [] then 0 else Skips(jobs[..|jobs| - 1]) + (if jobs[|jobs| - 1].isSkip then 1 else 0)
  }

  /** How many entries make the worker that takes them leave, when nobody interrupts. */
  function Exits(list: seq<Job>): nat {
    if list == [] then 0
    else Exits(list[..|list| - 1]) + (if list[|list| - 1].isBreak || list[|list| - 1].isSkip then 1 else 0)
  }

  /** How many jobs come back: all up to and including the P-th one to be skipped. */
  function Served(jobs: seq<Job>, processors: nat): nat {
    if processors == 0 || jobs == [] then 0
    else 1 + Served(jobs[1..], if jobs[0].isSkip then processors - 1 else processors)
  }

  lemma SkipsCons(jobs: seq<Job>)
    requires jobs != []
    ensures Skips(jobs) == (if jobs[0].isSkip then 1 else 0) + Skips(jobs[1..])
  {
    if |jobs| > 1 {
      var front := jobs[..|jobs| - 1];
      SkipsCons(front);
      assert front[1..] == jobs[1..][..|jobs| - 2];
    }
  }

  lemma SkipsMono(jobs: seq<Job>, m: nat, n: nat)
    requires m <= n <= |jobs|
    ensures Skips(jobs[..m]) <= Skips(jobs[..n])
  {
    if m < n {
      SkipsMono(jobs, m, n - 1);
      assert jobs[..n][..n - 1] == jobs[..n - 1];
    }
  }

  /** `Served` is the one prefix length that ends the jobs or just uses up the workers. */
  lemma {:induction false} ServedUnique(jobs: seq<Job>, processors: nat, n: nat)
    requires n <= |jobs| && Skips(jobs[..n]) <= processors
    requires n == |jobs| || Skips(jobs[..n]) == processors
    requires n > 0 ==> Skips(jobs[..n - 1]) < processors
    ensures n == Served(jobs, processors)
  {
    if processors > 0 && jobs != [] {
      assert jobs[..0] == [];
      assert n > 0;
      var rest := jobs[1..];
      SkipsCons(jobs[..n]);
      assert jobs[..n][1..] == rest[..n - 1];
      if n > 1 {
        SkipsCons(jobs[..n - 1]);
        assert jobs[..n - 1][1..] == rest[..n - 2];
      }
      ServedUnique(rest, if jobs[0].isSkip then processors - 1 else processors, n - 1);
    }
  }

  lemma {:induction false} ServedIsLeast(jobs: seq<Job>, processors: nat)
    ensures var n := Served(jobs, processors);
            && n <= |jobs| && Skips(jobs[..n]) <= processors
            && (n == |jobs| || Skips(jobs[..n]) == processors)
            && (n > 0 ==> Skips(jobs[..n - 1]) < processors)
  {
    if processors > 0 && jobs != [] {
      var n, rest := Served(jobs, processors), jobs[1..];
      ServedIsLeast(rest, if jobs[0].isSkip then processors - 1 else processors);
      SkipsCons(jobs[..n]);
      assert jobs[..n][1..] == rest[..n - 1];
      if n > 1 {
        SkipsCons(jobs[..n - 1]);
        assert jobs[..n - 1][1..] == rest[..n - 2];
      }
    }
  }

  /** No job stands behind the one at which the last worker leaves. */
  predicate NoJobBehindLastWorker(setup: Setup) {
    setup.jobs == [] || Skips(setup.jobs[..|setup.jobs| - 1]) < setup.processors
  }

  lemma ServedAllIff(setup: Setup)
    ensures Served(setup.jobs, setup.processors) == |setup.jobs| <==> NoJobBehindLastWorker(setup)
  {
    var jobs, n := setup.jobs, Served(setup.jobs, setup.processors);
    ServedIsLeast(jobs, setup.processors);
    if n < |jobs| {
      SkipsMono(jobs, n, |jobs| - 1);
    }
  }

  /** How often job `id` occurs in a list. */
  function Occurs(list: seq<Job>, id: nat): nat {
    if list == [] then 0 else Occurs(list[..|list| - 1], id) + (if list[|list| - 1].id == id then 1 else 0)
  }

  lemma OccursAppend(list: seq<Job>, job: Job, id: nat)
    ensures Occurs(list + [job], id) == Occurs(list, id) + (if job.id == id then 1 else 0)
  {
    assert (list + [job])[..|list|] == list;
  }

  lemma {:induction false} OccursCons(list: seq<Job>, id: nat)
    requires list != []
    ensures Occurs(list, id) == Occurs(list[1..], id) + (if list[0].id == id then 1 else 0)
  {
    var front := list[..|list| - 1];
    if |list| == 1 {
      assert front == [] && list[1..] == [];
    } else {
      OccursCons(front, id);
      assert front[1..] == list[1..][..|list| - 2];
    }
  }

  predicate Holds(w: Worker, id: nat) { (w.Got? || w.Reporting?) && w.job.id == id }

  predicate Busy(w: Worker) { w.Got? || w.Reporting? }

  /** Has the worker left, or is it sure to leave after its report? */
  predicate Leaves(w: Worker) { w.Exited? || (w.Reporting? && w.leaving) }

  predicate HoldsSkip(w: Worker) { w.Got? && w.job.isSkip }

  function Count(workers: seq<Worker>, p: Worker -> bool): nat {
    if workers == [] then 0
    else Count(workers[..|workers| - 1], p) + (if p(workers[|workers| - 1]) then 1 else 0)
  }

  lemma CountUpdate(workers: seq<Worker>, i: nat, w: Worker, p: Worker -> bool)
    requires i < |workers|
    ensures Count(workers[i := w], p) == Count(workers, p) - (if p(workers[i]) then 1 else 0) + (if p(w) then 1 else 0)
  {
    var n := |workers| - 1;
    if i < n {
      CountUpdate(workers[..n], i, w, p);
      assert workers[i := w][..n] == workers[..n][i := w];
    } else {
      assert workers[i := w][..n] == workers[..n];
    }
  }

  /** Two exclusive properties cannot hold of more workers than there are; one idle worker leaves room. */
  lemma CountBound(workers: seq<Worker>, p: Worker -> bool, q: Worker -> bool)
    requires forall w :: !(p(w) && q(w))
    ensures Count(workers, p) + Count(workers, q) <= |workers|
    ensures (exists i :: 0 <= i < |workers| && !p(workers[i]) && !q(workers[i])) ==>
              Count(workers, p) + Count(workers, q) < |workers|
    ensures (forall i :: 0 <= i < |workers| ==> p(workers[i])) ==>
      Count(workers, p) == |workers| && Count(workers, q) == 0
  {
    if workers != [] {
      var front := workers[..|workers| - 1];
      CountBound(front, p, q);
      if i :| 0 <= i < |workers| && !p(workers[i]) && !q(workers[i]) {
        assert i < |front| ==> front[i] == workers[i];
      }
    }
  }

  // ---------------------------------------------------------------- the invariant of every run

  /** A job as it was dispatched, whatever the worker wrote into it. */
  predicate SameJob(a: Job, b: Job) { a.id == b.id && a.isSkip == b.isSkip }

  ghost predicate Original(setup: Setup, job: Job) {
    job.id < |setup.jobs| && SameJob(job, setup.jobs[job.id])
  }

  /** How many entries of the dispatch list workers have taken. */
  function Taken(s: State): int { s.dispatched - |s.input| }

  function JobsTaken(setup: Setup, s: State): int {
    if Taken(s) < |setup.jobs| then Taken(s) else |setup.jobs|
  }

  ghost predicate QueueOk(setup: Setup, s: State) {
    && |s.workers| == setup.processors
    && 0 <= Taken(s) && s.dispatched <= |setup.DispatchList()|
    && s.input == setup.DispatchList()[Taken(s)..s.dispatched]
  }

  ghost predicate WorkersOk(setup: Setup, s: State) {
    && (forall w :: 0 <= w < |s.workers| && (s.workers[w].Got? || s.workers[w].Reporting?) ==>
      Original(setup, s.workers[w].job))
    && (forall w :: 0 <= w < |s.workers| && s.workers[w].Got? ==> !s.workers[w].job.isBreak)
    && (forall i :: 0 <= i < |s.output| ==> Original(setup, s.output[i]))
    && (forall i :: 0 <= i < |s.collected| ==> Original(setup, s.collected[i]))
  }

  /** How many workers, whether before or after running it, hold job `id`. */
  function HeldBy(workers: seq<Worker>, id: nat): nat { Count(workers, w => Holds(w, id)) }

  /** Each taken job is with one worker, in the output queue, or collected. */
  ghost predicate JobsOk(setup: Setup, s: State)
    requires QueueOk(setup, s)
  {
    && (forall id: nat {:trigger Occurs(s.output, id)} {:trigger Occurs(s.collected, id)} ::
          HeldBy(s.workers, id) + Occurs(s.output, id) + Occurs(s.collected, id) ==
            if id < JobsTaken(setup, s) then 1 else 0)
    && Count(s.workers, Busy) + |s.output| + |s.collected| == JobsTaken(setup, s)
  }

  /** Workers leave because of what they took, and a worker that takes a break marker leaves. */
  ghost predicate LeavingOk(setup: Setup, s: State)
    requires QueueOk(setup, s)
  {
    var leaving, skipping := Count(s.workers, Leaves), Count(s.workers, HoldsSkip);
    && leaving >= Taken(s) - JobsTaken(setup, s)
    && leaving + skipping <= Exits(setup.DispatchList()[..Taken(s)])
    && (!s.interrupted ==> leaving + skipping == Exits(setup.DispatchList()[..Taken(s)]))
    && (!s.interrupted && Taken(s) > 0 ==> Exits(setup.DispatchList()[..Taken(s) - 1]) < setup.processors)
  }

  ghost predicate Inv(setup: Setup, s: State) {
    QueueOk(setup, s) && WorkersOk(setup, s) && JobsOk(setup, s) && LeavingOk(setup, s)
  }

  lemma InitInv(setup: Setup)
    requires setup.Valid()
    ensures Inv(setup, setup.Init())
  {
    var s := setup.Init();
    AllWaiting(s.workers);
    assert s.output == [] && s.collected == [] && setup.DispatchList()[..0] == [];
    forall id: nat ensures HeldBy(s.workers, id) + Occurs(s.output, id) + Occurs(s.collected, id) == 0 {}
    hide Count;
  }

  lemma {:induction false} AllWaiting(workers: seq<Worker>)
    requires forall i :: 0 <= i < |workers| ==> workers[i] == Waiting
    ensures Count(workers, Leaves) == Count(workers, HoldsSkip) == Count(workers, Busy) == 0
    ensures forall id :: HeldBy(workers, id) == 0
  {
    if workers != [] {
      AllWaiting(workers[..|workers| - 1]);
      forall id ensures HeldBy(workers, id) == 0 {
        assert HeldBy(workers[..|workers| - 1], id) == 0;
      }
    }
  }

  lemma ExitsStep(list: seq<Job>, t: nat)
    requires t < |list|
    ensures Exits(list[..t + 1]) == Exits(list[..t]) + (if list[t].isBreak || list[t].isSkip then 1 else 0)
  {
    assert list[..t + 1][..t] == list[..t];
  }

  lemma PutQueue(setup: Setup, s: State)
    requires QueueOk(setup, s) && setup.Enabled(s, Put)
    ensures QueueOk(setup, setup.Next(s, Put)) && Taken(setup.Next(s, Put)) == Taken(s)
  {
  }

  lemma PutInv(setup: Setup, s: State)
    requires Inv(setup, s) && setup.Enabled(s, Put)
    ensures Inv(setup, setup.Next(s, Put))
  {
    PutQueue(setup, s);
    hide Taken, QueueOk, Count, Exits, Occurs, Setup.DispatchList;
  }

  lemma TakeJobs(setup: Setup, s: State, w: nat)
    requires QueueOk(setup, s) && JobsOk(setup, s) && setup.Valid() && setup.Enabled(s, Take(w))
    requires QueueOk(setup, setup.Next(s, Take(w)))
    ensures JobsOk(setup, setup.Next(s, Take(w)))
  {
    var s' := setup.Next(s, Take(w));
    assert s.input[0] == setup.DispatchList()[Taken(s)];
    CountUpdate(s.workers, w, s'.workers[w], Busy);
    forall id: nat
      ensures HeldBy(s'.workers, id) + Occurs(s'.output, id) + Occurs(s'.collected, id) ==
        if id < JobsTaken(setup, s') then 1 else 0
    {
      CountUpdate(s.workers, w, s'.workers[w], w => Holds(w, id));
      assert HeldBy(s.workers, id) + Occurs(s.output, id) + Occurs(s.collected, id) ==
        if id < JobsTaken(setup, s) then 1 else 0;
      hide Count, Occurs;
    }
    hide Count, Occurs;
  }

  /** A waiting worker that turns to something else. */
  lemma WaitingTurns(workers: seq<Worker>, w: nat, worker: Worker)
    requires w < |workers| && workers[w].Waiting?
    ensures Count(workers[w := worker], Leaves) == Count(workers, Leaves) + if Leaves(worker) then 1 else 0
    ensures Count(workers[w := worker], HoldsSkip) == Count(workers, HoldsSkip) + if HoldsSkip(worker) then 1 else 0
    ensures Count(workers, Leaves) + Count(workers, HoldsSkip) < |workers|
  {
    CountUpdate(workers, w, worker, Leaves);
    CountUpdate(workers, w, worker, HoldsSkip);
    CountBound(workers, Leaves, HoldsSkip);
  }

  lemma TakeQueue(setup: Setup, s: State, w: nat)
    requires QueueOk(setup, s) && setup.Valid() && setup.Enabled(s, Take(w))
    ensures var t, s' := Taken(s), setup.Next(s, Take(w));
      && 0 <= t < |setup.DispatchList()| && s.input[0] == setup.DispatchList()[t] && Taken(s') == t + 1
      && (setup.DispatchList()[t].isBreak <==> t >= |setup.jobs|)
      && s'.workers == s.workers[w := if s.input[0].isBreak then Exited else Got(s.input[0])]
  {
  }

  lemma TakeLeaving(setup: Setup, s: State, w: nat)
    requires QueueOk(setup, s) && LeavingOk(setup, s) && setup.Valid() && setup.Enabled(s, Take(w))
    requires QueueOk(setup, setup.Next(s, Take(w)))
    ensures LeavingOk(setup, setup.Next(s, Take(w)))
  {
    hide Count, Exits, QueueOk, Taken, Setup.DispatchList, Setup.Valid;
    var t, s' := Taken(s), setup.Next(s, Take(w));
    TakeQueue(setup, s, w);
    ExitsStep(setup.DispatchList(), t);
    WaitingTurns(s.workers, w, s'.workers[w]);
    assert |s.workers| == setup.processors by { ProcessorsOf(setup, s); }
  }

  lemma ProcessorsOf(setup: Setup, s: State)
    requires QueueOk(setup, s)
    ensures |s.workers| == setup.processors
  {
  }

  lemma TakeInv(setup: Setup, s: State, w: nat)
    requires setup.Valid() && Inv(setup, s) && setup.Enabled(s, Take(w))
    ensures Inv(setup, setup.Next(s, Take(w)))
  {
    hide JobsOk, LeavingOk;
    assert s.input[0] == setup.DispatchList()[Taken(s)];
    TakeJobs(setup, s, w);
    TakeLeaving(setup, s, w);
  }

  lemma CheckJobs(setup: Setup, s: State, w: nat, code: int)
    requires QueueOk(setup, s) && JobsOk(setup, s) && setup.Valid() && setup.Enabled(s, Check(w, code))
    requires QueueOk(setup, setup.Next(s, Check(w, code)))
    ensures JobsOk(setup, setup.Next(s, Check(w, code)))
  {
    var s' := setup.Next(s, Check(w, code));
    CountUpdate(s.workers, w, s'.workers[w], Busy);
    forall id: nat
      ensures HeldBy(s'.workers, id) + Occurs(s'.output, id) + Occurs(s'.collected, id) ==
        if id < JobsTaken(setup, s') then 1 else 0
    {
      CountUpdate(s.workers, w, s'.workers[w], w => Holds(w, id));
      assert HeldBy(s.workers, id) + Occurs(s.output, id) + Occurs(s.collected, id) ==
        if id < JobsTaken(setup, s) then 1 else 0;
      hide Count, Occurs;
    }
    hide Count, Occurs;
  }

  lemma CheckLeaving(setup: Setup, s: State, w: nat, code: int)
    requires QueueOk(setup, s) && LeavingOk(setup, s) && setup.Enabled(s, Check(w, code))
    requires QueueOk(setup, setup.Next(s, Check(w, code)))
    ensures LeavingOk(setup, setup.Next(s, Check(w, code)))
  {
    var s' := setup.Next(s, Check(w, code));
    CountUpdate(s.workers, w, s'.workers[w], Leaves);
    CountUpdate(s.workers, w, s'.workers[w], HoldsSkip);
    hide Count, Exits;
  }

  lemma CheckInv(setup: Setup, s: State, w: nat, code: int)
    requires setup.Valid() && Inv(setup, s) && setup.Enabled(s, Check(w, code))
    ensures Inv(setup, setup.Next(s, Check(w, code)))
  {
    hide JobsOk, LeavingOk;
    CheckJobs(setup, s, w, code);
    CheckLeaving(setup, s, w, code);
  }

  lemma ReportJobs(setup: Setup, s: State, w: nat)
    requires QueueOk(setup, s) && JobsOk(setup, s) && setup.Valid() && setup.Enabled(s, Report(w))
    requires QueueOk(setup, setup.Next(s, Report(w)))
    ensures JobsOk(setup, setup.Next(s, Report(w)))
  {
    var s' := setup.Next(s, Report(w));
    CountUpdate(s.workers, w, s'.workers[w], Busy);
    forall id: nat
      ensures HeldBy(s'.workers, id) + Occurs(s'.output, id) + Occurs(s'.collected, id) ==
        if id < JobsTaken(setup, s') then 1 else 0
    {
      CountUpdate(s.workers, w, s'.workers[w], w => Holds(w, id));
      OccursAppend(s.output, s.workers[w].job, id);
      assert HeldBy(s.workers, id) + Occurs(s.output, id) + Occurs(s.collected, id) ==
        if id < JobsTaken(setup, s) then 1 else 0;
      hide Count, Occurs;
    }
    hide Count, Occurs;
  }

  lemma ReportLeaving(setup: Setup, s: State, w: nat)
    requires QueueOk(setup, s) && LeavingOk(setup, s) && setup.Enabled(s, Report(w))
    requires QueueOk(setup, setup.Next(s, Report(w)))
    ensures LeavingOk(setup, setup.Next(s, Report(w)))
  {
    var s' := setup.Next(s, Report(w));
    CountUpdate(s.workers, w, s'.workers[w], Leaves);
    CountUpdate(s.workers, w, s'.workers[w], HoldsSkip);
    hide Count, Exits;
  }

  lemma ReportInv(setup: Setup, s: State, w: nat)
    requires setup.Valid() && Inv(setup, s) && setup.Enabled(s, Report(w))
    ensures Inv(setup, setup.Next(s, Report(w)))
  {
    hide JobsOk, LeavingOk;
    ReportJobs(setup, s, w);
    ReportLeaving(setup, s, w);
  }

  lemma CollectJobs(setup: Setup, s: State)
    requires QueueOk(setup, s) && JobsOk(setup, s) && setup.Enabled(s, Collect)
    ensures QueueOk(setup, setup.Next(s, Collect)) && JobsOk(setup, setup.Next(s, Collect))
  {
    var s' := setup.Next(s, Collect);
    forall id: nat
      ensures HeldBy(s'.workers, id) + Occurs(s'.output, id) + Occurs(s'.collected, id) ==
        if id < JobsTaken(setup, s') then 1 else 0
    {
      OccursCons(s.output, id);
      OccursAppend(s.collected, s.output[0], id);
      assert HeldBy(s.workers, id) + Occurs(s.output, id) + Occurs(s.collected, id) ==
        if id < JobsTaken(setup, s) then 1 else 0;
      hide Count, Occurs;
    }
    hide Count, Occurs;
  }

  lemma CollectWorkers(setup: Setup, s: State)
    requires setup.Enabled(s, Collect) && WorkersOk(setup, s)
    ensures WorkersOk(setup, setup.Next(s, Collect))
  {
    hide Setup.DispatchList;
  }

  lemma CollectLeaving(setup: Setup, s: State)
    requires setup.Enabled(s, Collect) && QueueOk(setup, s) && LeavingOk(setup, s)
    ensures QueueOk(setup, setup.Next(s, Collect)) && LeavingOk(setup, setup.Next(s, Collect))
  {
    hide Setup.DispatchList, Count, Exits;
  }

  lemma CollectInv(setup: Setup, s: State)
    requires setup.Valid() && Inv(setup, s) && setup.Enabled(s, Collect)
    ensures Inv(setup, setup.Next(s, Collect))
  {
    hide JobsOk, LeavingOk, WorkersOk, QueueOk, Setup.Valid, Setup.Next, Setup.Enabled;
    CollectJobs(setup, s);
    CollectWorkers(setup, s);
    CollectLeaving(setup, s);
  }

  lemma InterruptInv(setup: Setup, s: State)
    requires Inv(setup, s)
    ensures Inv(setup, s.(interrupted := true))
  {
  }

  lemma StepInv(setup: Setup, s: State, e: Event)
    requires setup.Valid() && Inv(setup, s) && setup.Enabled(s, e)
    ensures Inv(setup, setup.Next(s, e))
  {
    hide Inv;
    match e
    case Put => PutInv(setup, s);
    case Take(w) => TakeInv(setup, s, w);
    case Check(w, code) => CheckInv(setup, s, w, code);
    case Report(w) => ReportInv(setup, s, w);
    case Interrupt => InterruptInv(setup, s);
    case Collect => CollectInv(setup, s);
  }

  /** The invariant holds in every state of every run. */
  lemma RunInv(setup: Setup, states: seq<State>, events: seq<Event>, i: nat)
    requires setup.Valid() && setup.IsRun(states, events) && i < |states|
    ensures Inv(setup, states[i])
  {
    if i == 0 {
      InitInv(setup);
    } else {
      RunInv(setup, states, events, i - 1);
      StepInv(setup, states[i - 1], events[i - 1]);
    }
  }

  // ---------------------------------------------------------------- where the jobs are

  lemma {:induction false} OccursSlice(setup: Setup, from: nat, to: nat, id: nat)
    requires setup.Valid() && from <= to <= |setup.DispatchList()| && id < |setup.jobs|
    ensures Occurs(setup.DispatchList()[from..to], id) == if from <= id < to then 1 else 0
  {
    var list := setup.DispatchList();
    if from < to {
      OccursSlice(setup, from, to - 1, id);
      assert list[from..to][..to - 1 - from] == list[from..to - 1];
      assert to - 1 < |setup.jobs| ==> list[to - 1].id == to - 1;
      assert to - 1 >= |setup.jobs| ==> list[to - 1].id >= |setup.jobs|;
    }
  }

  /** In every state of every run each job is in exactly one place. */
  lemma OnePlace(setup: Setup, states: seq<State>, events: seq<Event>, i: nat, id: nat)
    requires setup.Valid() && setup.IsRun(states, events) && i < |states| && id < |setup.jobs|
    ensures var s := states[i];
      (if id >= s.dispatched then 1 else 0) + Occurs(s.input, id) + HeldBy(s.workers, id)
        + Occurs(s.output, id) + Occurs(s.collected, id) == 1
  {
    var s := states[i];
    RunInv(setup, states, events, i);
    OccursSlice(setup, Taken(s), s.dispatched, id);
    assert HeldBy(s.workers, id) + Occurs(s.output, id) + Occurs(s.collected, id) ==
      if id < JobsTaken(setup, s) then 1 else 0;
    hide Occurs, HeldBy;
  }

  // ---------------------------------------------------------------- every run ends

  function WorkerLoad(w: Worker): nat {
    match w
    case Waiting => 0
    case Got(_) => 3
    case Reporting(_, _) => 2
    case Exited => 0
  }

  function Load(workers: seq<Worker>): nat {
    if workers == [] then 0 else Load(workers[..|workers| - 1]) + WorkerLoad(workers[|workers| - 1])
  }

  lemma {:induction false} LoadUpdate(workers: seq<Worker>, i: nat, w: Worker)
    requires i < |workers|
    ensures Load(workers[i := w]) + WorkerLoad(workers[i]) == Load(workers) + WorkerLoad(w)
  {
    var n := |workers| - 1;
    if i < n {
      LoadUpdate(workers[..n], i, w);
      assert workers[i := w][..n] == workers[..n][i := w];
    } else {
      assert workers[i := w][..n] == workers[..n];
    }
  }

  /** What is left to do: 5 for an entry not yet dispatched, down to 0 for a collected job. */
  function Measure(setup: Setup, s: State): int {
    5 * (|setup.DispatchList()| - s.dispatched) + 4 * |s.input| + Load(s.workers) + |s.output|
    + (if s.interrupted then 0 else 1)
  }

  /** Every step, of whatever thread, leaves less to do. */
  lemma StepProgress(setup: Setup, s: State, e: Event)
    requires setup.Enabled(s, e)
    ensures Measure(setup, setup.Next(s, e)) < Measure(setup, s)
  {
    match e
    case Take(w) => LoadUpdate(s.workers, w, setup.Next(s, e).workers[w]);
    case Check(w, _) => LoadUpdate(s.workers, w, setup.Next(s, e).workers[w]);
    case Report(w) => LoadUpdate(s.workers, w, setup.Next(s, e).workers[w]);
    case _ =>
  }

  lemma {:induction false} LoadOfWaiting(workers: seq<Worker>)
    requires forall i :: 0 <= i < |workers| ==> workers[i] == Waiting
    ensures Load(workers) == 0
  {
    if workers != [] { LoadOfWaiting(workers[..|workers| - 1]); }
  }

  lemma {:induction false} MeasureAlong(setup: Setup, states: seq<State>, events: seq<Event>, i: nat)
    requires setup.IsRun(states, events) && i < |states|
    ensures Measure(setup, states[i]) + i <= 5 * |setup.DispatchList()| + 1
  {
    if i == 0 {
      LoadOfWaiting(states[0].workers);
    } else {
      MeasureAlong(setup, states, events, i - 1);
      StepProgress(setup, states[i - 1], events[i - 1]);
    }
  }

  /** No run, interrupted or not, has more than five steps per dispatched entry and one interrupt. */
  lemma RunsAreBounded(setup: Setup, states: seq<State>, events: seq<Event>)
    requires setup.Valid() && setup.IsRun(states, events)
    ensures |events| <= 5 * (|setup.jobs| + setup.processors) + 1
  {
    MeasureAlong(setup, states, events, |events|);
    RunInv(setup, states, events, |events|);
    assert Measure(setup, states[|events|]) >= 0;
  }

  // ---------------------------------------------------------------- how a run ends

  lemma StuckMeans(setup: Setup, s: State)
    requires setup.Stuck(s)
    ensures s.dispatched >= |setup.DispatchList()|
    ensures forall w :: 0 <= w < |s.workers| ==> s.workers[w].Exited? || (s.workers[w].Waiting? && s.input == [])
    ensures s.dispatched == |setup.DispatchList()| ==> |s.collected| >= |setup.jobs| || s.output == []
  {
    assert !setup.Enabled(s, Put) && !setup.Enabled(s, Collect);
    forall w | 0 <= w < |s.workers| ensures s.workers[w].Exited? || (s.workers[w].Waiting? && s.input == []) {
      assert !setup.Enabled(s, Take(w)) && !setup.Enabled(s, Check(w, 0)) && !setup.Enabled(s, Report(w));
    }
  }

  /** However a run goes, when nothing more can happen all workers have left: every join returns. */
  lemma AllWorkersLeave(setup: Setup, states: seq<State>, events: seq<Event>)
    requires setup.Valid() && setup.IsRun(states, events) && setup.Stuck(states[|events|])
    ensures forall w :: 0 <= w < |states[|events|].workers| ==> states[|events|].workers[w].Exited?
    ensures Count(states[|events|].workers, Leaves) == setup.processors
    ensures Count(states[|events|].workers, Busy) == Count(states[|events|].workers, HoldsSkip) == 0
  {
    var s := states[|events|];
    RunInv(setup, states, events, |events|);
    StuckMeans(setup, s);
    CountBound(s.workers, Leaves, HoldsSkip);
    forall w | 0 <= w < |s.workers| ensures s.workers[w].Exited? {
      if s.workers[w].Waiting? {
        assert false;
      }
    }
    assert forall w :: 0 <= w < |s.workers| ==> Leaves(s.workers[w]);
    NoneBusy(s.workers);
  }

  lemma {:induction false} NoneBusy(workers: seq<Worker>)
    requires forall w :: 0 <= w < |workers| ==> workers[w].Exited?
    ensures Count(workers, Busy) == 0 && forall id :: HeldBy(workers, id) == 0
  {
    if workers != [] {
      NoneBusy(workers[..|workers| - 1]);
      forall id ensures HeldBy(workers, id) == 0 {
        assert HeldBy(workers[..|workers| - 1], id) == 0;
      }
    }
  }

  lemma {:induction false} ExitsOfJobs(setup: Setup, t: nat)
    requires setup.Valid() && t <= |setup.DispatchList()|
    ensures Exits(setup.DispatchList()[..t]) ==
            if t <= |setup.jobs| then Skips(setup.jobs[..t]) else Skips(setup.jobs) + (t - |setup.jobs|)
  {
    var list, jobs := setup.DispatchList(), setup.jobs;
    hide Exits, Skips;
    NoneCounted(list, jobs);
    assert jobs[..|jobs|] == jobs;
    if t > 0 {
      ExitsOfJobs(setup, t - 1);
      ExitsStep(list, t - 1);
      if t <= |jobs| { SkipsStep(jobs, t - 1); }
    }
  }

  lemma NoneCounted(list: seq<Job>, jobs: seq<Job>)
    ensures Exits(list[..0]) == Skips(jobs[..0]) == 0
  {
  }

  lemma SkipsStep(jobs: seq<Job>, t: nat)
    requires t < |jobs|
    ensures Skips(jobs[..t + 1]) == Skips(jobs[..t]) + if jobs[t].isSkip then 1 else 0
  {
    assert jobs[..t + 1][..t] == jobs[..t];
  }

  lemma TakenIsServed(setup: Setup, s: State)
    requires setup.Valid() && Inv(setup, s) && !s.interrupted && s.dispatched == |setup.DispatchList()|
    requires Count(s.workers, Leaves) == setup.processors && Count(s.workers, HoldsSkip) == 0
    ensures JobsTaken(setup, s) == Served(setup.jobs, setup.processors)
  {
    hide Exits, Skips, Served, Count, WorkersOk, JobsOk, Setup.DispatchList, Setup.Valid;
    var t, n, jobs := Taken(s), JobsTaken(setup, s), setup.jobs;
    ExitsOfJobs(setup, t);
    if t > 0 { ExitsOfJobs(setup, t - 1); }
    if t > |jobs| {
      assert jobs[..n] == jobs;
      if n > 0 { SkipsMono(jobs, n - 1, n); }
    }
    ServedUnique(jobs, setup.processors, n);
  }

  /** Without an interrupt the jobs that come back are, under every interleaving, exactly those up to
      the P-th skipped one; the collector then finishes iff no job stands behind that one. */
  lemma UninterruptedOutcome(setup: Setup, states: seq<State>, events: seq<Event>)
    requires setup.Valid() && setup.IsRun(states, events)
    requires setup.Stuck(states[|events|]) && !states[|events|].interrupted
    ensures var s := states[|events|];
      && (forall id: nat {:trigger Occurs(s.output, id)} {:trigger Occurs(s.collected, id)} ::
            Occurs(s.output, id) + Occurs(s.collected, id) ==
              if id < Served(setup.jobs, setup.processors) then 1 else 0)
      && (setup.CollectorDone(s) <==> NoJobBehindLastWorker(setup))
  {
    var s := states[|events|];
    AllWorkersLeave(setup, states, events);
    RunInv(setup, states, events, |events|);
    StuckMeans(setup, s);
    TakenIsServed(setup, s);
    ServedAllIff(setup);
    ServedIsLeast(setup.jobs, setup.processors);
    NoneBusy(s.workers);
    forall id: nat
      ensures Occurs(s.output, id) + Occurs(s.collected, id) ==
        if id < Served(setup.jobs, setup.processors) then 1 else 0
    {
      assert HeldBy(s.workers, id) + Occurs(s.output, id) + Occurs(s.collected, id) ==
        if id < JobsTaken(setup, s) then 1 else 0;
    }
  }

  /** When no job stands behind the last worker, interrupts or not, every run ends with all jobs collected. */
  lemma CollectorFinishes(setup: Setup, states: seq<State>, events: seq<Event>)
    requires setup.Valid() && setup.IsRun(states, events) && setup.Stuck(states[|events|])
    requires NoJobBehindLastWorker(setup)
    ensures setup.CollectorDone(states[|events|])
  {
    var s, jobs := states[|events|], setup.jobs;
    AllWorkersLeave(setup, states, events);
    RunInv(setup, states, events, |events|);
    StuckMeans(setup, s);
    var t := Taken(s);
    if t < |jobs| {
      ExitsOfJobs(setup, t);
      SkipsMono(jobs, t, |jobs| - 1);
      assert false;
    }
  }

  /** One worker, a job to skip and one behind it. */
  function SkippedFirst(): Setup { Setup([Job(0, true, false, 0), Job(1, false, false, 0)], 1) }

  function SkippedFirstEvents(): seq<Event> { [Put, Put, Put, Take(0), Check(0, 0), Report(0), Collect] }

  function SkippedFirstStates(): seq<State> {
    var skipped, other, stop := Job(0, true, false, 0), Job(1, false, false, 0), Job(2, false, true, 0);
    [ State(0, [], [Waiting], [], [], false),
      State(1, [skipped], [Waiting], [], [], false),
      State(2, [skipped, other], [Waiting], [], [], false),
      State(3, [skipped, other, stop], [Waiting], [], [], false),
      State(3, [other, stop], [Got(skipped)], [], [], false),
      State(3, [other, stop], [Reporting(skipped, true)], [], [], false),
      State(3, [other, stop], [Exited], [skipped], [], false),
      State(3, [other, stop], [Exited], [], [skipped], false) ]
  }

  lemma SkippedFirstStep(i: nat)
    requires i < |SkippedFirstEvents()|
    ensures var s, e := SkippedFirstStates()[i], SkippedFirstEvents()[i];
      SkippedFirst().Enabled(s, e) && SkippedFirstStates()[i + 1] == SkippedFirst().Next(s, e)
  {
  }

  /** The worker leaves after the skipped job: nothing can happen any more, and the collector waits for the
      other job. */
  lemma CollectorWaitsForever()
    ensures var setup, states, events := SkippedFirst(), SkippedFirstStates(), SkippedFirstEvents();
      && setup.Valid() && setup.IsRun(states, events)
      && setup.Stuck(states[|events|]) && !states[|events|].interrupted && !setup.CollectorDone(states[|events|])
  {
    var setup, states, events := SkippedFirst(), SkippedFirstStates(), SkippedFirstEvents();
    assert states[0] == setup.Init();
    forall i | 0 <= i < |events|
      ensures setup.Enabled(states[i], events[i]) && states[i + 1] == setup.Next(states[i], events[i])
    {
      SkippedFirstStep(i);
    }
  }

  /** A finished collector has every job once, and no job is left anywhere else. */
  lemma CollectedOnce(setup: Setup, states: seq<State>, events: seq<Event>, id: nat)
    requires setup.Valid() && setup.IsRun(states, events) && setup.CollectorDone(states[|events|]) && id < |setup.jobs|
    ensures Occurs(states[|events|].collected, id) == 1
    ensures states[|events|].output == [] && Count(states[|events|].workers, Busy) == 0
  {
    var s := states[|events|];
    RunInv(setup, states, events, |events|);
    assert HeldBy(s.workers, id) + Occurs(s.output, id) + Occurs(s.collected, id) ==
      if id < JobsTaken(setup, s) then 1 else 0;
    NotBusyHoldsNothing(s.workers, id);
  }

  lemma {:induction false} NotBusyHoldsNothing(workers: seq<Worker>, id: nat)
    ensures HeldBy(workers, id) <= Count(workers, Busy)
  {
    if workers != [] { NotBusyHoldsNothing(workers[..|workers| - 1], id); }
  }

  /** The jobs in the order in which they were reported: those collected, then those in the output queue. */
  function Reported(s: State): seq<Job> { s.collected + s.output }

  /** Jobs are collected in the order in which they were reported. */
  lemma {:induction false} ReportedGrows(setup: Setup, states: seq<State>, events: seq<Event>, i: nat, j: nat)
    requires setup.IsRun(states, events) && i <= j < |states|
    ensures Reported(states[i]) <= Reported(states[j])
    decreases j
  {
    if i < j {
      ReportedGrows(setup, states, events, i, j - 1);
      assert setup.Enabled(states[j - 1], events[j - 1]) && states[j] == setup.Next(states[j - 1], events[j - 1]);
      ReportedStep(setup, states[j - 1], events[j - 1]);
    }
  }

  lemma ReportedStep(setup: Setup, s: State, e: Event)
    requires setup.Enabled(s, e)
    ensures Reported(s) <= Reported(setup.Next(s, e))
    ensures !e.Report? ==> Reported(setup.Next(s, e)) == Reported(s)
    ensures e.Report? ==> Reported(setup.Next(s, e)) == Reported(s) + [s.workers[e.w].job]
  {
    match e
    case Report(w) =>
      assert s.collected + (s.output + [s.workers[w].job]) == (s.collected + s.output) + [s.workers[w].job];
    case Collect =>
      assert (s.collected + [s.output[0]]) + s.output[1..] == s.collected + s.output;
    case _ =>
  }

  /** Nothing is collected before everything has been put into the input queue. */
  lemma {:induction false} CollectsLast(setup: Setup, states: seq<State>, events: seq<Event>, i: nat)
    requires setup.IsRun(states, events) && i < |states| && states[i].collected != []
    ensures states[i].dispatched == |setup.jobs| + setup.processors
  {
    if i > 0 {
      var s, e := states[i - 1], events[i - 1];
      assert setup.Enabled(s, e) && states[i] == setup.Next(s, e);
      if s.collected != [] { CollectsLast(setup, states, events, i - 1); }
    }
  }

  /** Behind an interrupt every job that a worker looks at is thrown back, also one to be skipped, and the worker
      stays. */
  lemma {:induction false} ThrownBack(setup: Setup, states: seq<State>, events: seq<Event>, i: nat, k: nat)
    requires setup.IsRun(states, events) && i <= k < |events| && states[i].interrupted
    ensures states[k].interrupted
    ensures events[k].Check? ==> var w := events[k].w;
      && w < |states[k].workers| && w < |states[k + 1].workers| && states[k].workers[w].Got?
      && states[k + 1].workers[w] == Reporting(states[k].workers[w].job.(isBreak := true), false)
    decreases k
  {
    assert setup.Enabled(states[k], events[k]) && states[k + 1] == setup.Next(states[k], events[k]);
    if i < k {
      assert setup.Enabled(states[k - 1], events[k - 1]) && states[k] == setup.Next(states[k - 1], events[k - 1]);
      ThrownBack(setup, states, events, i, k - 1);
    }
  }

  // ---------------------------------------------------------------- the collector

  datatype Status = PASS | FAIL | VALGR | CRASH | SKIP | INTERRUPTED

  function StatusOf(job: Job): Status {
    if job.isBreak then INTERRUPTED
    else if job.isSkip then SKIP
    else if job.returncode == 0 then PASS
    else if job.returncode == 1 then FAIL
    else if job.returncode == 2 then VALGR
    else CRASH
  }

  function Tally(results: seq<Job>, status: Status): nat {
    if results == [] then 0
    else Tally(results[..|results| - 1], status) + (if StatusOf(results[|results| - 1]) == status then 1 else 0)
  }

  /** The results that were run and returned this code, and those that returned another code than 0, 1 and 2. */
  ghost function Returned(results: seq<Job>, code: int): set<nat> {
    set i | 0 <= i < |results| && !results[i].isBreak && !results[i].isSkip && results[i].returncode == code
  }

  ghost function Crashed(results: seq<Job>): set<nat> {
    set i | 0 <= i < |results| && !results[i].isBreak && !results[i].isSkip && results[i].returncode !in {0, 1, 2}
  }

  ghost function Skipped(results: seq<Job>): set<nat> {
    set i | 0 <= i < |results| && !results[i].isBreak && results[i].isSkip
  }

  ghost function WithStatus(results: seq<Job>, status: Status): set<nat> {
    set i | 0 <= i < |results| && StatusOf(results[i]) == status
  }

  lemma WithStatusLast(results: seq<Job>, status: Status)
    requires results != []
    ensures var n := |results| - 1;
      && n !in WithStatus(results[..n], status)
      && WithStatus(results, status) ==
         if StatusOf(results[n]) == status then WithStatus(results[..n], status) + {n}
           else WithStatus(results[..n], status)
  {
    hide StatusOf;
  }

  lemma {:induction false} TallySize(results: seq<Job>, status: Status)
    ensures Tally(results, status) == |WithStatus(results, status)|
  {
    hide StatusOf;
    if results == [] {
      assert WithStatus(results, status) == {};
    } else {
      TallySize(results[..|results| - 1], status);
      WithStatusLast(results, status);
      hide WithStatus;
    }
  }

  /** The counters in terms of the exit codes. */
  lemma TalliesAre(results: seq<Job>)
    ensures Tally(results, PASS) == |Returned(results, 0)|
    ensures Tally(results, FAIL) == |Returned(results, 1)|
    ensures Tally(results, VALGR) == |Returned(results, 2)|
    ensures Tally(results, CRASH) == |Crashed(results)|
    ensures Tally(results, SKIP) == |Skipped(results)|
  {
    TallySize(results, PASS);
    TallySize(results, FAIL);
    TallySize(results, VALGR);
    TallySize(results, CRASH);
    TallySize(results, SKIP);
    assert Returned(results, 0) == WithStatus(results, PASS);
    assert Returned(results, 1) == WithStatus(results, FAIL);
    assert Returned(results, 2) == WithStatus(results, VALGR);
    assert Crashed(results) == WithStatus(results, CRASH);
    assert Skipped(results) == WithStatus(results, SKIP);
  }

  /** The collector loop and the exit code; interrupted jobs are counted nowhere. */
  method Summarize(results: seq<Job>)
    returns (passed: nat, failed: nat, crashed: nat, valgrind: nat, skipped: nat, exitCode: nat)
    ensures passed == Tally(results, PASS) && failed == Tally(results, FAIL) && crashed == Tally(results, CRASH)
    ensures valgrind == Tally(results, VALGR) && skipped == Tally(results, SKIP)
    ensures passed == |Returned(results, 0)| && failed == |Returned(results, 1)|
    ensures valgrind == |Returned(results, 2)| && skipped == |Skipped(results)|
    ensures crashed == |Crashed(results)|
    ensures passed + failed + crashed + valgrind + skipped + Tally(results, INTERRUPTED) == |results|
    ensures exitCode == 0 <==> forall i :: 0 <= i < |results| ==>
      !results[i].isBreak && (results[i].isSkip || results[i].returncode == 0)
  {
    passed, failed, crashed, valgrind, skipped := 0, 0, 0, 0, 0;
    for n := 0 to |results|
      invariant passed == Tally(results[..n], PASS) && failed == Tally(results[..n], FAIL)
      invariant crashed == Tally(results[..n], CRASH) && valgrind == Tally(results[..n], VALGR)
      invariant skipped == Tally(results[..n], SKIP)
    {
      var job := results[n];
      assert results[..n + 1][..n] == results[..n];
      if job.isBreak {
        continue;
      }
      if job.isSkip {
        skipped := skipped + 1;
      } else if job.returncode == 0 {
        passed := passed + 1;
      } else if job.returncode == 1 {
        failed := failed + 1;
      } else if job.returncode == 2 {
        valgrind := valgrind + 1;
      } else {
        crashed := crashed + 1;
      }
    }
    assert results[..|results|] == results;
    TallySum(results);
    TalliesAre(results);
    exitCode := if passed + skipped == |results| then 0 else 1;
  }

  lemma {:induction false} TallySum(results: seq<Job>)
    ensures Tally(results, PASS) + Tally(results, FAIL) + Tally(results, CRASH) + Tally(results, VALGR)
            + Tally(results, SKIP) + Tally(results, INTERRUPTED) == |results|
    ensures Tally(results, PASS) + Tally(results, SKIP) == |results| <==>
            forall i :: 0 <= i < |results| ==> StatusOf(results[i]) == PASS || StatusOf(results[i]) == SKIP
  {
    if results != [] {
      var front := results[..|results| - 1];
      TallySum(front);
      assert forall i :: 0 <= i < |front| ==> front[i] == results[i];
    }
  }

  // ---------------------------------------------------------------- what the collector sees of a run

  /** At step `k` a worker runs job `id`, which returns `code`. */
  ghost predicate Runs(states: seq<State>, events: seq<Event>, k: nat, id: nat, code: int) {
    && k < |states| && k < |events| && events[k].Check? && events[k].code == code && events[k].w < |states[k].workers|
    && var worker := states[k].workers[events[k].w];
      worker.Got? && worker.job.id == id && !worker.job.isSkip && !states[k].interrupted
  }

  ghost predicate HasRun(states: seq<State>, events: seq<Event>, i: nat, id: nat, code: int) {
    exists k :: 0 <= k < i && Runs(states, events, k, id, code)
  }

  /** A reported job was thrown back after an interrupt, skipped, or run with the code it carries. */
  ghost predicate Accounted(states: seq<State>, events: seq<Event>, i: nat, job: Job)
    requires i < |states|
  {
    if job.isBreak then states[i].interrupted else job.isSkip || HasRun(states, events, i, job.id, job.returncode)
  }

  ghost predicate AllAccounted(states: seq<State>, events: seq<Event>, i: nat)
    requires i < |states|
  {
    && (forall w :: 0 <= w < |states[i].workers| && states[i].workers[w].Reporting? ==>
          Accounted(states, events, i, states[i].workers[w].job))
    && (forall k :: 0 <= k < |states[i].output| ==> Accounted(states, events, i, states[i].output[k]))
    && (forall k :: 0 <= k < |states[i].collected| ==> Accounted(states, events, i, states[i].collected[k]))
  }

  lemma AccountedMono(setup: Setup, states: seq<State>, events: seq<Event>, i: nat, job: Job)
    requires setup.IsRun(states, events) && i + 1 < |states| && Accounted(states, events, i, job)
    ensures Accounted(states, events, i + 1, job)
  {
    assert setup.Enabled(states[i], events[i]) && states[i + 1] == setup.Next(states[i], events[i]);
    if !job.isBreak && !job.isSkip {
      var k :| 0 <= k < i && Runs(states, events, k, job.id, job.returncode);
    }
  }

  lemma {:induction false} RunAccounted(setup: Setup, states: seq<State>, events: seq<Event>, i: nat)
    requires setup.Valid() && setup.IsRun(states, events) && i < |states|
    ensures AllAccounted(states, events, i)
  {
    if i > 0 {
      RunAccounted(setup, states, events, i - 1);
      RunInv(setup, states, events, i - 1);
      StepAccounted(setup, states, events, i - 1);
    }
  }

  lemma StepAccounted(setup: Setup, states: seq<State>, events: seq<Event>, i: nat)
    requires setup.IsRun(states, events) && i < |events| && AllAccounted(states, events, i) && Inv(setup, states[i])
    ensures AllAccounted(states, events, i + 1)
  {
    var s, e, s' := states[i], events[i], states[i + 1];
    assert setup.Enabled(s, e) && s' == setup.Next(s, e);
    assert WorkersOk(setup, s);
    forall job | Accounted(states, events, i, job) ensures Accounted(states, events, i + 1, job) {
      AccountedMono(setup, states, events, i, job);
    }
    if e.Check? {
      var job := s.workers[e.w].job;
      if !s.interrupted && !job.isSkip {
        assert Runs(states, events, i, job.id, e.code);
        assert HasRun(states, events, i + 1, job.id, e.code);
      }
      assert Accounted(states, events, i + 1, s'.workers[e.w].job);
    }
    hide Accounted, Inv, WorkersOk, Setup.IsRun;
  }

  /** Job `id` was collected as skipped, or as run with code 0. */
  ghost predicate CollectedWell(setup: Setup, collected: seq<Job>, id: nat)
    requires id < |setup.jobs|
  {
    exists k :: 0 <= k < |collected| && collected[k].id == id && !collected[k].isBreak &&
      (setup.jobs[id].isSkip || collected[k].returncode == 0)
  }

  lemma {:induction false} OccursPosition(list: seq<Job>, id: nat) returns (k: nat)
    requires Occurs(list, id) > 0
    ensures k < |list| && list[k].id == id
  {
    var n := |list| - 1;
    if list[n].id == id { k := n; } else { k := OccursPosition(list[..n], id); }
  }

  lemma {:induction false} OccursTwice(list: seq<Job>, i: nat, j: nat)
    requires i < j < |list| && list[i].id == list[j].id
    ensures Occurs(list, list[i].id) >= 2
  {
    var n := |list| - 1;
    if j < n {
      OccursTwice(list[..n], i, j);
    } else {
      OccursAt(list[..n], i);
    }
  }

  lemma {:induction false} OccursAt(list: seq<Job>, i: nat)
    requires i < |list|
    ensures Occurs(list, list[i].id) >= 1
  {
    var n := |list| - 1;
    if i < n { OccursAt(list[..n], i); }
  }

  /** When the collector has finished: what it counted, with the interrupted jobs, are all jobs; the exit code is 0
      exactly when every job was collected as skipped or as run with code 0; and a code it saw is one that the job
      returned. Without an interrupt no job was thrown back. */
  lemma CollectorSummary(setup: Setup, states: seq<State>, events: seq<Event>)
    requires setup.Valid() && setup.IsRun(states, events) && setup.CollectorDone(states[|events|])
    ensures var collected := states[|events|].collected;
      && Tally(collected, PASS) + Tally(collected, FAIL) + Tally(collected, CRASH) + Tally(collected, VALGR)
         + Tally(collected, SKIP) + Tally(collected, INTERRUPTED) == |setup.jobs|
      && (Tally(collected, PASS) + Tally(collected, SKIP) == |setup.jobs| <==>
          forall id :: 0 <= id < |setup.jobs| ==> CollectedWell(setup, collected, id))
      && (forall k :: 0 <= k < |collected| ==> Accounted(states, events, |events|, collected[k]))
      && (!states[|events|].interrupted ==> forall k :: 0 <= k < |collected| ==> !collected[k].isBreak)
  {
    var s := states[|events|];
    var collected := s.collected;
    TallySum(collected);
    RunAccounted(setup, states, events, |events|);
    RunInv(setup, states, events, |events|);
    forall k | 0 <= k < |collected| ensures !s.interrupted ==> !collected[k].isBreak {
      assert Accounted(states, events, |events|, collected[k]);
    }
    hide Accounted, Inv, Setup.IsRun, Setup.Valid, Tally, Occurs, Original;
    if forall id :: 0 <= id < |setup.jobs| ==> CollectedWell(setup, collected, id) {
      forall k | 0 <= k < |collected| ensures StatusOf(collected[k]) == PASS || StatusOf(collected[k]) == SKIP {
        WellMeansPassed(setup, states, events, k);
      }
    }
    if forall k :: 0 <= k < |collected| ==> StatusOf(collected[k]) == PASS || StatusOf(collected[k]) == SKIP {
      forall id | 0 <= id < |setup.jobs| ensures CollectedWell(setup, collected, id) {
        PassedMeansWell(setup, states, events, id);
      }
    }
  }

  lemma OriginalsCollected(setup: Setup, states: seq<State>, events: seq<Event>, k: nat)
    requires setup.Valid() && setup.IsRun(states, events) && k < |states[|events|].collected|
    ensures Original(setup, states[|events|].collected[k])
  {
    RunInv(setup, states, events, |events|);
  }

  lemma WellMeansPassed(setup: Setup, states: seq<State>, events: seq<Event>, k: nat)
    requires setup.Valid() && setup.IsRun(states, events) && setup.CollectorDone(states[|events|])
    requires k < |states[|events|].collected|
    requires forall id :: 0 <= id < |setup.jobs| ==> CollectedWell(setup, states[|events|].collected, id)
    ensures StatusOf(states[|events|].collected[k]) == PASS || StatusOf(states[|events|].collected[k]) == SKIP
  {
    var collected := states[|events|].collected;
    var id := collected[k].id;
    OriginalsCollected(setup, states, events, k);
    CollectedOnce(setup, states, events, id);
    hide Setup.IsRun, Setup.Valid, Occurs;
    assert CollectedWell(setup, collected, id);
    var m :| 0 <= m < |collected| && collected[m].id == id && !collected[m].isBreak &&
      (setup.jobs[id].isSkip || collected[m].returncode == 0);
    if m < k { OccursTwice(collected, m, k); } else if k < m { OccursTwice(collected, k, m); }
  }

  lemma PassedMeansWell(setup: Setup, states: seq<State>, events: seq<Event>, id: nat)
    requires setup.Valid() && setup.IsRun(states, events) && setup.CollectorDone(states[|events|]) && id < |setup.jobs|
    requires var collected := states[|events|].collected;
      forall k :: 0 <= k < |collected| ==> StatusOf(collected[k]) == PASS || StatusOf(collected[k]) == SKIP
    ensures CollectedWell(setup, states[|events|].collected, id)
  {
    CollectedOnce(setup, states, events, id);
    hide Setup.IsRun, Setup.Valid, Occurs;
    var k := OccursPosition(states[|events|].collected, id);
    OriginalsCollected(setup, states, events, k);
  }
}
