// threadpool.c as a transition system: workers that sleep on the condition variable, run tasks and leave, clients that add,
// and one that destroys the pool.
module TaskPool {
  import opened Counting
  import opened TaskRing

  // Awake: about to take the lock, for whatever reason. Asleep: in pthread_cond_wait and not signalled.
  datatype Status = Awake | Asleep | Working | Exited

  datatype Pool = Pool(
    size: nat,
    pending: seq<nat>,          // tasks are numbered in the order they were accepted
    shutdown: Shutdown,
    started: int,
    workers: map<nat, Status>,
    job: map<nat, nat>,         // what each working worker runs
    accepted: nat,
    begun: seq<nat>,            // in the order they were begun
    finished: seq<nat>)

  datatype Action =
    | Add(woken: nat)           // the worker that pthread_cond_signal wakes, if any sleeps
    | Destroy(graceful: bool)
    | Spurious(w: nat)
    | Lock(w: nat)
    | Finish(w: nat)

  function Fresh(size: nat, threads: nat): Pool {
    Pool(size, [], Running, threads, AwakeWorkers(threads), map[], 0, [], [])
  }

  function AwakeWorkers(threads: nat): (m: map<nat, Status>)
    ensures forall w: nat :: w in m <==> w < threads
    ensures forall w :: w in m ==> m[w].Awake?
  {
    if threads == 0 then map[] else AwakeWorkers(threads - 1)[threads - 1 := Awake]
  }

  predicate Enabled(s: Pool, a: Action) {
    match a
    case Add(woken) => Count(s.workers, Asleep) > 0 ==> woken in s.workers && s.workers[woken].Asleep?
    case Destroy(_) => s.shutdown.Running?
    case Spurious(w) => w in s.workers && s.workers[w].Asleep?
    case Lock(w) => w in s.workers && s.workers[w].Awake?
    case Finish(w) => w in s.workers && s.workers[w].Working? && w in s.job
  }

  function Woken(workers: map<nat, Status>): (r: map<nat, Status>)
    ensures r.Keys == workers.Keys
  {
    map w | w in workers :: if workers[w].Asleep? then Awake else workers[w]
  }

  function Step(s: Pool, a: Action): Pool
    requires Enabled(s, a)
  {
    match a
    case Add(woken) =>
      var (result, pending) := AddTo(s.pending, s.size, s.shutdown, s.accepted);
      if result.Accepted? then
        s.(pending := pending, accepted := s.accepted + 1,
           workers := if Count(s.workers, Asleep) > 0 then s.workers[woken := Awake] else s.workers)
      else s
    case Destroy(graceful) => s.(shutdown := if graceful then Graceful else Immediate, workers := Woken(s.workers))
    case Spurious(w) => s.(workers := s.workers[w := Awake])
    case Lock(w) =>
      (match TurnOf(s.pending, s.shutdown)
       case Sleep => s.(workers := s.workers[w := Asleep])
       case Exit => s.(workers := s.workers[w := Exited], started := s.started - 1)
       case Start(task) =>
         s.(pending := s.pending[1..], begun := s.begun + [task], workers := s.workers[w := Working], job := s.job[w := task]))
    case Finish(w) => s.(workers := s.workers[w := Awake], job := s.job - {w}, finished := s.finished + [s.job[w]])
  }

  predicate IsRun(size: nat, threads: nat, states: seq<Pool>, acts: seq<Action>) {
    && |states| == |acts| + 1 && states[0] == Fresh(size, threads)
    && forall j :: 0 <= j < |acts| ==> Enabled(states[j], acts[j]) && Step(states[j], acts[j]) == states[j + 1]
  }

  // ---------- what is kept ----------

  function Ids(n: nat): seq<nat> {
    seq(n, k => k)
  }

  // Tasks are begun in the order they were accepted, and one that has begun is run by one worker or is finished.
  ghost predicate TaskInv(s: Pool) {
    && s.begun + s.pending == Ids(s.accepted) && |s.pending| <= s.size
    && Distinct(s.finished)
    && (forall t :: t in s.finished ==> t in s.begun)
    && (forall w :: w in s.job <==> w in s.workers && s.workers[w].Working?)
    && (forall w :: w in s.job ==> s.job[w] in s.begun && s.job[w] !in s.finished)
    && (forall v, w :: v in s.job && w in s.job && v != w ==> s.job[v] != s.job[w])
    && (forall t :: t in s.begun ==> t in s.finished || exists w :: w in s.job && s.job[w] == t)
  }

  // Nobody sleeps through work that the waking workers will not take up.
  predicate WakeInv(s: Pool) {
    && (s.shutdown.Running? && Count(s.workers, Asleep) > 0 ==> |s.pending| <= Count(s.workers, Awake))
    && (!s.shutdown.Running? ==> Count(s.workers, Asleep) == 0)
    && (s.shutdown.Running? ==> Count(s.workers, Exited) == 0)
    && (s.shutdown.Graceful? && Count(s.workers, Exited) > 0 ==> s.pending == [])
  }

  predicate CrewInv(s: Pool, threads: nat) {
    && |s.workers| == threads
    && s.started == Count(s.workers, Awake) + Count(s.workers, Asleep) + Count(s.workers, Working)
    && threads == s.started + Count(s.workers, Exited)
  }

  lemma AddKeepsTasks(s: Pool, a: Action)
    requires TaskInv(s) && Enabled(s, a) && a.Add?
    ensures TaskInv(Step(s, a))
  {
    hide Count;
    var s' := Step(s, a);
    if s' != s {
      assert Ids(s.accepted + 1) == Ids(s.accepted) + [s.accepted];
    }
  }

  lemma NextTask(begun: seq<nat>, pending: seq<nat>, n: nat)
    requires begun + pending == Ids(n) && pending != []
    ensures pending[0] == |begun| && pending[0] !in begun
  {
    assert Ids(n)[|begun|] == pending[0];
    forall i | 0 <= i < |begun| ensures begun[i] == i {
      assert Ids(n)[i] == begun[i];
    }
  }

  lemma StartKeepsTasks(s: Pool, w: nat)
    requires TaskInv(s) && Enabled(s, Lock(w)) && TurnOf(s.pending, s.shutdown).Start?
    ensures TaskInv(Step(s, Lock(w)))
  {
    var s', task := Step(s, Lock(w)), s.pending[0];
    assert s'.begun + s'.pending == s.begun + s.pending;
    NextTask(s.begun, s.pending, s.accepted);
    assert w !in s.job;
    forall t | t in s'.begun ensures t in s'.finished || exists v :: v in s'.job && s'.job[v] == t {
      if t == task {
        assert w in s'.job && s'.job[w] == t;
      } else if t !in s.finished {
        var v :| v in s.job && s.job[v] == t;
        assert v in s'.job && s'.job[v] == t;
      }
    }
  }

  lemma FinishKeepsTasks(s: Pool, w: nat)
    requires TaskInv(s) && Enabled(s, Finish(w))
    ensures TaskInv(Step(s, Finish(w)))
  {
    var s' := Step(s, Finish(w));
    forall t | t in s'.begun ensures t in s'.finished || exists v :: v in s'.job && s'.job[v] == t {
      if t == s.job[w] {
        assert s'.finished[|s.finished|] == t;
      } else if t !in s.finished {
        var v :| v in s.job && s.job[v] == t;
        assert v in s'.job && s'.job[v] == t;
      } else {
        assert t in s'.finished;
      }
    }
  }

  lemma TasksKept(s: Pool, a: Action)
    requires TaskInv(s) && Enabled(s, a)
    ensures TaskInv(Step(s, a))
  {
    match a {
      case Add(_) => AddKeepsTasks(s, a);
      case Finish(w) => FinishKeepsTasks(s, w);
      case Lock(w) =>
        if TurnOf(s.pending, s.shutdown).Start? {
          StartKeepsTasks(s, w);
        }
      case _ =>
    }
  }

  lemma WokenCounts(m: map<nat, Status>)
    ensures Count(Woken(m), Asleep) == 0
    ensures Count(Woken(m), Awake) == Count(m, Awake) + Count(m, Asleep)
    ensures Count(Woken(m), Working) == Count(m, Working) && Count(Woken(m), Exited) == Count(m, Exited)
    ensures |Woken(m)| == |m|
  {
    assert With(Woken(m), Asleep) == {};
    assert With(Woken(m), Awake) == With(m, Awake) + With(m, Asleep);
    assert With(Woken(m), Working) == With(m, Working);
    assert With(Woken(m), Exited) == With(m, Exited);
    assert |Woken(m).Keys| == |m.Keys|;
  }

  lemma CrewKept(s: Pool, a: Action, threads: nat)
    requires WakeInv(s) && CrewInv(s, threads) && Enabled(s, a)
    ensures WakeInv(Step(s, a)) && CrewInv(Step(s, a), threads)
  {
    hide Count, Woken;
    match a {
      case Add(woken) =>
        if Count(s.workers, Asleep) > 0 {
          CountsAfter(s.workers, woken, Awake);
        }
      case Destroy(_) => WokenCounts(s.workers);
      case Spurious(w) => CountsAfter(s.workers, w, Awake);
      case Lock(w) => CountsAfter(s.workers, w, Step(s, a).workers[w]);
      case Finish(w) => CountsAfter(s.workers, w, Awake);
    }
  }

  lemma FreshKeeps(size: nat, threads: nat)
    ensures TaskInv(Fresh(size, threads)) && WakeInv(Fresh(size, threads)) && CrewInv(Fresh(size, threads), threads)
  {
    var s := Fresh(size, threads);
    assert With(s.workers, Asleep) == {} && With(s.workers, Working) == {} && With(s.workers, Exited) == {};
    AllAwake(threads);
  }

  lemma {:induction false} AllAwake(threads: nat)
    ensures Count(AwakeWorkers(threads), Awake) == threads && |AwakeWorkers(threads)| == threads
  {
    if threads > 0 {
      AllAwake(threads - 1);
      CountAdded(AwakeWorkers(threads - 1), threads - 1, Awake, Awake);
    }
  }

  lemma {:induction false} RunInv(size: nat, threads: nat, states: seq<Pool>, acts: seq<Action>, j: nat)
    requires IsRun(size, threads, states, acts) && j <= |acts|
    ensures TaskInv(states[j]) && WakeInv(states[j]) && CrewInv(states[j], threads)
    decreases j
  {
    hide TaskInv, WakeInv, CrewInv, Enabled, Step;
    if j == 0 {
      FreshKeeps(size, threads);
    } else {
      RunInv(size, threads, states, acts, j - 1);
      TasksKept(states[j - 1], acts[j - 1]);
      CrewKept(states[j - 1], acts[j - 1], threads);
    }
  }

  // ---------- theorems ----------

  // Every accepted task is exactly one of pending, running in one worker, or finished once; tasks begin in the order
  // they were accepted.
  lemma TasksAreConserved(size: nat, threads: nat, states: seq<Pool>, acts: seq<Action>, t: nat)
    requires IsRun(size, threads, states, acts) && t < states[|acts|].accepted
    ensures var s := states[|acts|];
            && s.begun == Ids(|s.begun|) && |s.begun| + |s.pending| == s.accepted
            && (t in s.pending <==> t >= |s.begun|)
            && (t >= |s.begun| ==> t !in s.finished && !exists w :: w in s.job && s.job[w] == t)
            && (t < |s.begun| ==> (t in s.finished <==> !exists w :: w in s.job && s.job[w] == t))
            && (forall v, w :: v in s.job && w in s.job && s.job[v] == s.job[w] ==> v == w)
            && Distinct(s.finished)
  {
    RunInv(size, threads, states, acts, |acts|);
    hide WakeInv, CrewInv, IsRun;
    var s := states[|acts|];
    var all := s.begun + s.pending;
    assert forall i :: 0 <= i < |all| ==> all[i] == i;
    assert s.begun == Ids(|s.begun|) by {
      assert forall i :: 0 <= i < |s.begun| ==> s.begun[i] == all[i];
    }
    assert forall i :: 0 <= i < |s.pending| ==> s.pending[i] == all[|s.begun| + i];
    if t >= |s.begun| {
      assert s.pending[t - |s.begun|] == t;
    } else {
      assert s.begun[t] == t;
    }
  }

  // Before shutdown, pending work with a worker asleep is matched by as many workers about to look; so with any worker at
  // all, pending work is never left to sleepers alone.
  lemma NoLostWakeUp(size: nat, threads: nat, states: seq<Pool>, acts: seq<Action>)
    requires IsRun(size, threads, states, acts)
    ensures var s := states[|acts|];
            && (s.shutdown.Running? && Count(s.workers, Asleep) > 0 ==> |s.pending| <= Count(s.workers, Awake))
            && (s.pending != [] && s.shutdown.Running? && threads > 0 ==> Count(s.workers, Awake) + Count(s.workers, Working) > 0)
            && (!s.shutdown.Running? ==> Count(s.workers, Asleep) == 0)
  {
    RunInv(size, threads, states, acts, |acts|);
    hide TaskInv, IsRun, Count;
  }

  // Once threadpool_destroy has set the flag for immediate shutdown, no task begins.
  lemma {:induction false} ImmediateStartsNothing(size: nat, threads: nat, states: seq<Pool>, acts: seq<Action>, i: nat, j: nat)
    requires IsRun(size, threads, states, acts) && i <= j <= |acts| && states[i].shutdown.Immediate?
    ensures states[j].shutdown.Immediate? && states[j].begun == states[i].begun
    decreases j
  {
    hide Count;
    if i < j {
      ImmediateStartsNothing(size, threads, states, acts, i, j - 1);
      assert Step(states[j - 1], acts[j - 1]) == states[j];
    }
  }

  predicate AllExited(s: Pool) {
    forall w :: w in s.workers ==> s.workers[w].Exited?
  }

  // threadpool_free gives the pool back exactly when every worker has left, so the joins of threadpool_destroy are enough.
  lemma FreedIffAllLeft(size: nat, threads: nat, states: seq<Pool>, acts: seq<Action>)
    requires IsRun(size, threads, states, acts)
    ensures Frees(states[|acts|].started) <==> AllExited(states[|acts|])
    ensures states[|acts|].started >= 0
  {
    RunInv(size, threads, states, acts, |acts|);
    hide TaskInv, IsRun, WakeInv;
    var s := states[|acts|];
    if AllExited(s) {
      assert With(s.workers, Awake) == {} && With(s.workers, Asleep) == {} && With(s.workers, Working) == {};
    } else {
      var w :| w in s.workers && !s.workers[w].Exited?;
      CountPositive(s.workers, w);
    }
  }

  // A graceful shutdown finishes every accepted task, unless the pool was created without workers.
  lemma GracefulFinishesEverything(size: nat, threads: nat, states: seq<Pool>, acts: seq<Action>)
    requires IsRun(size, threads, states, acts) && states[|acts|].shutdown.Graceful? && AllExited(states[|acts|])
    ensures (forall t: nat :: t < states[|acts|].accepted ==> t in states[|acts|].finished)
            <==> threads > 0 || states[|acts|].accepted == 0
  {
    var s := states[|acts|];
    RunInv(size, threads, states, acts, |acts|);
    forall t: nat | t < s.accepted ensures t in s.pending || t in s.finished {
      TasksAreConserved(size, threads, states, acts, t);
      assert forall w :: w !in s.job;
    }
    if threads > 0 {
      assert With(s.workers, Awake) == {} && With(s.workers, Asleep) == {} && With(s.workers, Working) == {};
    } else if s.accepted > 0 {
      NothingBegins(size, states, acts, |acts|);
      assert 0 !in s.finished;
    }
  }

  lemma {:induction false} NothingBegins(size: nat, states: seq<Pool>, acts: seq<Action>, j: nat)
    requires IsRun(size, 0, states, acts) && j <= |acts|
    ensures states[j].workers == map[] && states[j].finished == []
    decreases j
  {
    if j > 0 {
      NothingBegins(size, states, acts, j - 1);
      assert Enabled(states[j - 1], acts[j - 1]) && Step(states[j - 1], acts[j - 1]) == states[j];
      assert With(states[j - 1].workers, Asleep) == {};
    }
  }

  // ---------- in terms of the calls ----------

  lemma Prefix(size: nat, threads: nat, states: seq<Pool>, acts: seq<Action>, j: nat)
    requires IsRun(size, threads, states, acts) && j <= |acts|
    ensures IsRun(size, threads, states[..j + 1], acts[..j]) && states[..j + 1][j] == states[j]
  {
    hide Enabled, Step;
  }

  lemma {:induction false} ShutdownStays(size: nat, threads: nat, states: seq<Pool>, acts: seq<Action>, i: nat, j: nat)
    requires IsRun(size, threads, states, acts) && i < |acts| && acts[i].Destroy? && i < j <= |acts|
    ensures states[j].shutdown == if acts[i].graceful then Graceful else Immediate
    decreases j
  {
    hide Count, Woken;
    assert Enabled(states[j - 1], acts[j - 1]) && Step(states[j - 1], acts[j - 1]) == states[j];
    if j > i + 1 {
      ShutdownStays(size, threads, states, acts, i, j - 1);
    }
  }

  // threadpool_destroy(pool, threadpool_graceful): when all workers have left, every task ever accepted is finished.
  lemma GracefulDestroyFinishes(size: nat, threads: nat, states: seq<Pool>, acts: seq<Action>, i: nat, j: nat)
    requires IsRun(size, threads, states, acts) && threads > 0 && i < j <= |acts| && acts[i] == Destroy(true)
    requires forall w :: w in states[j].workers ==> states[j].workers[w].Exited?
    ensures forall t: nat :: t < states[j].accepted ==> t in states[j].finished
  {
    hide Step, Enabled;
    ShutdownStays(size, threads, states, acts, i, j);
    Prefix(size, threads, states, acts, j);
    GracefulFinishesEverything(size, threads, states[..j + 1], acts[..j]);
  }

  // threadpool_destroy(pool, 0): nothing begins any more.
  lemma ImmediateDestroyStartsNothing(size: nat, threads: nat, states: seq<Pool>, acts: seq<Action>, i: nat, j: nat)
    requires IsRun(size, threads, states, acts) && i < j <= |acts| && acts[i] == Destroy(false)
    ensures states[j].begun == states[i].begun
  {
    hide Count, Woken;
    assert Enabled(states[i], acts[i]) && Step(states[i], acts[i]) == states[i + 1];
    ShutdownStays(size, threads, states, acts, i, i + 1);
    ImmediateStartsNothing(size, threads, states, acts, i + 1, j);
  }

  // A task is accepted exactly while there is room and no shutdown, and one at a time; nothing else changes the number.
  lemma AcceptedWhenThereIsRoom(size: nat, threads: nat, states: seq<Pool>, acts: seq<Action>, j: nat)
    requires IsRun(size, threads, states, acts) && j < |acts|
    ensures var s, s' := states[j], states[j + 1];
            if acts[j].Add? && |s.pending| < size && forall i :: 0 <= i < j ==> !acts[i].Destroy?
            then s'.accepted == s.accepted + 1 && s'.pending == s.pending + [s.accepted]
            else s'.accepted == s.accepted
  {
    hide Count, Woken;
    SizeAndShutdown(size, threads, states, acts, j);
    assert Enabled(states[j], acts[j]) && Step(states[j], acts[j]) == states[j + 1];
    RunInv(size, threads, states, acts, j);
  }

  lemma {:induction false} SizeAndShutdown(size: nat, threads: nat, states: seq<Pool>, acts: seq<Action>, j: nat)
    requires IsRun(size, threads, states, acts) && j <= |acts|
    ensures states[j].size == size
    ensures states[j].shutdown.Running? <==> forall i :: 0 <= i < j ==> !acts[i].Destroy?
    decreases j
  {
    hide Count, Woken;
    if j > 0 {
      SizeAndShutdown(size, threads, states, acts, j - 1);
      assert Enabled(states[j - 1], acts[j - 1]) && Step(states[j - 1], acts[j - 1]) == states[j];
    }
  }

  // ---------- shutting down ends ----------

  function Work(s: Pool): nat {
    3 * |s.pending| + 2 * Count(s.workers, Working) + Count(s.workers, Awake)
  }

  // After the flag is set every step of a worker uses up work, ...
  lemma ShutdownUsesWork(size: nat, threads: nat, states: seq<Pool>, acts: seq<Action>, a: Action)
    requires IsRun(size, threads, states, acts) && !states[|acts|].shutdown.Running? && Enabled(states[|acts|], a)
    ensures !a.Spurious? && !a.Destroy?
    ensures if a.Add? then Step(states[|acts|], a) == states[|acts|] else Work(Step(states[|acts|], a)) < Work(states[|acts|])
  {
    var s := states[|acts|];
    RunInv(size, threads, states, acts, |acts|);
    hide TaskInv, IsRun, Count;
    match a {
      case Spurious(w) => CountPositive(s.workers, w);
      case Lock(w) => CountsAfter(s.workers, w, Step(s, a).workers[w]);
      case Finish(w) => CountsAfter(s.workers, w, Awake);
      case _ =>
    }
  }

  // ... and until all of them have left one can take a step.
  lemma ShutdownIsNeverStuck(size: nat, threads: nat, states: seq<Pool>, acts: seq<Action>) returns (a: Action)
    requires IsRun(size, threads, states, acts) && !states[|acts|].shutdown.Running? && !AllExited(states[|acts|])
    ensures Enabled(states[|acts|], a) && (a.Lock? || a.Finish?)
  {
    var s := states[|acts|];
    RunInv(size, threads, states, acts, |acts|);
    var w :| w in s.workers && !s.workers[w].Exited?;
    CountPositive(s.workers, w);
    a := if s.workers[w].Working? then Finish(w) else Lock(w);
  }
}
