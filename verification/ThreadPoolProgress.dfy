// Calls return, and what happens when a paused pool is shrunk to a positive size.
module ThreadPoolProgress {
  import opened Counting
  import opened ThreadPool
  import opened ThreadPoolInvariant
  import opened ThreadPoolTheorems

  // ---------- calls return ----------

  function ControlWork(control: Control, target: nat): nat {
    match control
    case Free => 0
    case Pausing(left, spawn) => 5 * left + 2 * spawn + 3
    case Spawning(left) => 2 * left + 2
    case Killing(left, kill) => 5 * left + 5 * Monus(target, kill) + kill + 4
    case Shifting(left, kill, _) => 5 * left + kill + 3
    case Joining(left) => left + 1
    case Gone => 0
  }

  function CrewWork(threads: map<nat, Status>): nat {
    Count(threads, Busy) + Count(threads, Held1) + Count(threads, Held2) + 2 * Count(threads, Doomed)
  }

  function Work(s: Pool): nat {
    4 * |s.queue| + CrewWork(s.threads) + |s.zombies| + ControlWork(s.control, s.target)
  }

  lemma WorkerUsesWork(s: Pool, a: Action)
    requires Enabled(s, a) && (a.Pop? || a.Finish? || a.Leave? || a.Die?)
    ensures Work(Step(s, a).s) < Work(s)
  {
    hide Count;
    CountsAfter(s.threads, a.t, Step(s, a).s.threads[a.t]);
  }

  lemma JoinUsesWork(s: Pool)
    requires PoolInv(s) && s.control.Joining? && s.control.left > 0 && s.zombies != []
    ensures Step(s, Continue).Ok? && Work(Step(s, Continue).s) < Work(s)
  {
    JoinKeepsIds(s);
    hide Count, IdsInv, TakenInv;
    var id := s.zombies[0];
    CountRemoved(s.threads, id, Busy);
    CountRemoved(s.threads, id, Held1);
    CountRemoved(s.threads, id, Held2);
    CountRemoved(s.threads, id, Doomed);
  }

  lemma SpawnUsesWork(s: Pool)
    requires PoolInv(s) && s.control.Spawning? && s.control.left > 0
    ensures Step(s, Continue).Ok? && Work(Step(s, Continue).s) < Work(s)
  {
    SpawnKeepsIds(s);
    hide Count, IdsInv, TakenInv;
    CountAdded(s.threads, s.nextId, Ready, Busy);
    CountAdded(s.threads, s.nextId, Ready, Held1);
    CountAdded(s.threads, s.nextId, Ready, Held2);
    CountAdded(s.threads, s.nextId, Ready, Doomed);
  }

  // Every step of a worker and every step of the controlling thread inside a call uses up work.
  lemma StepUsesWork(s: Pool, a: Action)
    requires PoolInv(s) && Enabled(s, a) && (IsWorker(a) || a.Continue?)
    ensures Step(s, a).Ok? && Work(Step(s, a).s) < Work(s)
  {
    hide PoolInv, Work;
    match a {
      case Continue =>
        if s.control.Joining? && s.control.left > 0 {
          JoinUsesWork(s);
        } else if s.control.Spawning? && s.control.left > 0 {
          SpawnUsesWork(s);
        } else {
          OtherContinueUsesWork(s);
        }
      case _ => WorkerUsesWork(s, a);
    }
  }

  lemma EveryStepUsesWork(n: nat, states: seq<Pool>, acts: seq<Action>, a: Action)
    requires IsRun(n, states, acts) && Enabled(states[|acts|], a) && !IsCall(a) && !a.Add?
    ensures Step(states[|acts|], a).Ok? && Work(Step(states[|acts|], a).s) < Work(states[|acts|])
  {
    RunInv(n, states, acts, |acts|);
    hide PoolInv, PauseInv, IsRun, Work;
    StepUsesWork(states[|acts|], a);
  }

  lemma OtherContinueUsesWork(s: Pool)
    requires Enabled(s, Continue) && !((s.control.Joining? || s.control.Spawning?) && s.control.left > 0)
    ensures Step(s, Continue).Ok? && Work(Step(s, Continue).s) < Work(s)
  {
    hide CrewWork, KillingStep, ShiftingStep;
    if s.control.Killing? {
      KillingUsesWork(s);
    } else if s.control.Shifting? {
      ShiftingUsesWork(s);
    }
  }

  lemma KillingUsesWork(s: Pool)
    requires s.control.Killing?
    ensures Work(KillingStep(s, s.control.left, s.control.kill)) < Work(s)
  {
    hide CrewWork;
  }

  lemma ShiftingUsesWork(s: Pool)
    requires s.control.Shifting?
    ensures Work(ShiftingStep(s, s.control.left, s.control.kill, s.control.second)) < Work(s)
  {
    hide CrewWork;
  }

  // ---------- when a pause holds, exactly ----------

  // Pause tasks that would hold a thread that pops them.
  function UsefulPauses(s: Pool): nat {
    (if s.running1 then 0 else s.queue[Pause1]) + if s.running2 then 0 else s.queue[Pause2]
  }

  // Threads that nothing holds.
  function Loose(s: Pool): nat {
    Count(s.threads, Ready) + Count(s.threads, Busy)
    + (if s.running1 then Count(s.threads, Held1) else 0) + if s.running2 then Count(s.threads, Held2) else 0
  }

  predicate PauseCovers(s: Pool) {
    UsefulPauses(s) >= Loose(s)
  }

  lemma CoveredPopsNoUserTask(s: Pool, t: nat, task: Task)
    requires PauseCovers(s) && Enabled(s, Pop(t, task))
    ensures !task.User?
  {
    CountPositive(s.threads, t);
    if s.queue[Pause1] > 0 {
      assert Pause1 in s.queue && Rank(Pause1) <= Rank(task);
    } else {
      assert Pause2 in s.queue && Rank(Pause2) <= Rank(task);
    }
  }

  lemma CoverStep(s: Pool, a: Action)
    requires PauseCovers(s) && Enabled(s, a) && (IsWorker(a) || a.Add?)
    ensures PauseCovers(Step(s, a).s) && Step(s, a).s.started == s.started
  {
    hide Count, Top;
    if a.Pop? {
      CoveredPopsNoUserTask(s, a.t, a.task);
      TopIsQueued(s.queue, a.task);
    }
    if IsWorker(a) {
      CountsAfter(s.threads, a.t, Step(s, a).s.threads[a.t]);
    }
  }

  // If the useful pause tasks cover the loose threads between two calls, no path starts a user task.
  lemma {:induction false} CoveredRun(states: seq<Pool>, acts: seq<Action>, j: nat)
    requires IsPath(states, acts) && PauseCovers(states[0]) && states[0].control.Free? && j <= |acts|
    ensures PauseCovers(states[j]) && states[j].control.Free? && states[j].started == states[0].started
    decreases j
  {
    hide PauseCovers, Step;
    if j > 0 {
      CoveredRun(states, acts, j - 1);
      CoverStep(states[j - 1], acts[j - 1]);
      WorkerKeepsControl(states[j - 1], acts[j - 1]);
    }
  }

  lemma {:induction false} TopTask(queue: multiset<Task>) returns (task: Task)
    requires queue != multiset{}
    ensures Top(queue, task)
    decreases |queue|
  {
    var x :| x in queue;
    var rest := queue - multiset{x};
    task := x;
    assert forall other :: other in queue ==> other == x || other in rest;
    if rest != multiset{} {
      var y := TopTask(rest);
      task := if Rank(x) >= Rank(y) then x else y;
    }
  }

  ghost predicate UserTaskQueued(queue: multiset<Task>) {
    exists p, id :: User(p, id) in queue
  }

  // What a loose thread does next: it goes back for a task; or it takes a pause task, and if there were more loose
  // threads than useful pause tasks there still are; or it takes a user task.
  lemma LooseStep(s: Pool) returns (a: Action)
    requires PoolInv(s) && s.control.Free? && !PauseCovers(s) && UserTaskQueued(s.queue)
    ensures IsWorker(a) && Enabled(s, a)
    ensures Step(s, a).s.started > s.started
            || (!PauseCovers(Step(s, a).s) && Step(s, a).s.started == s.started && UserTaskQueued(Step(s, a).s.queue))
  {
    hide PoolInv, Count, Top, UserTaskQueued;
    if Count(s.threads, Busy) > 0 {
      var t := SomeWith(s.threads, Busy);
      a := Finish(t);
      CountsAfter(s.threads, t, Ready);
    } else if Count(s.threads, Held1) > 0 && s.running1 {
      var t := SomeWith(s.threads, Held1);
      a := Leave(t);
      CountsAfter(s.threads, t, Ready);
    } else if Count(s.threads, Held2) > 0 && s.running2 {
      var t := SomeWith(s.threads, Held2);
      a := Leave(t);
      CountsAfter(s.threads, t, Ready);
    } else {
      a := LoosePop(s);
    }
  }

  lemma LoosePop(s: Pool) returns (a: Action)
    requires PoolInv(s) && s.control.Free? && !PauseCovers(s) && UserTaskQueued(s.queue) && Count(s.threads, Ready) > 0
    ensures IsWorker(a) && Enabled(s, a)
    ensures Step(s, a).s.started > s.started
            || (!PauseCovers(Step(s, a).s) && Step(s, a).s.started == s.started && UserTaskQueued(Step(s, a).s.queue))
  {
    hide IdsInv, TakenInv, Count, Top;
    var t := SomeWith(s.threads, Ready);
    var task := TopTask(s.queue);
    a := Pop(t, task);
    CountsAfter(s.threads, t, Taken(task));
    TopIsQueued(s.queue, task);
    if !task.User? {
      var p, id :| User(p, id) in s.queue;
      assert User(p, id) in (s.queue - multiset{task});
    }
  }

  lemma TopIsQueued(queue: multiset<Task>, task: Task)
    requires Top(queue, task)
    ensures task in queue
  {
  }

  // If there are more loose threads than useful pause tasks, the workers can start a queued user task by themselves.
  lemma {:induction false} Escape(s: Pool) returns (states: seq<Pool>, acts: seq<Action>)
    requires PoolInv(s) && s.control.Free? && !PauseCovers(s) && UserTaskQueued(s.queue)
    ensures IsPath(states, acts) && states[0] == s && states[|acts|].started > s.started
    decreases Work(s)
  {
    hide PoolInv, PauseCovers, Work, Step, Enabled, IsPath;
    var a := LooseStep(s);
    StepKeeps(s, a);
    WorkerUsesWork(s, a);
    WorkerKeepsControl(s, a);
    var s' := Step(s, a).s;
    states, acts := [s'], [];
    Standing(s');
    if s'.started == s.started {
      states, acts := Escape(s');
    }
    Ahead(s, a, states, acts);
    states, acts := [s] + states, [a] + acts;
  }

  lemma WorkerKeepsControl(s: Pool, a: Action)
    requires (IsWorker(a) || a.Add?) && Enabled(s, a)
    ensures Step(s, a).Ok? && Step(s, a).s.control == s.control && Step(s, a).s.started >= s.started
  {
  }

  // No user task starts, whatever the workers do and whatever is added.
  ghost predicate StartsNothing(s: Pool) {
    forall states: seq<Pool>, acts: seq<Action> :: IsPath(states, acts) && states[0] == s ==> states[|acts|].started == s.started
  }

  // So between calls a pause holds if and only if there are at least as many useful pause tasks as loose threads.
  lemma PauseHoldsIff(s: Pool)
    requires PoolInv(s) && s.control.Free?
    ensures PauseCovers(s) <==> StartsNothing(s)
  {
    hide PoolInv, PauseCovers;
    if PauseCovers(s) {
      forall states: seq<Pool>, acts: seq<Action> | IsPath(states, acts) && states[0] == s ensures states[|acts|].started == s.started {
        CoveredRun(states, acts, |acts|);
      }
    } else {
      var a, s' := Add(0, 0), Step(s, Add(0, 0)).s;
      AddedTask(s);
      StepKeeps(s, a);
      var states, acts := Escape(s');
      Ahead(s, a, states, acts);
      assert ([s] + states)[|[a] + acts|] == states[|acts|];
    }
  }

  lemma AddedTask(s: Pool)
    ensures var s' := Step(s, Add(0, 0)).s;
            && Step(s, Add(0, 0)) == Ok(s') && s'.control == s.control && s'.started == s.started
            && UserTaskQueued(s'.queue) && (PauseCovers(s') <==> PauseCovers(s))
  {
    assert User(0, 0) in Step(s, Add(0, 0)).s.queue;
  }

  // ---------- shrinking a paused pool ----------

  // How far SetNumOfThreads(m) has come in a pool of `size` threads that was paused by Pause or the constructor.
  predicate Replacing(s: Pool, size: nat, m: nat) {
    var kill := Monus(size, m);
    var held := s.queue[Pause2] + Count(s.threads, Held2);
    && s.target == m && !s.closing
    && match s.control
       case Killing(left, k) => k == kill && !s.running1 && held == 0
       case Shifting(left, k, second) => k == kill && second && !s.running1 && !s.running2 && held + left == Monus(m, kill)
       case Joining(left) => left <= kill && s.running1 && !s.running2 && held == Monus(m, kill)
       case Free => s.running1 && !s.running2 && held == Monus(m, kill) && s.num == m
       case _ => false
  }

  lemma ReplacingStarts(s: Pool, m: nat)
    requires PoolInv(s) && PauseInv(s) && s.control.Free? && !s.running1 && m <= s.num
    ensures Replacing(Step(s, Resize(m)).s, s.num, m)
  {
  }

  lemma ReplacingWorker(s: Pool, a: Action, size: nat, m: nat)
    requires Replacing(s, size, m) && Enabled(s, a) && IsWorker(a)
    ensures Replacing(Step(s, a).s, size, m)
  {
    hide Count;
    CountsAfter(s.threads, a.t, Step(s, a).s.threads[a.t]);
  }

  lemma ReplacingJoin(s: Pool, size: nat, m: nat)
    requires PoolInv(s) && Replacing(s, size, m) && Enabled(s, Continue) && s.control.Joining? && s.control.left > 0
    ensures Step(s, Continue).Ok? && Replacing(Step(s, Continue).s, size, m)
  {
    JoinKeepsIds(s);
    hide Count, IdsInv, TakenInv, BooksInv;
    CountRemoved(s.threads, s.zombies[0], Held2);
  }

  lemma ReplacingContinue(s: Pool, size: nat, m: nat)
    requires PoolInv(s) && Replacing(s, size, m) && Enabled(s, Continue)
    ensures Step(s, Continue).Ok? && Replacing(Step(s, Continue).s, size, m)
  {
    if s.control.Joining? && s.control.left > 0 {
      ReplacingJoin(s, size, m);
    } else {
      hide Count, PoolInv;
    }
  }

  // When the size stays the same, the pause tasks cover the threads all through the call.
  lemma SameSizeStarts(s: Pool)
    requires PauseInv(s) && s.control.Free? && !s.running1
    ensures var s' := Step(s, Resize(s.num)).s; PauseCovers(s') && s'.started == s.started
  {
  }

  lemma SameSizeContinue(s: Pool, m: nat)
    requires PoolInv(s) && Replacing(s, m, m) && PauseCovers(s) && Enabled(s, Continue)
    ensures Step(s, Continue).Ok? && PauseCovers(Step(s, Continue).s) && Step(s, Continue).s.started == s.started
  {
    Partition(s.threads);
    hide IdsInv, TakenInv, Count;
  }

  lemma {:induction false} DuringReplacing(n: nat, states: seq<Pool>, acts: seq<Action>, i: nat, j: nat, m: nat)
    requires IsRun(n, states, acts) && i < j <= |acts|
    requires PauseInv(states[i]) && states[i].control.Free? && !states[i].running1 && acts[i] == Resize(m) && m <= states[i].num
    requires forall k :: i < k < j ==> !IsCall(acts[k])
    ensures Replacing(states[j], states[i].num, m)
    ensures m == states[i].num ==> PauseCovers(states[j]) && states[j].started == states[i].started
    decreases j
  {
    hide Step, Enabled, Replacing, PoolInv, PauseInv, PauseCovers;
    RunStep(n, states, acts, j - 1);
    if j == i + 1 {
      RunInv(n, states, acts, i);
      ReplacingStarts(states[i], m);
      SameSizeStarts(states[i]);
    } else {
      DuringReplacing(n, states, acts, i, j - 1, m);
      RunInv(n, states, acts, j - 1);
      var s, a := states[j - 1], acts[j - 1];
      if a.Continue? {
        ReplacingContinue(s, states[i].num, m);
        if m == states[i].num {
          SameSizeContinue(s, m);
        }
      } else {
        if a.Add? {
          ReplacingAdd(s, a.priority, a.id, states[i].num, m);
        } else {
          ReplacingWorker(s, a, states[i].num, m);
        }
        if m == states[i].num {
          CoverStep(s, a);
        }
      }
    }
  }

  lemma ReplacingAdd(s: Pool, p: Priority, id: nat, size: nat, m: nat)
    requires Replacing(s, size, m)
    ensures Replacing(Step(s, Add(p, id)).s, size, m)
  {
  }

  // SetNumOfThreads(m) is called on a paused pool that is at least that large, and returns. No user task has started
  // meanwhile and none starts afterwards, whatever the workers do and whatever is added, if and only if the size was
  // already m: the new pause tasks number m - (size - m), one too few for every thread that was killed.
  lemma ShrinkingAPausedPool(n: nat, states: seq<Pool>, acts: seq<Action>, i: nat, j: nat, m: nat)
    requires IsRun(n, states, acts) && i < j <= |acts| && IsTame(states[..i + 1], acts[..i])
    requires states[i].control.Free? && !states[i].running1 && acts[i] == Resize(m) && 0 < m <= states[i].num
    requires forall k :: i < k < j ==> !IsCall(acts[k])
    requires states[j].control.Free?
    ensures (states[j].started == states[i].started && StartsNothing(states[j])) <==> m == states[i].num
  {
    TamePrefix(n, states, acts, i);
    DuringReplacing(n, states, acts, i, j, m);
    RunInv(n, states, acts, j);
    ReplacedCover(states[j], states[i].num, m);
    hide PoolInv, PauseInv, PauseCovers, StartsNothing;
    PauseHoldsIff(states[j]);
  }

  lemma ReplacedCover(s: Pool, size: nat, m: nat)
    requires PoolInv(s) && s.control.Free? && Replacing(s, size, m) && 0 < m <= size
    ensures PauseCovers(s) <==> m == size
  {
    Partition(s.threads);
  }

  // A pool that has forgotten its pause grows: both flags are as SetNumOfThreads(0) left them.
  predicate Regrowing(s: Pool, m: nat) {
    && (s.control.Spawning? || s.control.Free?) && s.target == m && s.running1 && !s.running2
    && s.queue[Pause2] + Count(s.threads, Held2) == 0
  }

  lemma RegrowingSpawn(s: Pool, m: nat)
    requires PoolInv(s) && Regrowing(s, m) && Enabled(s, Continue)
    ensures Step(s, Continue).Ok? && Regrowing(Step(s, Continue).s, m)
  {
    assert !s.closing;
    if s.control.left > 0 {
      SpawnKeepsIds(s);
      hide Count, PoolInv, IdsInv, TakenInv, BooksInv, ControlInv;
      CountAdded(s.threads, s.nextId, Ready, Held2);
    } else {
      hide Count, PoolInv, IdsInv, TakenInv, BooksInv, ControlInv;
    }
  }

  lemma RegrowingWorker(s: Pool, a: Action, m: nat)
    requires Regrowing(s, m) && Enabled(s, a) && IsWorker(a)
    ensures Step(s, a).Ok? && Regrowing(Step(s, a).s, m)
  {
    hide Count;
    CountsAfter(s.threads, a.t, Step(s, a).s.threads[a.t]);
  }

  lemma RegrowingStep(s: Pool, a: Action, m: nat)
    requires PoolInv(s) && Regrowing(s, m) && Enabled(s, a) && !IsCall(a)
    ensures Step(s, a).Ok? && Regrowing(Step(s, a).s, m)
  {
    hide PoolInv, Count;
    if a.Continue? {
      RegrowingSpawn(s, m);
    } else if IsWorker(a) {
      hide Step, Enabled, Regrowing;
      RegrowingWorker(s, a, m);
    }
  }

  lemma {:induction false} DuringRegrowing(n: nat, states: seq<Pool>, acts: seq<Action>, j: nat, l: nat, m: nat)
    requires IsRun(n, states, acts) && j < l <= |acts|
    requires states[j].control.Free? && states[j].num == 0 && Replacing(states[j], states[j].num, 0) && acts[j] == Resize(m) && m > 0
    requires forall k :: j < k < l ==> !IsCall(acts[k])
    ensures Regrowing(states[l], m)
    decreases l
  {
    hide PoolInv, Regrowing, Step, Enabled, Replacing;
    RunStep(n, states, acts, l - 1);
    if l == j + 1 {
      RegrowingStarts(states[j], m);
    } else {
      DuringRegrowing(n, states, acts, j, l - 1, m);
      RunInv(n, states, acts, l - 1);
      RegrowingStep(states[l - 1], acts[l - 1], m);
    }
  }

  lemma RegrowingStarts(s: Pool, m: nat)
    requires s.control.Free? && s.num == 0 && Replacing(s, 0, 0) && m > 0
    ensures Step(s, Resize(m)).Ok? && Regrowing(Step(s, Resize(m)).s, m)
  {
  }

  // SetNumOfThreads(0) on a paused pool puts the first flag up. The empty pool starts nothing, but the threads of the next
  // SetNumOfThreads are not paused, although Run has not been called.
  lemma EmptiedPoolForgetsThePause(n: nat, states: seq<Pool>, acts: seq<Action>, i: nat, j: nat, l: nat, m: nat)
    requires IsRun(n, states, acts) && i < j < l <= |acts| && IsTame(states[..i + 1], acts[..i])
    requires states[i].control.Free? && !states[i].running1 && acts[i] == Resize(0)
    requires forall k :: i < k < j || j < k < l ==> !IsCall(acts[k])
    requires states[j].control.Free? && acts[j] == Resize(m) && m > 0 && states[l].control.Free?
    ensures StartsNothing(states[j]) && !StartsNothing(states[l])
  {
    TamePrefix(n, states, acts, i);
    DuringReplacing(n, states, acts, i, j, 0);
    RunInv(n, states, acts, j);
    assert Replacing(states[j], states[j].num, 0);
    DuringRegrowing(n, states, acts, j, l, m);
    RunInv(n, states, acts, l);
    Partition(states[j].threads);
    Partition(states[l].threads);
    hide IdsInv, TakenInv, PauseInv, StartsNothing, Count;
    PauseHoldsIff(states[j]);
    PauseHoldsIff(states[l]);
  }

  lemma TamePrefix(n: nat, states: seq<Pool>, acts: seq<Action>, i: nat)
    requires IsRun(n, states, acts) && i <= |acts| && IsTame(states[..i + 1], acts[..i])
    ensures PauseInv(states[i])
  {
    hide PoolInv, PauseInv, Step, Enabled, Tame;
    assert IsRun(n, states[..i + 1], acts[..i]);
    RunInv(n, states[..i + 1], acts[..i], i);
  }
}
