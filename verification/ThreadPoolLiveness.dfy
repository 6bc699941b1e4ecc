// What happens after Run: everything that is queued is started, the highest priority first.
module ThreadPoolLiveness {
  import opened Counting
  import opened ThreadPool
  import opened ThreadPoolInvariant
  import opened ThreadPoolProgress

  // A user task is popped exactly when nothing internal and no user task of higher priority is queued.
  lemma HighestPriorityFirst(s: Pool, t: nat, p: Priority, id: nat)
    ensures Enabled(s, Pop(t, User(p, id)))
            <==> t in s.threads && s.threads[t].Ready? && User(p, id) in s.queue
                 && Suicide !in s.queue && Pause1 !in s.queue && Pause2 !in s.queue
                 && forall q: Priority, other :: User(q, other) in s.queue ==> q <= p
  {
    if Enabled(s, Pop(t, User(p, id))) {
      assert Suicide in s.queue ==> Rank(Suicide) <= Rank(User(p, id));
      assert Pause1 in s.queue ==> Rank(Pause1) <= Rank(User(p, id));
      assert Pause2 in s.queue ==> Rank(Pause2) <= Rank(User(p, id));
      forall q: Priority, other | User(q, other) in s.queue ensures q <= p {
        assert Rank(User(q, other)) <= Rank(User(p, id));
      }
    }
  }

  // Suicide tasks come before pause tasks, and those before user tasks.
  lemma InternalTasksFirst(s: Pool, t: nat, task: Task)
    requires Enabled(s, Pop(t, task))
    ensures Suicide in s.queue ==> task == Suicide
    ensures Suicide !in s.queue && (Pause1 in s.queue || Pause2 in s.queue) ==> task == Pause1 || task == Pause2
  {
    assert Suicide in s.queue ==> Rank(Suicide) <= Rank(task);
    assert Pause1 in s.queue ==> Rank(Pause1) <= Rank(task);
    assert Pause2 in s.queue ==> Rank(Pause2) <= Rank(task);
  }

  // ---------- after Run ----------

  // Run ends the pause: from then on user tasks can start exactly if there is a thread.
  lemma RunEndsThePause(s: Pool)
    requires PoolInv(s) && s.control.Free?
    ensures Enabled(s, Run) && Step(s, Run).Ok?
    ensures StartsNothing(Step(s, Run).s) <==> s.threads == map[]
  {
    StepKeeps(s, Run);
    var s' := Step(s, Run).s;
    Partition(s'.threads);
    hide IdsInv, TakenInv, Count, StartsNothing;
    PauseHoldsIff(s');
    assert |s.threads| == 0 <==> s.threads == map[];
  }

  function UserTasks(queue: multiset<Task>): int {
    |queue| - queue[Suicide] - queue[Pause1] - queue[Pause2]
  }

  // Between calls, with both flags up.
  predicate Running(s: Pool) {
    s.control.Free? && s.running1 && s.running2
  }

  lemma WorkerStarts(s: Pool, a: Action)
    requires Running(s) && Enabled(s, a) && IsWorker(a)
    ensures Step(s, a).Ok? && Running(Step(s, a).s) && Step(s, a).s.threads.Keys == s.threads.Keys
    ensures Step(s, a).s.started + UserTasks(Step(s, a).s.queue) == s.started + UserTasks(s.queue)
  {
    hide Top;
    if a.Pop? {
      TopIsQueued(s.queue, a.task);
    }
  }

  lemma {:induction false} RunPath(states: seq<Pool>, acts: seq<Action>, j: nat)
    requires IsPath(states, acts) && (forall i :: 0 <= i < |acts| ==> IsWorker(acts[i])) && j <= |acts|
    requires PoolInv(states[0]) && Running(states[0])
    ensures PoolInv(states[j]) && Running(states[j]) && states[j].threads.Keys == states[0].threads.Keys
    ensures states[j].started + UserTasks(states[j].queue) == states[0].started + UserTasks(states[0].queue)
    ensures Work(states[j]) + j <= Work(states[0])
    decreases j
  {
    hide PoolInv, Running, UserTasks, Work, Step, Enabled;
    if j > 0 {
      RunPath(states, acts, j - 1);
      var s, a := states[j - 1], acts[j - 1];
      assert IsWorker(a);
      StepKeeps(s, a);
      WorkerStarts(s, a);
      StepUsesWork(s, a);
    }
  }

  // While anything is queued, or some thread is not waiting for a task, a worker can move.
  lemma SomeWorkerMoves(s: Pool) returns (a: Action)
    requires PoolInv(s) && Running(s) && s.threads != map[]
    requires s.queue != multiset{} || exists t :: t in s.threads && !s.threads[t].Ready?
    ensures IsWorker(a) && Enabled(s, a)
  {
    hide IdsInv, TakenInv, Top;
    if t :| t in s.threads && !s.threads[t].Ready? {
      CountPositive(s.threads, t);
      a := if s.threads[t].Busy? then Finish(t) else Leave(t);
    } else {
      var task := TopTask(s.queue);
      var t :| t in s.threads;
      a := Pop(t, task);
    }
  }

  lemma StillPool(s: Pool)
    requires PoolInv(s) && Running(s) && s.threads != map[] && forall a: Action :: IsWorker(a) ==> !Enabled(s, a)
    ensures s.queue == multiset{} && forall t :: t in s.threads ==> s.threads[t].Ready?
  {
    hide PoolInv, Enabled;
    if s.queue != multiset{} || exists t :: t in s.threads && !s.threads[t].Ready? {
      var a := SomeWorkerMoves(s);
    }
  }

  // The workers come to rest after Run, whatever they do; and then every user task that was queued has been started.
  lemma RunStartsEverything(s: Pool, states: seq<Pool>, acts: seq<Action>)
    requires PoolInv(s) && s.control.Free? && s.threads != map[]
    requires IsPath(states, acts) && (forall i :: 0 <= i < |acts| ==> IsWorker(acts[i])) && Step(s, Run) == Ok(states[0])
    ensures |acts| <= Work(states[0])
    ensures (forall a: Action :: IsWorker(a) ==> !Enabled(states[|acts|], a)) ==>
              && states[|acts|].queue == multiset{}
              && states[|acts|].started == s.started + (|s.queue| - s.queue[Suicide] - s.queue[Pause1] - s.queue[Pause2])
              && (forall t :: t in s.threads ==> t in states[|acts|].threads && states[|acts|].threads[t].Ready?)
  {
    StepKeeps(s, Run);
    hide PoolInv, Work, Enabled;
    RunPath(states, acts, |acts|);
    if forall a: Action :: IsWorker(a) ==> !Enabled(states[|acts|], a) {
      StillPool(states[|acts|]);
    }
  }
}
