// What holds of every run of the thread pool.
module ThreadPoolTheorems {
  import opened Counting
  import opened ThreadPool
  import opened ThreadPoolInvariant

  predicate IsTame(states: seq<Pool>, acts: seq<Action>)
    requires |states| == |acts| + 1
  {
    forall j :: 0 <= j < |acts| ==> Tame(states[j], acts[j])
  }

  lemma {:induction false} RunInv(n: nat, states: seq<Pool>, acts: seq<Action>, j: nat)
    requires IsRun(n, states, acts) && j <= |acts|
    ensures PoolInv(states[j])
    ensures IsTame(states, acts) ==> PauseInv(states[j])
    decreases j
  {
    hide PoolInv, PauseInv, Step, Enabled, Tame;
    if j == 0 {
      FreshInv(n);
      FreshPaused(n);
    } else {
      RunInv(n, states, acts, j - 1);
      StepKeeps(states[j - 1], acts[j - 1]);
      if IsTame(states, acts) {
        PauseStepKeeps(states[j - 1], acts[j - 1]);
      }
    }
  }

  // Joining never asks the thread map for a thread it does not hold.
  lemma NothingBreaks(n: nat, states: seq<Pool>, acts: seq<Action>, a: Action)
    requires IsRun(n, states, acts) && Enabled(states[|acts|], a)
    ensures Step(states[|acts|], a).Ok?
    ensures states[|acts|].threadMap == states[|acts|].threads.Keys
  {
    hide PauseInv, Step, Enabled, TakenInv, BooksInv, ControlInv;
    RunInv(n, states, acts, |acts|);
    StepKeeps(states[|acts|], a);
  }

  // ---------- a pause holds ----------

  // No user task can be popped: every thread that could has a pause task before it, or a suicide task.
  ghost predicate Halted(s: Pool) {
    || (!s.running1 && s.queue[Pause1] >= Count(s.threads, Ready) + Count(s.threads, Busy))
    || (Leaving(s) && s.running1 && !s.control.Shifting?)
  }

  lemma HaltedStartsNothing(s: Pool, t: nat, task: Task)
    requires PoolInv(s) && Halted(s) && Enabled(s, Pop(t, task))
    ensures !task.User?
  {
    hide IdsInv, TakenInv, Count;
    CountPositive(s.threads, t);
    if !s.running1 && s.queue[Pause1] >= Count(s.threads, Ready) + Count(s.threads, Busy) {
      assert Pause1 in s.queue && Rank(Pause1) <= Rank(task);
    } else {
      Partition(s.threads);
      assert Suicide in s.queue && Rank(Suicide) <= Rank(task);
    }
  }

  // A pool that is paused between two calls, and one that is being constructed, is halted.
  lemma PausedIsHalted(s: Pool)
    requires PauseInv(s) && !s.running1
    requires s.control.Free? || s.threads == map[]
    ensures Halted(s)
  {
    if s.threads == map[] {
      assert With(s.threads, Ready) == {} && With(s.threads, Busy) == {};
    }
  }

  lemma HaltedStep(s: Pool, a: Action)
    requires PoolInv(s) && PauseInv(s) && Halted(s) && Enabled(s, a) && Tame(s, a) && !a.Run?
    ensures Halted(Step(s, a).s) && Step(s, a).s.started == s.started
  {
    match a {
      case Pop(t, task) => HaltedStartsNothing(s, t, task); HaltedWorker(s, a);
      case Finish(_) => HaltedWorker(s, a);
      case Leave(_) => HaltedWorker(s, a);
      case Die(_) => HaltedWorker(s, a);
      case Continue => HaltedContinue(s);
      case _ => HaltedCall(s, a);
    }
  }

  lemma HaltedCall(s: Pool, a: Action)
    requires PoolInv(s) && PauseInv(s) && Halted(s) && Enabled(s, a) && Tame(s, a) && (a.Pause? || a.Resize? || a.Destroy? || a.Add?)
    ensures Halted(Step(s, a).s) && Step(s, a).s.started == s.started
  {
    hide IdsInv, TakenInv, BooksInv, Count;
  }

  lemma HaltedWorker(s: Pool, a: Action)
    requires PoolInv(s) && PauseInv(s) && Halted(s) && Enabled(s, a)
    requires (a.Pop? && !a.task.User?) || a.Finish? || a.Leave? || a.Die?
    ensures Halted(Step(s, a).s) && Step(s, a).s.started == s.started
  {
    hide PoolInv, Count;
    CountsAfter(s.threads, a.t, Step(s, a).s.threads[a.t]);
    var s' := Step(s, a).s;
    assert Count(s'.threads, Ready) + Count(s'.threads, Busy)
           == Count(s.threads, Ready) + Count(s.threads, Busy) - (if a.Pop? then 1 else 0) + (if a.Leave? then 1 else 0);
  }

  lemma HaltedContinue(s: Pool)
    requires PoolInv(s) && PauseInv(s) && Halted(s) && Enabled(s, Continue)
    ensures Halted(Step(s, Continue).s) && Step(s, Continue).s.started == s.started
  {
    hide TakenInv, BooksInv, Count;
    if s.control.Joining? && s.control.left > 0 {
      JoinKeepsIds(s);
    } else if s.control.Spawning? && s.control.left > 0 {
      SpawnKeepsIds(s);
      hide IdsInv;
      CountAdded(s.threads, s.nextId, Ready, Ready);
      CountAdded(s.threads, s.nextId, Ready, Busy);
    } else {
      hide IdsInv;
    }
  }

  // From the return of the constructor or of Pause until Run is called no user task starts, through any number of
  // Pause, grow, shrink-while-running and AddTask, and through destruction.
  lemma {:induction false} PauseHolds(n: nat, states: seq<Pool>, acts: seq<Action>, j: nat, k: nat)
    requires IsRun(n, states, acts) && IsTame(states, acts) && j <= k <= |acts|
    requires !states[j].running1 && (states[j].control.Free? || j == 0)
    requires forall i :: j <= i < k ==> !acts[i].Run?
    ensures states[k].started == states[j].started && Halted(states[k])
    decreases k
  {
    hide PoolInv, PauseInv, Halted, Step, Enabled, Tame;
    RunInv(n, states, acts, j);
    if k == j {
      PausedIsHalted(states[j]);
    } else {
      PauseHolds(n, states, acts, j, k - 1);
      RunInv(n, states, acts, k - 1);
      HaltedStep(states[k - 1], acts[k - 1]);
    }
  }

  // ---------- a shrink takes exactly the threads it should ----------

  predicate IsCall(a: Action) {
    a.Run? || a.Pause? || a.Resize? || a.Destroy?
  }

  predicate InShrink(control: Control) {
    control.Killing? || control.Shifting? || control.Joining? || control.Free? || control.Gone?
  }

  predicate PrefixOf(a: seq<nat>, b: seq<nat>) {
    |a| <= |b| && b[..|a|] == a
  }

  lemma RunStep(n: nat, states: seq<Pool>, acts: seq<Action>, k: nat)
    requires IsRun(n, states, acts) && k < |acts|
    ensures Enabled(states[k], acts[k]) && Step(states[k], acts[k]) == Ok(states[k + 1])
  {
  }

  lemma ShrinkStep(s: Pool, a: Action)
    requires Enabled(s, a) && Step(s, a).Ok? && !IsCall(a) && InShrink(s.control)
    ensures var s' := Step(s, a).s;
            InShrink(s'.control) && s'.nextId == s.nextId && s'.target == s.target && PrefixOf(s.taken, s'.taken)
  {
  }

  // While a call to SetNumOfThreads(m) with m no larger than the pool runs, no thread is created.
  lemma {:induction false} DuringShrink(n: nat, states: seq<Pool>, acts: seq<Action>, i: nat, j: nat, m: nat)
    requires IsRun(n, states, acts) && i < j <= |acts|
    requires (acts[i] == Resize(m) || (acts[i] == Destroy && m == 0)) && m <= states[i].num
    requires forall k :: i < k < j ==> !IsCall(acts[k])
    ensures var s := states[j];
            InShrink(s.control) && s.nextId == states[i].nextId && s.target == m && PrefixOf(states[i].taken, s.taken)
    decreases j
  {
    hide Step, Enabled;
    if j == i + 1 {
      RunStep(n, states, acts, i);
      ShrinkCall(states[i], acts[i]);
    } else {
      DuringShrink(n, states, acts, i, j - 1, m);
      RunStep(n, states, acts, j - 1);
      ShrinkStep(states[j - 1], acts[j - 1]);
      PrefixesChain(states[i].taken, states[j - 1].taken, states[j].taken);
    }
  }

  lemma ShrinkCall(s: Pool, a: Action)
    requires Enabled(s, a) && ((a.Resize? && a.n <= s.num) || a.Destroy?)
    ensures Step(s, a) == Ok(s.(target := if a.Resize? then a.n else 0, closing := s.closing || a.Destroy?, control := Step(s, a).s.control)) && Step(s, a).s.control.Killing?
  {
  }

  lemma PrefixesChain(a: seq<nat>, b: seq<nat>, c: seq<nat>)
    requires PrefixOf(a, b) && PrefixOf(b, c)
    ensures PrefixOf(a, c)
  {
    assert c[..|b|][..|a|] == c[..|a|];
  }

  lemma RestingThreads(s: Pool)
    requires PoolInv(s) && (s.control.Free? || s.control.Gone?)
    ensures forall t: nat :: t in s.threads <==> t < s.nextId && t !in s.taken
    ensures |s.threads| == s.target
  {
    forall t | t in s.threads ensures !s.threads[t].Doomed? && !s.threads[t].Dead? {
      CountPositive(s.threads, t);
    }
  }

  // Shrinking from m to n, or destroying the pool, in any state: when the call has returned, the threads that
  // have taken a suicide task meanwhile are m - n distinct ones, and those are the ones that are gone.
  lemma ShrinkTakesExactly(n: nat, states: seq<Pool>, acts: seq<Action>, i: nat, j: nat, m: nat)
    requires IsRun(n, states, acts) && i < j <= |acts|
    requires (acts[i] == Resize(m) || (acts[i] == Destroy && m == 0)) && m <= states[i].num
    requires forall k :: i < k < j ==> !IsCall(acts[k])
    requires states[j].control.Free? || states[j].control.Gone?
    ensures var s, s' := states[i], states[j];
            && PrefixOf(s.taken, s'.taken) && Distinct(s'.taken)
            && |s'.taken| - |s.taken| == s.num - m && |s'.threads| == m
            && forall t: nat :: t in s'.threads <==> t in s.threads && t !in s'.taken[|s.taken|..]
  {
    hide Step, BooksInv, IdsInv;
    DuringShrink(n, states, acts, i, j, m);
    RunInv(n, states, acts, i);
    RunInv(n, states, acts, j);
    ShrinkStarts(n, states, acts, i);
    var s, s' := states[i], states[j];
    RestingThreads(s);
    RestingThreads(s');
    assert s'.taken == s.taken + s'.taken[|s.taken|..];
    AliveAndTaken(s);
    AliveAndTaken(s');
  }

  lemma ShrinkStarts(n: nat, states: seq<Pool>, acts: seq<Action>, i: nat)
    requires IsRun(n, states, acts) && i < |acts| && IsCall(acts[i])
    ensures states[i].control.Free?
  {
  }

  function Elements(ids: seq<nat>): (es: set<nat>)
    ensures forall t :: t in es <==> t in ids
  {
    if ids == [] then {} else Elements(ids[..|ids| - 1]) + {ids[|ids| - 1]}
  }

  lemma {:induction false} DistinctSize(ids: seq<nat>)
    requires Distinct(ids)
    ensures |Elements(ids)| == |ids|
  {
    if ids != [] {
      DistinctSize(ids[..|ids| - 1]);
      assert ids[|ids| - 1] !in ids[..|ids| - 1];
    }
  }

  function Below(n: nat): (ts: set<nat>)
    ensures forall t: nat :: t in ts <==> t < n
    ensures |ts| == n
  {
    if n == 0 then {} else Below(n - 1) + {n - 1}
  }

  lemma AliveAndTaken(s: Pool)
    requires TakenInv(s) && forall t: nat :: t in s.threads <==> t < s.nextId && t !in s.taken
    ensures |s.threads| + |s.taken| == s.nextId
  {
    DistinctSize(s.taken);
    DisjointSize(s.threads.Keys, Elements(s.taken));
    assert s.threads.Keys + Elements(s.taken) == Below(s.nextId);
  }
}
