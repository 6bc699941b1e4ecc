// When a call of the controlling thread returns, exactly. Shrinking and destroying wait for threads to take suicide tasks,
// and threads that are held by a flag that stays down never do.
module ThreadPoolReturns {
  import opened Counting
  import opened ThreadPool
  import opened ThreadPoolInvariant
  import opened ThreadPoolTheorems
  import opened ThreadPoolProgress

  predicate Returned(s: Pool) {
    s.control.Free? || s.control.Gone?
  }

  // The call has not returned, and neither the controlling thread nor any worker has a step.
  ghost predicate Blocked(s: Pool) {
    !Returned(s) && forall a: Action :: (IsWorker(a) || a.Continue?) ==> !Enabled(s, a)
  }

  // Every step that is not an Add uses up work, so a call that cannot get blocked returns under every schedule.
  ghost predicate CanHang(s: Pool) {
    exists states: seq<Pool>, acts: seq<Action> :: IsPath(states, acts) && states[0] == s && Blocked(states[|acts|])
  }

  function Min(a: nat, b: nat): nat {
    if a <= b then a else b
  }

  // How many threads the flags can hold back while a shrink that starts now waits: those a lowered flag holds or can still
  // catch with the pause tasks in the queue, counting only the flag that the shrink does not raise.
  function Stalled(s: Pool): nat {
    var awake := Count(s.threads, Ready) + Count(s.threads, Busy);
    if !s.running1 then Count(s.threads, Held2) + Min(s.queue[Pause2], awake)
    else if !s.running2 then Count(s.threads, Held1) + Min(s.queue[Pause1], awake)
    else 0
  }

  function HeldBy(s: Pool, second: bool): nat {
    Count(s.threads, if second then Held2 else Held1)
  }

  // The call that is under way will find as many threads as it has to wait for.
  predicate Clear(s: Pool) {
    match s.control
    case Killing(_, _) => Stalled(s) <= s.target
    case Shifting(_, _, second) => !s.running1 && !s.running2 && (s.queue[Suicide] == 0 || HeldBy(s, second) <= s.target)
    case Joining(_) => s.queue[Suicide] <= Loose(s)
    case _ => true
  }

  // ---------- a clear call goes on ----------

  lemma SuicidesFirst(s: Pool, a: Action)
    requires Enabled(s, a) && a.Pop?
    ensures a.task in s.queue && (s.queue[Suicide] > 0 ==> a.task.Suicide?)
  {
    TopIsQueued(s.queue, a.task);
    if Suicide in s.queue {
      assert Rank(Suicide) <= Rank(a.task);
    }
  }

  // One thread changes its state: what that does to the counts in use here.
  lemma Recounted(m: map<nat, Status>, t: nat, to: Status)
    requires t in m
    ensures var m' := m[t := to];
            && Count(m', Ready) == Count(m, Ready) - (if m[t].Ready? then 1 else 0) + (if to.Ready? then 1 else 0)
            && Count(m', Busy) == Count(m, Busy) - (if m[t].Busy? then 1 else 0) + (if to.Busy? then 1 else 0)
            && Count(m', Held1) == Count(m, Held1) - (if m[t].Held1? then 1 else 0) + (if to.Held1? then 1 else 0)
            && Count(m', Held2) == Count(m, Held2) - (if m[t].Held2? then 1 else 0) + (if to.Held2? then 1 else 0)
  {
    hide Count;
    CountAfter(m, t, to, Ready);
    CountAfter(m, t, to, Busy);
    CountAfter(m, t, to, Held1);
    CountAfter(m, t, to, Held2);
  }

  lemma PopCalms(s: Pool, a: Action)
    requires Enabled(s, a) && a.Pop?
    ensures Step(s, a).Ok?
    ensures var s' := Step(s, a).s;
            && Stalled(s') <= Stalled(s) && s'.queue[Suicide] <= s.queue[Suicide]
            && (s.queue[Suicide] > 0 ==> s.queue[Suicide] - s'.queue[Suicide] == Loose(s) - Loose(s'))
  {
    hide Count, Top, Rank;
    SuicidesFirst(s, a);
    Recounted(s.threads, a.t, Taken(a.task));
  }

  lemma MoveCalms(s: Pool, a: Action)
    requires Enabled(s, a) && IsWorker(a) && !a.Pop?
    ensures Step(s, a).Ok?
    ensures var s' := Step(s, a).s;
            Stalled(s') <= Stalled(s) && s'.queue == s.queue && Loose(s') == Loose(s)
  {
    hide Count, Top;
    Recounted(s.threads, a.t, if a.Die? then Dead else Ready);
  }

  // While suicide tasks wait, loose threads and suicide tasks go together.
  lemma WorkerCalms(s: Pool, a: Action)
    requires Enabled(s, a) && IsWorker(a)
    ensures Step(s, a).Ok?
    ensures var s' := Step(s, a).s;
            && Stalled(s') <= Stalled(s) && s'.queue[Suicide] <= s.queue[Suicide]
            && (s.queue[Suicide] > 0 ==> s.queue[Suicide] - s'.queue[Suicide] == Loose(s) - Loose(s'))
  {
    hide Step, Enabled, Stalled, Loose;
    if a.Pop? {
      PopCalms(s, a);
    } else {
      MoveCalms(s, a);
    }
  }

  lemma HeldStays(s: Pool, a: Action, second: bool)
    requires Enabled(s, a) && IsWorker(a) && s.queue[Suicide] > 0
    ensures Step(s, a).Ok? && HeldBy(Step(s, a).s, second) <= HeldBy(s, second)
  {
    hide Count, Top;
    CountsAfter(s.threads, a.t, Step(s, a).s.threads[a.t]);
    if a.Pop? {
      SuicidesFirst(s, a);
    }
  }

  lemma WorkerKeepsCall(s: Pool, a: Action)
    requires Enabled(s, a) && IsWorker(a)
    ensures Step(s, a).Ok?
    ensures var s' := Step(s, a).s;
            s'.control == s.control && s'.target == s.target && s'.running1 == s.running1 && s'.running2 == s.running2
  {
  }

  lemma ClearWorker(s: Pool, a: Action)
    requires Clear(s) && Enabled(s, a) && IsWorker(a)
    ensures Step(s, a).Ok? && Clear(Step(s, a).s)
  {
    hide Step, Enabled, Stalled, HeldBy, Loose;
    WorkerKeepsCall(s, a);
    WorkerCalms(s, a);
    if s.control.Shifting? && s.queue[Suicide] > 0 {
      HeldStays(s, a, s.control.second);
    }
  }

  lemma ClearJoin(s: Pool)
    requires PoolInv(s) && Clear(s) && s.control.Joining? && s.control.left > 0 && s.zombies != []
    ensures Step(s, Continue).Ok? && Clear(Step(s, Continue).s)
  {
    JoinKeepsIds(s);
    hide PoolInv, Count;
    var id := s.zombies[0];
    CountRemoved(s.threads, id, Ready);
    CountRemoved(s.threads, id, Busy);
    CountRemoved(s.threads, id, Held1);
    CountRemoved(s.threads, id, Held2);
  }

  lemma ClearKilling(s: Pool)
    requires PoolInv(s) && Clear(s) && s.control.Killing?
    ensures Clear(KillingStep(s, s.control.left, s.control.kill))
  {
    Partition(s.threads);
    hide IdsInv, TakenInv, Count;
  }

  lemma ClearShifting(s: Pool)
    requires PoolInv(s) && Clear(s) && s.control.Shifting?
    ensures Clear(ShiftingStep(s, s.control.left, s.control.kill, s.control.second))
  {
    Partition(s.threads);
    hide IdsInv, TakenInv, Count;
  }

  lemma ClearStep(s: Pool, a: Action)
    requires PoolInv(s) && Clear(s) && Enabled(s, a) && Goes(a)
    ensures Step(s, a).Ok? && Clear(Step(s, a).s)
  {
    match a {
      case Continue =>
        match s.control {
          case Killing(_, _) => ClearKilling(s);
          case Shifting(_, _, _) => ClearShifting(s);
          case Joining(left) => if left > 0 { ClearJoin(s); }
          case _ => hide PoolInv, Count;
        }
      case Add(_, _) => hide PoolInv, Count;
      case _ => ClearWorker(s, a);
    }
  }

  lemma SuicideIsTop(queue: multiset<Task>)
    requires queue[Suicide] > 0
    ensures Top(queue, Suicide)
  {
  }

  // While zombies are awaited some thread is on its way to becoming one, if enough threads are loose.
  lemma JoinIsNeverStuck(s: Pool) returns (a: Action)
    requires PoolInv(s) && s.control.Joining? && s.control.left > 0 && s.zombies == [] && s.queue[Suicide] <= Loose(s)
    ensures IsWorker(a) && Enabled(s, a)
  {
    hide IdsInv, TakenInv, Count, Top;
    if Count(s.threads, Doomed) > 0 {
      var t := SomeWith(s.threads, Doomed);
      a := Die(t);
    } else if Count(s.threads, Ready) > 0 {
      var t := SomeWith(s.threads, Ready);
      SuicideIsTop(s.queue);
      a := Pop(t, Suicide);
    } else if Count(s.threads, Busy) > 0 {
      var t := SomeWith(s.threads, Busy);
      a := Finish(t);
    } else if s.running1 && Count(s.threads, Held1) > 0 {
      var t := SomeWith(s.threads, Held1);
      a := Leave(t);
    } else {
      var t := SomeWith(s.threads, Held2);
      a := Leave(t);
    }
  }

  lemma ClearMoves(s: Pool) returns (a: Action)
    requires PoolInv(s) && Clear(s) && !Returned(s)
    ensures Enabled(s, a) && (IsWorker(a) || a.Continue?)
  {
    hide PoolInv;
    if s.control.Joining? && s.control.left > 0 && s.zombies == [] {
      a := JoinIsNeverStuck(s);
    } else {
      a := Continue;
    }
  }

  lemma {:induction false} ClearPath(states: seq<Pool>, acts: seq<Action>, j: nat)
    requires IsPath(states, acts) && PoolInv(states[0]) && Clear(states[0]) && j <= |acts|
    ensures PoolInv(states[j]) && Clear(states[j])
    decreases j
  {
    hide PoolInv, Clear, Step, Enabled;
    if j > 0 {
      ClearPath(states, acts, j - 1);
      StepKeeps(states[j - 1], acts[j - 1]);
      ClearStep(states[j - 1], acts[j - 1]);
    }
  }

  lemma ClearNeverHangs(s: Pool)
    requires PoolInv(s) && Clear(s)
    ensures !CanHang(s)
  {
    hide PoolInv, Clear;
    forall states: seq<Pool>, acts: seq<Action> | IsPath(states, acts) && states[0] == s ensures !Blocked(states[|acts|]) {
      ClearPath(states, acts, |acts|);
      if !Returned(states[|acts|]) {
        var a := ClearMoves(states[|acts|]);
      }
    }
  }

  // ---------- one that is not clear hangs ----------

  // More suicide tasks wait than loose threads to take them.
  predicate Overdue(s: Pool) {
    s.control.Joining? && s.queue[Suicide] > Loose(s)
  }

  lemma OverdueWorker(s: Pool, a: Action)
    requires Overdue(s) && Enabled(s, a) && IsWorker(a)
    ensures Step(s, a).Ok? && Overdue(Step(s, a).s)
  {
    hide Step, Enabled, Loose;
    WorkerKeepsCall(s, a);
    WorkerCalms(s, a);
  }

  lemma OverdueJoin(s: Pool)
    requires PoolInv(s) && Overdue(s) && Enabled(s, Continue)
    ensures s.control.left > 0 && Step(s, Continue).Ok? && Overdue(Step(s, Continue).s)
  {
    assert s.control.left > 0;
    JoinKeepsIds(s);
    hide PoolInv, Count;
    var id := s.zombies[0];
    CountRemoved(s.threads, id, Ready);
    CountRemoved(s.threads, id, Busy);
    CountRemoved(s.threads, id, Held1);
    CountRemoved(s.threads, id, Held2);
  }

  lemma {:induction false} OverduePath(states: seq<Pool>, acts: seq<Action>, j: nat)
    requires IsPath(states, acts) && PoolInv(states[0]) && Overdue(states[0]) && j <= |acts|
    ensures PoolInv(states[j]) && Overdue(states[j])
    decreases j
  {
    hide PoolInv, Step, Enabled, Loose;
    if j > 0 {
      OverduePath(states, acts, j - 1);
      var s, a := states[j - 1], acts[j - 1];
      StepKeeps(s, a);
      if a.Continue? {
        OverdueJoin(s);
      } else if a.Add? {
        OverdueAdd(s, a);
      } else {
        OverdueWorker(s, a);
      }
    }
  }

  lemma OverdueAdd(s: Pool, a: Action)
    requires Overdue(s) && a.Add?
    ensures Overdue(Step(s, a).s)
  {
  }

  // Any schedule that is followed as long as possible comes to an end.
  lemma {:induction false} Exhaust(s: Pool) returns (states: seq<Pool>, acts: seq<Action>)
    requires PoolInv(s)
    ensures IsPath(states, acts) && states[0] == s
    ensures forall a: Action :: (IsWorker(a) || a.Continue?) ==> !Enabled(states[|acts|], a)
    decreases Work(s)
  {
    hide PoolInv, Work, Step, Enabled, IsPath;
    if a: Action :| (IsWorker(a) || a.Continue?) && Enabled(s, a) {
      StepKeeps(s, a);
      StepUsesWork(s, a);
      var next, rest := Exhaust(Step(s, a).s);
      Ahead(s, a, next, rest);
      states, acts := [s] + next, [a] + rest;
      PathShape(next, rest);
    } else {
      Standing(s);
      states, acts := [s], [];
    }
  }

  lemma PathShape(states: seq<Pool>, acts: seq<Action>)
    requires IsPath(states, acts)
    ensures |states| == |acts| + 1
  {
  }

  lemma OverdueHangs(s: Pool)
    requires PoolInv(s) && Overdue(s)
    ensures CanHang(s)
    ensures forall states: seq<Pool>, acts: seq<Action> :: IsPath(states, acts) && states[0] == s ==> !Returned(states[|acts|])
  {
    hide PoolInv, Step, Enabled;
    forall states: seq<Pool>, acts: seq<Action> | IsPath(states, acts) && states[0] == s ensures !Returned(states[|acts|]) {
      OverduePath(states, acts, |acts|);
    }
    var states, acts := Exhaust(s);
    assert Blocked(states[|acts|]);
  }

  // In the join: the wait ends under every schedule if and only if no more suicide tasks are queued than threads are loose;
  // otherwise it ends under none.
  lemma JoinReturnsIff(s: Pool)
    requires PoolInv(s) && s.control.Joining?
    ensures !CanHang(s) <==> s.queue[Suicide] <= Loose(s)
    ensures CanHang(s) ==> forall states: seq<Pool>, acts: seq<Action> :: IsPath(states, acts) && states[0] == s ==> !Returned(states[|acts|])
  {
    hide PoolInv, CanHang, IsPath, Loose;
    if s.queue[Suicide] <= Loose(s) {
      ClearNeverHangs(s);
    } else {
      OverdueHangs(s);
    }
  }

  lemma HangsEarlier(s: Pool, a: Action)
    requires Goes(a) && Enabled(s, a) && Step(s, a).Ok? && CanHang(Step(s, a).s)
    ensures CanHang(s)
  {
    hide Step, Enabled, Blocked;
    var s' := Step(s, a).s;
    var states: seq<Pool>, acts: seq<Action> :| IsPath(states, acts) && states[0] == s' && Blocked(states[|acts|]);
    Ahead(s, a, states, acts);
    assert ([s] + states)[|[a] + acts|] == states[|acts|];
  }

  // Nothing is pushed yet, and too many threads can be held back.
  predicate Lured(s: Pool) {
    s.control.Killing? && s.control.left == s.control.kill && Stalled(s) > s.target
  }

  // The shrink has more threads held against it than it leaves alive.
  predicate Short(s: Pool) {
    match s.control
    case Killing(_, _) => (!s.running1 || !s.running2) && HeldBy(s, !s.running1) > s.target
    case Shifting(_, _, second) => !s.running1 && !s.running2 && HeldBy(s, second) > s.target
    case _ => false
  }

  lemma ShortKilling(s: Pool)
    requires PoolInv(s) && Short(s) && s.control.Killing?
    ensures Short(KillingStep(s, s.control.left, s.control.kill))
  {
    hide PoolInv, Count;
  }

  lemma ShortShifting(s: Pool)
    requires PoolInv(s) && Short(s) && s.control.Shifting?
    ensures var s' := ShiftingStep(s, s.control.left, s.control.kill, s.control.second); Short(s') || Overdue(s')
  {
    Partition(s.threads);
    hide IdsInv, TakenInv, Count;
  }

  lemma ShortStep(s: Pool)
    requires PoolInv(s) && Short(s)
    ensures Enabled(s, Continue) && Step(s, Continue).Ok? && PoolInv(Step(s, Continue).s)
    ensures var s' := Step(s, Continue).s; (Short(s') || Overdue(s')) && Work(s') < Work(s)
  {
    hide PoolInv, Work, KillingStep, ShiftingStep, Overdue, HeldBy;
    StepKeeps(s, Continue);
    StepUsesWork(s, Continue);
    if s.control.Killing? {
      ShortKilling(s);
    } else {
      ShortShifting(s);
    }
  }

  // Now the controlling thread goes on alone, and joins too late.
  lemma {:induction false} ShortHangs(s: Pool)
    requires PoolInv(s) && Short(s)
    ensures CanHang(s)
    decreases Work(s)
  {
    hide PoolInv, Short, CanHang, Work, Step, Enabled;
    ShortStep(s);
    var s' := Step(s, Continue).s;
    if Overdue(s') {
      OverdueHangs(s');
    } else {
      ShortHangs(s');
    }
    HangsEarlier(s, Continue);
  }

  // An awake thread takes one more of the pause tasks that will hold it.
  lemma LuredStep(s: Pool) returns (a: Action)
    requires PoolInv(s) && Lured(s) && !Short(s)
    ensures IsWorker(a) && Enabled(s, a) && Step(s, a).Ok? && Lured(Step(s, a).s)
  {
    hide IdsInv, TakenInv, Count;
    if Count(s.threads, Busy) > 0 {
      var t := SomeWith(s.threads, Busy);
      a := Finish(t);
      CountsAfter(s.threads, t, Ready);
    } else {
      var task := if !s.running1 then Pause2 else Pause1;
      var t := SomeWith(s.threads, Ready);
      assert Top(s.queue, task);
      a := Pop(t, task);
      CountsAfter(s.threads, t, Taken(task));
    }
  }

  lemma {:induction false} LuredHangs(s: Pool)
    requires PoolInv(s) && Lured(s)
    ensures CanHang(s)
    decreases Work(s)
  {
    hide PoolInv, Short, CanHang, Work, Step, Enabled, Lured;
    if Short(s) {
      ShortHangs(s);
    } else {
      var a := LuredStep(s);
      StepKeeps(s, a);
      StepUsesWork(s, a);
      LuredHangs(Step(s, a).s);
      HangsEarlier(s, a);
    }
  }

  // ---------- calls ----------

  // The size that SetNumOfThreads or the destructor asks for.
  function Asked(call: Action): nat {
    if call.Resize? then call.n else 0
  }

  // If the call shrinks the pool, no more threads can be held back than it leaves alive.
  predicate Heeded(s: Pool, a: Action) {
    (a.Resize? || a.Destroy?) && Asked(a) <= s.num ==> Stalled(s) <= Asked(a)
  }

  lemma CallStarts(s: Pool, call: Action)
    requires PoolInv(s) && s.control.Free? && IsCall(call)
    ensures Enabled(s, call) && Step(s, call).Ok? && PoolInv(Step(s, call).s)
    ensures var s' := Step(s, call).s;
            && (Clear(s') <==> Heeded(s, call))
            && (!Clear(s') ==> Lured(s'))
  {
    StepKeeps(s, call);
    hide PoolInv, Count;
  }

  // A call returns under every schedule if and only if it does not shrink the pool, or no more threads can be held back
  // than it leaves alive.
  lemma CallReturnsIff(s: Pool, call: Action)
    requires PoolInv(s) && s.control.Free? && IsCall(call)
    ensures Enabled(s, call) && Step(s, call).Ok?
    ensures !CanHang(Step(s, call).s) <==> Heeded(s, call)
  {
    hide PoolInv, Step, Enabled, Heeded, CanHang, Clear, Lured;
    CallStarts(s, call);
    if Clear(Step(s, call).s) {
      ClearNeverHangs(Step(s, call).s);
    } else {
      LuredHangs(Step(s, call).s);
    }
  }

  // As long as no paused pool has been shrunk every call returns: also the first shrink of a paused pool, and destruction.
  lemma TameCallsReturn(n: nat, states: seq<Pool>, acts: seq<Action>, call: Action)
    requires IsRun(n, states, acts) && IsTame(states, acts) && states[|acts|].control.Free? && IsCall(call)
    ensures Enabled(states[|acts|], call) && Step(states[|acts|], call).Ok? && !CanHang(Step(states[|acts|], call).s)
  {
    hide Step, Enabled, CanHang;
    RunInv(n, states, acts, |acts|);
    CallReturnsIff(states[|acts|], call);
  }

  lemma {:induction false} HeededRun(n: nat, states: seq<Pool>, acts: seq<Action>, j: nat)
    requires IsRun(n, states, acts) && j <= |acts| && forall k :: 0 <= k < j ==> Heeded(states[k], acts[k])
    ensures PoolInv(states[j]) && Clear(states[j])
    decreases j
  {
    hide PoolInv, PauseInv, Clear, Step, Enabled, Stalled;
    RunInv(n, states, acts, j);
    if j > 0 {
      RunInv(n, states, acts, j - 1);
      HeededRun(n, states, acts, j - 1);
      RunStep(n, states, acts, j - 1);
      var s, a := states[j - 1], acts[j - 1];
      if IsCall(a) {
        CallNeedsFree(s, a);
        CallStarts(s, a);
      } else {
        ClearStep(s, a);
      }
    } else {
      FreshIsClear(n);
    }
  }

  lemma CallNeedsFree(s: Pool, a: Action)
    requires IsCall(a) && Enabled(s, a)
    ensures s.control.Free?
  {
  }

  lemma FreshIsClear(n: nat)
    ensures Clear(Fresh(n))
  {
  }

  // So no reachable state is stuck in a call, in any run whose shrinks were heeded, paused or not.
  lemma CallsAreNeverStuck(n: nat, states: seq<Pool>, acts: seq<Action>) returns (a: Action)
    requires IsRun(n, states, acts) && !Returned(states[|acts|])
    requires forall k :: 0 <= k < |acts| ==> Heeded(states[k], acts[k])
    ensures Enabled(states[|acts|], a) && (IsWorker(a) || a.Continue?)
  {
    hide PoolInv, Clear, Step, Enabled, Heeded;
    HeededRun(n, states, acts, |acts|);
    a := ClearMoves(states[|acts|]);
  }
}
