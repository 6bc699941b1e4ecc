// Books that balance in every state of the pool, and those that balance while it is not shrunk to a positive size
// when paused.
module ThreadPoolInvariant {
  import opened Counting
  import opened ThreadPool

  // Suicide tasks pushed so far and not yet paid for by a join.
  function Owed(control: Control): nat {
    match control
    case Killing(left, kill) => Monus(kill, left)
    case Shifting(_, kill, _) => kill
    case Joining(left) => left
    case _ => 0
  }

  function ToSpawn(control: Control): nat {
    match control
    case Pausing(_, spawn) => spawn
    case Spawning(left) => left
    case _ => 0
  }

  // The size of the pool once the threads still to be created are there.
  function Size(s: Pool): nat {
    match s.control
    case Killing(_, _) => s.num
    case Shifting(_, _, _) => s.num
    case Joining(left) => s.target + left
    case _ => s.target
  }

  predicate ControlInv(s: Pool) {
    && (s.closing ==> s.target == 0 && (s.control.Killing? || s.control.Shifting? || s.control.Joining? || s.control.Gone?))
    && match s.control
       case Free => s.num == s.target
       case Pausing(left, spawn) => (spawn == 0 ==> s.num == s.target) && (spawn > 0 ==> left <= spawn && s.target > 0)
       case Spawning(left) => s.target > 0
       case Killing(left, kill) => left <= kill && s.num == s.target + kill
       case Shifting(left, kill, second) => s.num == s.target + kill
       case Joining(left) => true
       case Gone => s.closing
  }

  ghost predicate IdsInv(s: Pool) {
    && s.threadMap == s.threads.Keys
    && (forall t :: t in s.threads ==> t < s.nextId)
    && Distinct(s.zombies)
    && (forall t :: t in s.zombies <==> t in s.threads && s.threads[t].Dead?)
  }

  // The threads that have taken a suicide task are exactly those that are dying, dead or joined.
  ghost predicate TakenInv(s: Pool) {
    && Distinct(s.taken)
    && (forall t :: t in s.taken ==> t < s.nextId)
    && (forall t: nat :: t < s.nextId ==> (t in s.taken <==> !(t in s.threads && !s.threads[t].Doomed? && !s.threads[t].Dead?)))
  }

  ghost predicate BooksInv(s: Pool) {
    && s.queue[Suicide] + Count(s.threads, Doomed) + Count(s.threads, Dead) == Owed(s.control)
    && Count(s.threads, Dead) == |s.zombies|
    && |s.threads| + ToSpawn(s.control) == Size(s)
  }

  ghost predicate PoolInv(s: Pool) {
    ControlInv(s) && IdsInv(s) && TakenInv(s) && BooksInv(s)
  }

  lemma DisjointSize(a: set<nat>, b: set<nat>)
    requires a !! b
    ensures |a + b| == |a| + |b|
  {
  }

  lemma ThreadCounted(m: map<nat, Status>, t: nat)
    requires t in m
    ensures t in With(m, Ready) || t in With(m, Busy) || t in With(m, Held1) || t in With(m, Held2)
            || t in With(m, Doomed) || t in With(m, Dead)
  {
    assert t in With(m, m[t]);
    match m[t] {
      case Ready =>
      case Busy =>
      case Held1 =>
      case Held2 =>
      case Doomed =>
      case Dead =>
    }
  }

  lemma EveryThreadCounted(m: map<nat, Status>)
    ensures m.Keys == With(m, Ready) + With(m, Busy) + (With(m, Held1) + With(m, Held2)) + (With(m, Doomed) + With(m, Dead))
  {
    forall t | t in m
      ensures t in With(m, Ready) + With(m, Busy) + (With(m, Held1) + With(m, Held2)) + (With(m, Doomed) + With(m, Dead))
    {
      ThreadCounted(m, t);
    }
  }

  lemma Partition(m: map<nat, Status>)
    ensures |m| == Count(m, Ready) + Count(m, Busy) + Count(m, Held1) + Count(m, Held2) + Count(m, Doomed) + Count(m, Dead)
  {
    EveryThreadCounted(m);
    DisjointSize(With(m, Ready), With(m, Busy));
    DisjointSize(With(m, Held1), With(m, Held2));
    DisjointSize(With(m, Doomed), With(m, Dead));
    DisjointSize(With(m, Ready) + With(m, Busy), With(m, Held1) + With(m, Held2));
    DisjointSize(With(m, Ready) + With(m, Busy) + (With(m, Held1) + With(m, Held2)), With(m, Doomed) + With(m, Dead));
  }

  lemma FreshInv(n: nat)
    ensures PoolInv(Fresh(n))
  {
  }

  lemma WorkerKeepsIds(s: Pool, a: Action)
    requires PoolInv(s) && Enabled(s, a) && (a.Pop? || a.Finish? || a.Leave? || a.Die?)
    ensures IdsInv(Step(s, a).s) && TakenInv(Step(s, a).s)
  {
    hide BooksInv, ControlInv, Top;
    var s' := Step(s, a).s;
    if a.Pop? && a.task.Suicide? {
      assert a.t !in s.taken;
    }
  }

  lemma WorkerKeepsBooks(s: Pool, a: Action)
    requires PoolInv(s) && Enabled(s, a) && (a.Pop? || a.Finish? || a.Leave? || a.Die?)
    ensures BooksInv(Step(s, a).s)
  {
    hide IdsInv, TakenInv, ControlInv, Count;
    CountsAfter(s.threads, a.t, Step(s, a).s.threads[a.t]);
    var s' := Step(s, a).s;
    assert Count(s'.threads, Doomed) + Count(s'.threads, Dead)
           == Count(s.threads, Doomed) + Count(s.threads, Dead) + if a.Pop? && a.task.Suicide? then 1 else 0;
  }

  lemma JoinKeeps(s: Pool)
    requires PoolInv(s) && s.control.Joining? && s.control.left > 0 && s.zombies != []
    ensures JoinStep(s, s.control.left).Ok? && PoolInv(JoinStep(s, s.control.left).s)
  {
    JoinKeepsIds(s);
    hide IdsInv, TakenInv, Count;
    CountRemoved(s.threads, s.zombies[0], Dead);
    CountRemoved(s.threads, s.zombies[0], Doomed);
  }

  lemma JoinKeepsIds(s: Pool)
    requires PoolInv(s) && s.control.Joining? && s.control.left > 0 && s.zombies != []
    ensures s.zombies[0] in s.threads && s.threads[s.zombies[0]].Dead?
    ensures JoinStep(s, s.control.left).Ok?
    ensures IdsInv(JoinStep(s, s.control.left).s) && TakenInv(JoinStep(s, s.control.left).s)
  {
    hide BooksInv;
    assert s.zombies[0] in s.zombies;
    var s' := JoinStep(s, s.control.left).s;
    assert forall t :: t in s'.zombies <==> t in s.zombies && t != s.zombies[0];
  }

  lemma SpawnKeeps(s: Pool)
    requires PoolInv(s) && s.control.Spawning? && s.control.left > 0
    ensures PoolInv(SpawnStep(s, s.control.left))
  {
    SpawnKeepsIds(s);
    hide IdsInv, TakenInv, Count;
    CountAdded(s.threads, s.nextId, Ready, Doomed);
    CountAdded(s.threads, s.nextId, Ready, Dead);
    assert SpawnStep(s, s.control.left).threads.Keys == s.threads.Keys + {s.nextId};
  }

  lemma SpawnKeepsIds(s: Pool)
    requires PoolInv(s) && s.control.Spawning? && s.control.left > 0
    ensures s.nextId !in s.threads
    ensures IdsInv(SpawnStep(s, s.control.left)) && TakenInv(SpawnStep(s, s.control.left))
  {
    hide BooksInv;
  }

  lemma CallControl(s: Pool, a: Action)
    requires ControlInv(s) && Enabled(s, a) && (a.Run? || a.Pause? || a.Resize? || a.Destroy? || a.Add?)
    ensures Step(s, a).Ok?
    ensures var s' := Step(s, a).s;
            && ControlInv(s') && s'.threads == s.threads && s'.threadMap == s.threadMap && s'.zombies == s.zombies
            && s'.nextId == s.nextId && s'.taken == s.taken && s'.queue[Suicide] == s.queue[Suicide]
            && Owed(s'.control) == Owed(s.control) && Size(s') + ToSpawn(s.control) == Size(s) + ToSpawn(s'.control)
  {
  }

  lemma CallKeeps(s: Pool, a: Action)
    requires PoolInv(s) && Enabled(s, a) && (a.Run? || a.Pause? || a.Resize? || a.Destroy? || a.Add?)
    ensures Step(s, a).Ok? && PoolInv(Step(s, a).s)
  {
    hide IdsInv, TakenInv, BooksInv, ControlInv, Step, Enabled;
    CallControl(s, a);
    SameIds(s, Step(s, a).s);
    SameThreads(s, Step(s, a).s);
  }

  // The books balance as long as a step that leaves the threads alone pushes what it says it owes.
  lemma SameThreads(s: Pool, s': Pool)
    requires BooksInv(s) && s'.threads == s.threads && s'.zombies == s.zombies
    requires s'.queue[Suicide] + Owed(s.control) == s.queue[Suicide] + Owed(s'.control)
    requires Size(s') + ToSpawn(s.control) == Size(s) + ToSpawn(s'.control)
    ensures BooksInv(s')
  {
  }

  lemma PausingKeeps(s: Pool)
    requires PoolInv(s) && s.control.Pausing?
    ensures PoolInv(PausingStep(s, s.control.left, s.control.spawn))
  {
    hide IdsInv, TakenInv, BooksInv, Count, Top, Distinct;
    var s' := PausingStep(s, s.control.left, s.control.spawn);
    SameIds(s, s');
    SameThreads(s, s');
  }

  lemma KillingKeeps(s: Pool)
    requires PoolInv(s) && s.control.Killing?
    ensures PoolInv(KillingStep(s, s.control.left, s.control.kill))
  {
    hide IdsInv, TakenInv, BooksInv, Count, Top, Distinct;
    var s' := KillingStep(s, s.control.left, s.control.kill);
    SameIds(s, s');
    SameThreads(s, s');
  }

  lemma ShiftingControl(s: Pool)
    requires ControlInv(s) && s.control.Shifting?
    ensures var s' := ShiftingStep(s, s.control.left, s.control.kill, s.control.second);
            && ControlInv(s') && s'.threads == s.threads && s'.threadMap == s.threadMap && s'.zombies == s.zombies
            && s'.nextId == s.nextId && s'.taken == s.taken && s'.queue[Suicide] == s.queue[Suicide]
            && Owed(s'.control) == Owed(s.control) && Size(s') == Size(s) && ToSpawn(s'.control) == ToSpawn(s.control)
  {
  }

  lemma ShiftingKeeps(s: Pool)
    requires PoolInv(s) && s.control.Shifting?
    ensures PoolInv(ShiftingStep(s, s.control.left, s.control.kill, s.control.second))
  {
    hide IdsInv, TakenInv, BooksInv, ControlInv, ShiftingStep;
    var s' := ShiftingStep(s, s.control.left, s.control.kill, s.control.second);
    ShiftingControl(s);
    SameIds(s, s');
    SameThreads(s, s');
  }

  lemma ReturnKeeps(s: Pool)
    requires PoolInv(s) && (s.control.Spawning? || s.control.Joining?) && s.control.left == 0
    ensures PoolInv(Return(s))
  {
    hide IdsInv, TakenInv, BooksInv, Count, Top, Distinct;
    SameIds(s, Return(s));
    SameThreads(s, Return(s));
  }

  // Nothing ever breaks the books, whatever is called in whatever state.
  lemma StepKeeps(s: Pool, a: Action)
    requires PoolInv(s) && Enabled(s, a)
    ensures Step(s, a).Ok? && PoolInv(Step(s, a).s)
  {
    hide IdsInv, TakenInv, BooksInv, ControlInv, PausingStep, SpawnStep, KillingStep, ShiftingStep, JoinStep, Return, SetNumOfThreads;
    match a {
      case Continue =>
        match s.control {
          case Pausing(_, _) => PausingKeeps(s);
          case Spawning(left) => if left > 0 { SpawnKeeps(s); } else { ReturnKeeps(s); }
          case Killing(_, _) => KillingKeeps(s);
          case Shifting(_, _, _) => ShiftingKeeps(s);
          case Joining(left) => if left > 0 { JoinKeeps(s); } else { ReturnKeeps(s); }
        }
      case Pop(_, _) => WorkerKeeps(s, a);
      case Finish(_) => WorkerKeeps(s, a);
      case Leave(_) => WorkerKeeps(s, a);
      case Die(_) => WorkerKeeps(s, a);
      case _ => CallKeeps(s, a);
    }
  }

  lemma WorkerKeeps(s: Pool, a: Action)
    requires PoolInv(s) && Enabled(s, a) && (a.Pop? || a.Finish? || a.Leave? || a.Die?)
    ensures PoolInv(Step(s, a).s)
  {
    hide IdsInv, TakenInv, BooksInv;
    WorkerKeepsIds(s, a);
    WorkerKeepsBooks(s, a);
  }

  lemma SameIds(s: Pool, s': Pool)
    requires IdsInv(s) && TakenInv(s)
    requires s'.threads == s.threads && s'.threadMap == s.threadMap && s'.zombies == s.zombies && s'.nextId == s.nextId && s'.taken == s.taken
    ensures IdsInv(s') && TakenInv(s')
  {
  }

  // ---------- pausing ----------

  // Not yet pushed by a Pause that is under way.
  function ToPush(control: Control): nat {
    if control.Pausing? then control.left else 0
  }

  predicate Leaving(s: Pool) {
    s.closing && (s.control.Shifting? || s.control.Joining? || s.control.Gone?)
  }

  // While the first flag is down there is a pause task for every thread that is not in one.
  ghost predicate PauseInv(s: Pool) {
    && (Leaving(s) || (s.running1 ==> s.running2))
    && (s.control.Shifting? ==> s.closing && s.control.left == 0 && s.control.second)
    && (s.control.Killing? && !s.running1 ==> s.closing)
    && (s.control.Joining? ==> s.running1)
    && s.queue[Pause2] == 0 && Count(s.threads, Held2) == 0
    && (!s.running1 ==> s.queue[Pause1] + ToPush(s.control) >= Count(s.threads, Ready) + Count(s.threads, Busy) + ToSpawn(s.control))
  }

  // Everything but SetNumOfThreads, on a paused pool, with a size that is not larger.
  predicate Tame(s: Pool, a: Action) {
    a.Resize? ==> a.n > s.num || s.running1
  }

  lemma FreshPaused(n: nat)
    ensures PauseInv(Fresh(n))
  {
  }

  lemma WorkerKeepsPause(s: Pool, a: Action)
    requires PoolInv(s) && PauseInv(s) && Enabled(s, a) && (a.Pop? || a.Finish? || a.Leave? || a.Die?)
    ensures PauseInv(Step(s, a).s)
  {
    hide PoolInv, Count;
    CountsAfter(s.threads, a.t, Step(s, a).s.threads[a.t]);
    var s' := Step(s, a).s;
    assert Count(s'.threads, Ready) + Count(s'.threads, Busy)
           == Count(s.threads, Ready) + Count(s.threads, Busy)
              - (if a.Pop? && !a.task.User? then 1 else 0) + (if a.Leave? then 1 else 0);
    assert a.Pop? ==> a.task != Pause2;
    if a.Pop? && a.task.User? && !s.running1 {
      assert Rank(Pause1) > Rank(a.task);
    }
  }

  lemma ContinueKeepsPause(s: Pool)
    requires PoolInv(s) && PauseInv(s) && Enabled(s, Continue)
    ensures PauseInv(Step(s, Continue).s)
  {
    if s.control.Joining? && s.control.left > 0 {
      JoinKeepsPause(s);
    } else if s.control.Spawning? && s.control.left > 0 {
      SpawnKeepsPause(s);
    } else {
      hide IdsInv, TakenInv, BooksInv, Count;
    }
  }

  lemma JoinKeepsPause(s: Pool)
    requires PoolInv(s) && PauseInv(s) && s.control.Joining? && s.control.left > 0 && s.zombies != []
    ensures PauseInv(Step(s, Continue).s)
  {
    hide TakenInv, BooksInv, Count;
    JoinKeepsIds(s);
    CountRemoved(s.threads, s.zombies[0], Held2);
  }

  lemma SpawnKeepsPause(s: Pool)
    requires PoolInv(s) && PauseInv(s) && s.control.Spawning? && s.control.left > 0
    ensures PauseInv(Step(s, Continue).s)
  {
    SpawnKeepsIds(s);
    hide IdsInv, TakenInv, BooksInv, ControlInv, Count;
    CountAdded(s.threads, s.nextId, Ready, Held2);
    CountAdded(s.threads, s.nextId, Ready, Ready);
    CountAdded(s.threads, s.nextId, Ready, Busy);
  }

  lemma PauseStepKeeps(s: Pool, a: Action)
    requires PoolInv(s) && PauseInv(s) && Enabled(s, a) && Tame(s, a)
    ensures PauseInv(Step(s, a).s)
  {
    if a.Pop? || a.Finish? || a.Leave? || a.Die? {
      WorkerKeepsPause(s, a);
    } else if a.Continue? {
      ContinueKeepsPause(s);
    } else {
      hide IdsInv, TakenInv, Count;
      Partition(s.threads);
    }
  }
}
