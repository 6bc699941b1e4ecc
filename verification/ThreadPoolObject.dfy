// The pool as an object: the code of the controlling thread, with the workers free to move between any two of its
// critical sections. Every call is shown to be a path of the transition system, and to return whatever the workers do.
module ThreadPoolObject {
  import opened Counting
  import opened ThreadPool
  import opened ThreadPoolInvariant
  import opened ThreadPoolTheorems
  import opened ThreadPoolProgress
  import opened ThreadPoolReturns

  ghost predicate Reaches(s: Pool, s': Pool) {
    exists states: seq<Pool>, acts: seq<Action> :: IsPath(states, acts) && states[0] == s && states[|acts|] == s'
  }

  lemma Stays(s: Pool)
    ensures Reaches(s, s)
  {
    assert IsPath([s], []);
  }

  // The books balance, and a call under way finds the threads it waits for.
  ghost predicate Good(s: Pool) {
    PoolInv(s) && Clear(s)
  }

  // One more step of a path.
  lemma Steps(start: Pool, s: Pool, a: Action)
    requires Reaches(start, s) && Good(s) && Enabled(s, a) && (IsWorker(a) || a.Continue?)
    ensures Step(s, a).Ok? && Good(Step(s, a).s) && Reaches(start, Step(s, a).s)
  {
    hide PoolInv, Clear, Step, Enabled;
    StepKeeps(s, a);
    ClearStep(s, a);
    var states: seq<Pool>, acts: seq<Action> :| IsPath(states, acts) && states[0] == start && states[|acts|] == s;
    assert IsPath(states + [Step(s, a).s], acts + [a]);
  }

  // Pausing is kept on the way, too.
  lemma {:induction false} PathKeepsPause(states: seq<Pool>, acts: seq<Action>, j: nat)
    requires IsPath(states, acts) && PoolInv(states[0]) && PauseInv(states[0]) && j <= |acts|
    ensures PoolInv(states[j]) && PauseInv(states[j])
    decreases j
  {
    hide PoolInv, PauseInv, Step, Enabled;
    if j > 0 {
      PathKeepsPause(states, acts, j - 1);
      assert Tame(states[j - 1], acts[j - 1]);
      StepKeeps(states[j - 1], acts[j - 1]);
      PauseStepKeeps(states[j - 1], acts[j - 1]);
    }
  }

  lemma CallKeepsPause(s: Pool, call: Action, s': Pool)
    requires PoolInv(s) && Enabled(s, call) && Step(s, call).Ok? && Reaches(Step(s, call).s, s')
    ensures PauseInv(s) && Tame(s, call) ==> PauseInv(s')
  {
    hide PoolInv, PauseInv, Step, Enabled, Tame;
    if PauseInv(s) && Tame(s, call) {
      StepKeeps(s, call);
      PauseStepKeeps(s, call);
      var states: seq<Pool>, acts: seq<Action> :| IsPath(states, acts) && states[0] == Step(s, call).s && states[|acts|] == s';
      PathKeepsPause(states, acts, |acts|);
    }
  }

  // What the workers leave alone.
  predicate SameCall(s: Pool, s': Pool) {
    && s'.control == s.control && s'.num == s.num && s'.target == s.target && s'.running1 == s.running1 && s'.running2 == s.running2
    && s'.closing == s.closing && s'.threadMap == s.threadMap && s'.nextId == s.nextId
  }

  // The first flag's pause tasks, queued or in a thread.
  function Pauses(s: Pool): nat {
    s.queue[Pause1] + Count(s.threads, Held1)
  }

  // While the flag is down no worker gets rid of one.
  lemma WorkerKeepsPauses(s: Pool, a: Action)
    requires Enabled(s, a) && IsWorker(a) && !s.running1
    ensures Step(s, a).Ok? && Pauses(Step(s, a).s) == Pauses(s)
  {
    hide Count, Top;
    CountAfter(s.threads, a.t, Step(s, a).s.threads[a.t], Held1);
    if a.Pop? {
      SuicidesFirst(s, a);
    }
  }

  // A pool whose flag is down and that is not shrinking: pausing, growing, or between calls.
  predicate Paused(s: Pool) {
    !s.running1 && (s.control.Pausing? || s.control.Spawning? || s.control.Free?)
  }

  lemma StepPushes(s: Pool, a: Action)
    requires PoolInv(s) && Paused(s) && Enabled(s, a) && Goes(a)
    ensures Step(s, a).Ok? && Paused(Step(s, a).s) && Pauses(Step(s, a).s) + ToPush(Step(s, a).s.control) == Pauses(s) + ToPush(s.control)
    ensures Step(s, a).s.running2 == s.running2
  {
    if IsWorker(a) {
      hide PoolInv, Pauses;
      WorkerKeepsPauses(s, a);
      WorkerKeepsCall(s, a);
    } else if a.Continue? && s.control.Spawning? && s.control.left > 0 {
      SpawnKeepsIds(s);
      hide PoolInv, Count;
      CountAdded(s.threads, s.nextId, Ready, Held1);
    } else {
      assert !s.closing;
      hide PoolInv, Count;
    }
  }

  lemma {:induction false} PathPushes(states: seq<Pool>, acts: seq<Action>, j: nat)
    requires IsPath(states, acts) && PoolInv(states[0]) && Paused(states[0]) && j <= |acts|
    ensures PoolInv(states[j]) && Paused(states[j]) && states[j].running2 == states[0].running2
    ensures Pauses(states[j]) + ToPush(states[j].control) == Pauses(states[0]) + ToPush(states[0].control)
    decreases j
  {
    hide PoolInv, Paused, Pauses, Step, Enabled;
    if j > 0 {
      PathPushes(states, acts, j - 1);
      StepKeeps(states[j - 1], acts[j - 1]);
      StepPushes(states[j - 1], acts[j - 1]);
    }
  }

  // So a call that pauses pushes exactly as many pause tasks as it set out to.
  lemma PushedExactly(start: Pool, s: Pool)
    requires Reaches(start, s) && PoolInv(start) && Paused(start) && s.control.Free?
    ensures !s.running1 && s.running2 == start.running2 && Pauses(s) == Pauses(start) + ToPush(start.control)
  {
    hide PoolInv, Pauses, Step, Enabled;
    var states: seq<Pool>, acts: seq<Action> :| IsPath(states, acts) && states[0] == start && states[|acts|] == s;
    PathPushes(states, acts, |acts|);
  }

  lemma RestingBooks(s: Pool)
    requires PoolInv(s) && (s.control.Free? || s.control.Gone?)
    ensures |s.threadMap| == |s.threads| == s.target && Distinct(s.taken) && s.target + |s.taken| == s.nextId
  {
    RestingThreads(s);
    AliveAndTaken(s);
    assert |s.threads.Keys| == |s.threads|;
  }

  // ---------- the critical sections, as states ----------

  lemma PopSteps(start: Pool, s: Pool, t: nat, task: Task)
    requires Reaches(start, s) && Good(s) && t in s.threads && s.threads[t].Ready? && Top(s.queue, task)
    ensures var s' := s.(queue := s.queue - multiset{task}, threads := s.threads[t := Taken(task)],
                         taken := if task.Suicide? then s.taken + [t] else s.taken,
                         started := if task.User? then s.started + 1 else s.started);
            Good(s') && Reaches(start, s') && SameCall(s, s') && Work(s') < Work(s)
  {
    hide Good, Reaches, Work, Top;
    Steps(start, s, Pop(t, task));
    WorkerUsesWork(s, Pop(t, task));
  }

  lemma PauseSteps(start: Pool, s: Pool, left: nat, spawn: nat)
    requires Reaches(start, s) && Good(s) && s.control == Pausing(left, spawn) && left > 0
    ensures var s' := s.(queue := s.queue + multiset{Pause1}, control := Pausing(left - 1, spawn)); Good(s') && Reaches(start, s')
  {
    hide Good, Reaches;
    Steps(start, s, Continue);
  }

  lemma SpawnSteps(start: Pool, s: Pool, left: nat)
    requires Reaches(start, s) && Good(s) && s.control == Spawning(left) && left > 0
    ensures var s' := s.(threads := s.threads[s.nextId := Ready], threadMap := s.threadMap + {s.nextId}, nextId := s.nextId + 1,
                         control := Spawning(left - 1));
            Good(s') && Reaches(start, s')
  {
    hide Good, Reaches;
    Steps(start, s, Continue);
  }

  lemma KillSteps(start: Pool, s: Pool, left: nat, kill: nat)
    requires Reaches(start, s) && Good(s) && s.control == Killing(left, kill) && left > 0
    ensures var s' := s.(queue := s.queue + multiset{Suicide}, control := Killing(left - 1, kill)); Good(s') && Reaches(start, s')
  {
    hide Good, Reaches;
    Steps(start, s, Continue);
  }

  lemma ShiftSteps(start: Pool, s: Pool, left: nat, kill: nat, second: bool)
    requires Reaches(start, s) && Good(s) && s.control == Shifting(left, kill, second) && left > 0
    ensures var s' := s.(queue := s.queue + multiset{if second then Pause2 else Pause1}, control := Shifting(left - 1, kill, second));
            Good(s') && Reaches(start, s')
  {
    hide Good, Reaches;
    Steps(start, s, Continue);
  }

  lemma JoinSteps(start: Pool, s: Pool, left: nat)
    requires Reaches(start, s) && Good(s) && s.control == Joining(left) && left > 0 && s.zombies != []
    ensures var id := s.zombies[0];
            var s' := s.(threads := s.threads - {id}, threadMap := s.threadMap - {id}, zombies := s.zombies[1..], control := Joining(left - 1));
            id in s.threadMap && Good(s') && Reaches(start, s')
  {
    hide Good, Reaches;
    Steps(start, s, Continue);
  }

  // The priority queue picks one of the tasks of the highest rank.
  method Front(queue: multiset<Task>) returns (task: Task)
    requires queue != multiset{}
    ensures Top(queue, task)
  {
    ghost var top := TopTask(queue);
    TopIsQueued(queue, top);
    task :| task in queue && Top(queue, task);
  }

  class PoolObject {
    var queue: multiset<Task>
    var threads: map<nat, Status>
    var threadMap: set<nat>
    var zombies: seq<nat>
    var running1: bool
    var running2: bool
    var num: nat
    var target: nat
    var closing: bool
    var nextId: nat
    ghost var control: Control
    ghost var taken: seq<nat>
    ghost var started: nat

    ghost function View(): Pool
      reads this
    {
      Pool(queue, threads, threadMap, zombies, running1, running2, num, target, closing, control, nextId, taken, started)
    }

    // ---------- the workers ----------

    method Move(t: nat, ghost start: Pool)
      requires Good(View()) && Reaches(start, View()) && CanMove(t)
      modifies this
      ensures Good(View()) && Reaches(start, View()) && SameCall(old(View()), View()) && Work(View()) < Work(old(View()))
    {
      hide Good, Reaches, Work;
      ghost var before := View();
      if threads[t].Ready? {
        PopTask(t, start);
      } else if threads[t].Busy? {
        Steps(start, before, Finish(t));
        WorkerUsesWork(before, Finish(t));
        threads := threads[t := Ready];
      } else if threads[t].Doomed? {
        Steps(start, before, Die(t));
        WorkerUsesWork(before, Die(t));
        threads := threads[t := Dead];
        zombies := zombies + [t];
      } else {
        Steps(start, before, Leave(t));
        WorkerUsesWork(before, Leave(t));
        threads := threads[t := Ready];
      }
    }

    method PopTask(t: nat, ghost start: Pool)
      requires Good(View()) && Reaches(start, View()) && t in threads && threads[t].Ready? && queue != multiset{}
      modifies this
      ensures Good(View()) && Reaches(start, View()) && SameCall(old(View()), View()) && Work(View()) < Work(old(View()))
    {
      hide Good, Reaches, Work, Top;
      var task := Front(queue);
      PopSteps(start, View(), t, task);
      Take(t, task);
      Log(t, task);
    }

    method Take(t: nat, task: Task)
      modifies this
      ensures View() == old(View()).(queue := old(queue) - multiset{task}, threads := old(threads)[t := Taken(task)])
    {
      hide Taken;
      queue := queue - multiset{task};
      threads := threads[t := Taken(task)];
    }

    ghost method Log(t: nat, task: Task)
      modifies this`taken, this`started
      ensures View() == old(View()).(taken := if task.Suicide? then old(taken) + [t] else old(taken),
                                     started := if task.User? then old(started) + 1 else old(started))
    {
      taken := if task.Suicide? then taken + [t] else taken;
      started := if task.User? then started + 1 else started;
    }

    // Can worker t take a step?
    predicate CanMove(t: nat)
      reads this
    {
      t in threads
      && match threads[t]
         case Ready => queue != multiset{}
         case Busy => true
         case Held1 => running1
         case Held2 => running2
         case Doomed => true
         case Dead => false
    }

    // Any workers take any number of steps.
    method OthersMove(ghost start: Pool)
      requires Good(View()) && Reaches(start, View())
      modifies this
      ensures Good(View()) && Reaches(start, View()) && SameCall(old(View()), View())
    {
      hide Good, Reaches, Work;
      while *
        invariant Good(View()) && Reaches(start, View()) && SameCall(old(View()), View())
        decreases Work(View())
      {
        var t: nat := *;
        if !CanMove(t) { break; }
        Move(t, start);
      }
    }

    // Pop on the zombie queue: the workers move until there is one.
    method AwaitZombie(ghost start: Pool)
      requires Good(View()) && Reaches(start, View()) && control.Joining? && control.left > 0
      modifies this
      ensures Good(View()) && Reaches(start, View()) && SameCall(old(View()), View()) && zombies != []
    {
      hide Reaches, Work, PoolInv;
      while zombies == []
        invariant Good(View()) && Reaches(start, View()) && SameCall(old(View()), View())
        decreases Work(View())
      {
        ghost var a := JoinIsNeverStuck(View());
        assert CanMove(a.t);
        var t :| t in threads && CanMove(t);
        Move(t, start);
      }
    }

    // ---------- the controlling thread ----------

    method Run()
      requires Good(View()) && control.Free?
      modifies this
      ensures Good(View()) && Step(old(View()), Action.Run) == Ok(View())
      ensures running1 && running2 && queue == old(queue) && threads == old(threads) && threadMap == old(threadMap) && zombies == old(zombies)
      ensures num == old(num) && target == old(target)
      ensures old(PauseInv(View())) ==> PauseInv(View())
    {
      hide PoolInv, PauseInv;
      StepKeeps(View(), Action.Run);
      if PauseInv(View()) {
        PauseStepKeeps(View(), Action.Run);
      }
      running1 := true;
      running2 := true;
    }

    method AddTask(priority: Priority, id: nat)
      requires Good(View())
      modifies this
      ensures Good(View()) && Step(old(View()), Add(priority, id)) == Ok(View())
      ensures queue == old(queue) + multiset{User(priority, id)} && threads == old(threads) && running1 == old(running1) && running2 == old(running2)
      ensures old(PauseInv(View())) ==> PauseInv(View())
    {
      hide PoolInv, PauseInv, Clear;
      StepKeeps(View(), Add(priority, id));
      ClearStep(View(), Add(priority, id));
      if PauseInv(View()) {
        PauseStepKeeps(View(), Add(priority, id));
      }
      queue := queue + multiset{User(priority, id)};
    }

    method Push(task: Task, ghost next: Control)
      modifies this
      ensures View() == old(View()).(queue := old(queue) + multiset{task}, control := next)
    {
      queue := queue + multiset{task};
      control := next;
    }

    // Pause once the flag is down: a task for every thread, or for every thread that is about to be created.
    method PushPauses(ghost start: Pool, ghost spawn: nat)
      requires Good(View()) && Reaches(start, View()) && control == Pausing(PauseCount(View()), spawn)
      modifies this
      ensures Good(View()) && Reaches(start, View())
      ensures SameCall(old(View()).(control := Pausing(0, spawn)), View())
    {
      hide Good, Reaches;
      var i := if num < target then num else 0;
      OthersMove(start);
      while i < target
        invariant i <= target && control == Pausing(target - i, spawn)
        invariant Good(View()) && Reaches(start, View())
        invariant SameCall(old(View()).(control := Pausing(target - i, spawn)), View())
      {
        PauseSteps(start, View(), target - i, spawn);
        Push(Pause1, Pausing(target - i - 1, spawn));
        i := i + 1;
        OthersMove(start);
      }
    }

    method Pause()
      requires Good(View()) && control.Free?
      modifies this
      ensures Good(View()) && Reaches(Step(old(View()), Action.Pause).s, View())
      ensures control.Free? && !running1 && running2 == old(running2) && num == old(num) == |threadMap|
      ensures Pauses(View()) == old(Pauses(View())) + num
      ensures old(PauseInv(View())) ==> PauseInv(View())
    {
      hide PoolInv, PauseInv, Reaches, Count;
      StepKeeps(View(), Action.Pause);
      RestingNum(View());
      running1 := false;
      control := Pausing(PauseCount(View()), 0);
      ghost var start := View();
      Stays(start);
      PushPauses(start, 0);
      Steps(start, View(), Continue);
      control := Free;
      RestingBooks(View());
      RestingNum(View());
      CallKeepsPause(old(View()), Action.Pause, View());
      PushedExactly(start, View());
    }

    method Spawn(ghost next: Control)
      modifies this
      ensures View() == old(View()).(threads := old(threads)[old(nextId) := Ready], threadMap := old(threadMap) + {old(nextId)},
                                     nextId := old(nextId) + 1, control := next)
    {
      threads := threads[nextId := Ready];
      threadMap := threadMap + {nextId};
      nextId := nextId + 1;
      control := next;
    }

    method CreateThreads(ghost start: Pool, current: nat, wanted: nat)
      requires current <= wanted
      requires Good(View()) && Reaches(start, View()) && control == Spawning(wanted - current)
      modifies this
      ensures Good(View()) && Reaches(start, View()) && control == Spawning(0)
      ensures num == old(num) && target == old(target) && closing == old(closing) && running1 == old(running1) && running2 == old(running2)
    {
      hide Good, Reaches;
      var i := current;
      OthersMove(start);
      while i < wanted
        invariant current <= i <= wanted && control == Spawning(wanted - i)
        invariant Good(View()) && Reaches(start, View())
        invariant num == old(num) && target == old(target) && closing == old(closing) && running1 == old(running1) && running2 == old(running2)
      {
        SpawnSteps(start, View(), wanted - i);
        Spawn(Spawning(wanted - i - 1));
        i := i + 1;
        OthersMove(start);
      }
    }

    // The last statements of a call.
    method EndOfCall(ghost start: Pool)
      requires Good(View()) && Reaches(start, View()) && (control == Spawning(0) || control == Joining(0))
      modifies this
      ensures Good(View()) && Reaches(start, View()) && num == target == old(target) && control == if closing then Gone else Free
      ensures running1 == old(running1) && running2 == old(running2) && nextId == old(nextId) && closing == old(closing)
      ensures |threadMap| == |threads| == num && Distinct(taken) && num + |taken| == nextId
    {
      hide PoolInv, Reaches;
      Steps(start, View(), Continue);
      num := target;
      control := if closing then Gone else Free;
      RestingBooks(View());
    }

    constructor (n: nat)
      ensures Good(View()) && PauseInv(View()) && Reaches(Fresh(n), View())
      ensures control.Free? && !running1 && num == n == |threadMap| && Pauses(View()) == n
    {
      queue, threads, threadMap, zombies := multiset{}, map[], {}, [];
      running1, running2, closing := false, false, false;
      num, target, nextId := n, n, 0;
      control, taken, started := Pausing(n, n), [], 0;
      new;
      hide PoolInv, PauseInv, Reaches;
      FreshInv(n);
      Stays(Fresh(n));
      PushPauses(Fresh(n), n);
      Steps(Fresh(n), View(), Continue);
      if n > 0 {
        control := Spawning(n);
        CreateThreads(Fresh(n), 0, n);
        EndOfCall(Fresh(n));
      } else {
        control := Free;
        RestingBooks(View());
      }
      FreshReaches(n, View());
      FreshHasNone(n);
      PushedExactly(Fresh(n), View());
    }

    method IncreaseNumOfThreads(ghost start: Pool)
      requires Good(View()) && Reaches(start, View()) && num < target
      requires control == if !running1 then Pausing(PauseCount(View()), target - num) else Spawning(target - num)
      modifies this
      ensures Good(View()) && Reaches(start, View()) && control == Spawning(0)
      ensures num == old(num) && target == old(target) && closing == old(closing) && running1 == old(running1) && running2 == old(running2)
    {
      hide Good, Reaches;
      if !running1 {
        PushPauses(start, target - num);
        Steps(start, View(), Continue);
        control := Spawning(target - num);
      }
      CreateThreads(start, num, target);
    }

    method PushSuicides(ghost start: Pool, kill: nat)
      requires Good(View()) && Reaches(start, View()) && control == Killing(kill, kill)
      modifies this
      ensures Good(View()) && Reaches(start, View())
      ensures SameCall(old(View()).(control := Killing(0, kill)), View())
    {
      hide Good, Reaches;
      var i := 0;
      OthersMove(start);
      while i < kill
        invariant 0 <= i <= kill && Good(View()) && Reaches(start, View())
        invariant SameCall(old(View()).(control := Killing(kill - i, kill)), View())
      {
        KillSteps(start, View(), kill - i, kill);
        Push(Suicide, Killing(kill - i - 1, kill));
        i := i + 1;
        OthersMove(start);
      }
    }

    // Pause tasks for the flag that is to stay down, counted from thread_to_kill.
    method PushOtherPauses(ghost start: Pool, kill: nat, second: bool)
      requires Good(View()) && Reaches(start, View()) && control == Shifting(Monus(target, kill), kill, second)
      modifies this
      ensures Good(View()) && Reaches(start, View())
      ensures SameCall(old(View()).(control := Shifting(0, kill, second)), View())
    {
      hide Good, Reaches;
      var i := kill;
      OthersMove(start);
      while i < target
        invariant kill <= i && Good(View()) && Reaches(start, View())
        invariant SameCall(old(View()).(control := Shifting(Monus(target, i), kill, second)), View())
      {
        ShiftSteps(start, View(), Monus(target, i), kill, second);
        Push(if second then Pause2 else Pause1, Shifting(Monus(target, i) - 1, kill, second));
        i := i + 1;
        OthersMove(start);
      }
    }

    // Up to the joins: the suicide tasks and, in a paused pool, the exchange of the flags.
    method SwapFlags(ghost start: Pool, kill: nat)
      requires Good(View()) && Reaches(start, View()) && control == Killing(0, kill)
      modifies this
      ensures Good(View()) && Reaches(start, View()) && control == Joining(kill)
      ensures num == old(num) && target == old(target) && nextId == old(nextId) && closing == old(closing)
      ensures running1 == (!old(running1) || old(running2)) && running2 == (old(running1))
    {
      hide Good, Reaches;
      Steps(start, View(), Continue);
      if !running1 {
        running2 := false;
        control := Shifting(Monus(target, kill), kill, true);
        PushOtherPauses(start, kill, true);
        Steps(start, View(), Continue);
        running1 := true;
      } else if !running2 {
        running1 := false;
        control := Shifting(Monus(target, kill), kill, false);
        PushOtherPauses(start, kill, false);
        Steps(start, View(), Continue);
        running2 := true;
      }
      control := Joining(kill);
    }

    // Pop, join and erase.
    method Join(ghost next: Control)
      requires zombies != []
      modifies this
      ensures var id := old(zombies)[0];
              View() == old(View()).(threads := old(threads) - {id}, threadMap := old(threadMap) - {id}, zombies := old(zombies)[1..],
                                     control := next)
    {
      var id := zombies[0];
      zombies := zombies[1..];
      threads := threads - {id};
      threadMap := threadMap - {id};
      control := next;
    }

    method JoinZombies(ghost start: Pool, kill: nat)
      requires Good(View()) && Reaches(start, View()) && control == Joining(kill)
      modifies this
      ensures Good(View()) && Reaches(start, View()) && control == Joining(0)
      ensures num == old(num) && target == old(target) && nextId == old(nextId) && closing == old(closing)
      ensures running1 == old(running1) && running2 == old(running2)
    {
      hide Good, Reaches;
      for i := 0 to kill
        invariant control == Joining(kill - i) && Good(View()) && Reaches(start, View())
        invariant num == old(num) && target == old(target) && nextId == old(nextId) && closing == old(closing)
        invariant running1 == old(running1) && running2 == old(running2)
      {
        AwaitZombie(start);
        JoinSteps(start, View(), kill - i);
        Join(Joining(kill - i - 1));
      }
    }

    // The first statement of a call.
    method Ask(n: nat, destroys: bool, ghost call: Action) returns (ghost start: Pool)
      requires Good(View()) && control.Free? && Heeded(View(), call) && call == (if destroys then Destroy else Resize(n)) && (destroys ==> n == 0)
      modifies this
      ensures Good(View()) && start == View() == Step(old(View()), call).s && Step(old(View()), call).Ok? && Reaches(start, View())
      ensures num == old(num) && nextId == old(nextId) == num + |old(taken)| && target == n && closing == destroys
      ensures running1 == old(running1) && running2 == old(running2)
      ensures Pauses(View()) == old(Pauses(View()))
      ensures control == if n <= num then Killing(num - n, num - n)
                         else if !running1 then Pausing(PauseCount(View()), n - num) else Spawning(n - num)
    {
      hide PoolInv, PauseInv, Reaches, Clear;
      RestingBooks(View());
      RestingNum(View());
      CallStarts(View(), call);
      start := Step(View(), call).s;
      Stays(start);
      closing := destroys;
      target := n;
      control := start.control;
    }

    // SetNumOfThreads; the destructor comes here with n = 0.
    method Resized(n: nat, destroys: bool, ghost call: Action)
      requires Good(View()) && control.Free? && Heeded(View(), call) && call == (if destroys then Destroy else Resize(n)) && (destroys ==> n == 0)
      modifies this
      ensures Good(View()) && Reaches(Step(old(View()), call).s, View())
      ensures num == n == |threadMap| && closing == destroys && control == if closing then Gone else Free
      ensures Distinct(taken) && (n <= old(num) ==> |taken| == |old(taken)| + (old(num) - n))
      ensures n > old(num) ==> running1 == old(running1) && running2 == old(running2)
      ensures n <= old(num) ==> running1 == (!old(running1) || old(running2)) && running2 == old(running1)
      ensures n > old(num) && !old(running1) ==> Pauses(View()) == old(Pauses(View())) + (n - old(num))
      ensures old(PauseInv(View())) && Tame(old(View()), call) ==> PauseInv(View())
    {
      hide PoolInv, Clear, PauseInv, Reaches, Heeded, Tame, Step, ThreadPool.SetNumOfThreads, Pauses;
      ghost var start := Ask(n, destroys, call);
      if target > num {
        IncreaseNumOfThreads(start);
      } else {
        var kill := num - target;
        PushSuicides(start, kill);
        SwapFlags(start, kill);
        JoinZombies(start, kill);
      }
      EndOfCall(start);
      CallKeepsPause(old(View()), call, View());
      if n > old(num) && !running1 {
        PushedExactly(start, View());
      }
    }

    // Returns, whatever the workers do meanwhile, with n threads; when the pool has shrunk, as many distinct threads as it
    // shrank by have taken a suicide task. It asks for exactly what the call needs to return.
    method SetNumOfThreads(n: nat)
      requires Good(View()) && control.Free? && Heeded(View(), Resize(n))
      modifies this
      ensures Good(View()) && Reaches(Step(old(View()), Resize(n)).s, View())
      ensures control.Free? && num == n == |threadMap|
      ensures Distinct(taken) && (n <= old(num) ==> |taken| == |old(taken)| + (old(num) - n))
      ensures n > old(num) ==> running1 == old(running1) && running2 == old(running2)
      ensures n <= old(num) ==> running1 == (!old(running1) || old(running2)) && running2 == old(running1)
      ensures n > old(num) && !old(running1) ==> Pauses(View()) == old(Pauses(View())) + (n - old(num))
      ensures old(PauseInv(View())) && Tame(old(View()), Resize(n)) ==> PauseInv(View())
    {
      hide Good, PauseInv, Reaches, Heeded, Tame, Step, Pauses;
      Resized(n, false, Resize(n));
    }

    method Destruct()
      requires Good(View()) && control.Free? && Heeded(View(), Destroy)
      modifies this
      ensures Good(View()) && Reaches(Step(old(View()), Destroy).s, View())
      ensures control.Gone? && |threadMap| == 0 && Distinct(taken) && |taken| == |old(taken)| + old(num)
    {
      hide Good, PauseInv, Reaches, Heeded, Tame, Step, Pauses;
      Resized(0, true, Destroy);
    }
  }

  lemma RestingNum(s: Pool)
    requires PoolInv(s) && s.control.Free?
    ensures s.num == s.target && !s.closing
  {
  }

  lemma FreshHasNone(n: nat)
    ensures Paused(Fresh(n)) && Pauses(Fresh(n)) == 0 && ToPush(Fresh(n).control) == n
  {
    assert With(Fresh(n).threads, Held1) == {};
  }

  lemma FreshReaches(n: nat, s: Pool)
    requires Reaches(Fresh(n), s)
    ensures PauseInv(s)
  {
    hide PoolInv, PauseInv;
    FreshInv(n);
    FreshPaused(n);
    var states: seq<Pool>, acts: seq<Action> :| IsPath(states, acts) && states[0] == Fresh(n) && states[|acts|] == s;
    PathKeepsPause(states, acts, |acts|);
  }
}
