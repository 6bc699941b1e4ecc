// The C++ thread pool: one controlling thread, its workers, and a priority queue in which pausing and shrinking are
// themselves tasks. Each action is one critical section of one thread.
module ThreadPool {
  datatype Task = Suicide | Pause1 | Pause2 | User(priority: Priority, id: nat)

  // ThreadPool::Priority, below the two internal ones.
  type Priority = p: nat | p < 5

  function Rank(t: Task): nat {
    match t
    case Suicide => 6
    case Pause1 => 5
    case Pause2 => 5
    case User(p, _) => p
  }

  // A worker is about to pop, runs a user task, is inside PauseTask1 or PauseTask2, has taken a suicide task, or has
  // pushed its id to the zombie queue and ended.
  datatype Status = Ready | Busy | Held1 | Held2 | Doomed | Dead

  // Where the controlling thread is. Pausing: in Pause with `left` tasks to push, and `spawn` threads to create after
  // it. Spawning: in CreateThreads. Killing: pushing suicide tasks, of which there are `kill` in all. Shifting: pushing
  // the other flag's pause tasks. Joining: popping and joining `left` more zombies. Gone: the destructor has returned.
  datatype Control =
    | Free
    | Pausing(left: nat, spawn: nat)
    | Spawning(left: nat)
    | Killing(left: nat, kill: nat)
    | Shifting(left: nat, kill: nat, second: bool)
    | Joining(left: nat)
    | Gone

  datatype Pool = Pool(
    queue: multiset<Task>,
    threads: map<nat, Status>,      // not yet joined
    threadMap: set<nat>,            // the keys of m_thread_map
    zombies: seq<nat>,              // m_zombie_queue
    running1: bool, running2: bool,
    num: nat, target: nat,
    closing: bool,                  // the destructor runs, or has run
    control: Control,
    nextId: nat,
    taken: seq<nat>,                // who has taken a suicide task, in order
    started: nat)                   // how many user tasks have been started

  datatype Action =
    // calls by the controlling thread, and its next step inside one
    | Run | Pause | Resize(n: nat) | Destroy | Add(priority: Priority, id: nat) | Continue
    // worker t
    | Pop(t: nat, task: Task) | Finish(t: nat) | Leave(t: nat) | Die(t: nat)

  // Broken: m_thread_map.at throws.
  datatype Outcome = Ok(s: Pool) | Broken

  // The constructor, about to call Pause.
  function Fresh(n: nat): Pool {
    Pool(multiset{}, map[], {}, [], false, false, n, n, false, Pausing(n, n), 0, [], 0)
  }

  function Monus(a: nat, b: nat): nat {
    if a > b then a - b else 0
  }

  predicate Top(queue: multiset<Task>, task: Task) {
    task in queue && forall other :: other in queue ==> Rank(other) <= Rank(task)
  }

  predicate Enabled(s: Pool, a: Action) {
    match a
    case Run => s.control.Free?
    case Pause => s.control.Free?
    case Resize(_) => s.control.Free?
    case Destroy => s.control.Free?
    case Add(_, _) => true
    case Continue => !s.control.Free? && !s.control.Gone? && (s.control.Joining? && s.control.left > 0 ==> s.zombies != [])
    case Pop(t, task) => t in s.threads && s.threads[t].Ready? && Top(s.queue, task)
    case Finish(t) => t in s.threads && s.threads[t].Busy?
    case Leave(t) => t in s.threads && ((s.threads[t].Held1? && s.running1) || (s.threads[t].Held2? && s.running2))
    case Die(t) => t in s.threads && s.threads[t].Doomed?
  }

  function Taken(task: Task): Status {
    match task
    case Suicide => Doomed
    case Pause1 => Held1
    case Pause2 => Held2
    case User(_, _) => Busy
  }

  function Step(s: Pool, a: Action): Outcome
    requires Enabled(s, a)
  {
    match a
    case Run => Ok(s.(running1 := true, running2 := true))
    case Pause => Ok(s.(running1 := false, control := Pausing(PauseCount(s), 0)))
    case Resize(n) => Ok(SetNumOfThreads(s, n))
    case Destroy => Ok(SetNumOfThreads(s.(closing := true), 0))
    case Add(p, id) => Ok(s.(queue := s.queue + multiset{User(p, id)}))
    case Continue => ContinueStep(s)
    case Pop(t, task) =>
      Ok(s.(queue := s.queue - multiset{task},
            threads := s.threads[t := Taken(task)],
            taken := if task.Suicide? then s.taken + [t] else s.taken,
            started := if task.User? then s.started + 1 else s.started))
    case Finish(t) => Ok(s.(threads := s.threads[t := Ready]))
    case Leave(t) => Ok(s.(threads := s.threads[t := Ready]))
    case Die(t) => Ok(s.(threads := s.threads[t := Dead], zombies := s.zombies + [t]))
  }

  // The pushes of Pause count from m_numOfThreads up when the pool is growing, and from 0 otherwise.
  function PauseCount(s: Pool): nat {
    if s.num < s.target then s.target - s.num else s.target
  }

  function SetNumOfThreads(s: Pool, n: nat): Pool {
    var s' := s.(target := n);
    if n > s.num then
      if !s.running1 then s'.(running1 := false, control := Pausing(PauseCount(s'), n - s.num))
      else s'.(control := Spawning(n - s.num))
    else s'.(control := Killing(s.num - n, s.num - n))
  }

  // The call returns, and m_numOfThreads becomes the target.
  function Return(s: Pool): Pool {
    s.(num := s.target, control := if s.closing then Gone else Free)
  }

  function ContinueStep(s: Pool): Outcome
    requires Enabled(s, Continue)
  {
    match s.control
    case Pausing(left, spawn) => Ok(PausingStep(s, left, spawn))
    case Spawning(left) => Ok(if left > 0 then SpawnStep(s, left) else Return(s))
    case Killing(left, kill) => Ok(KillingStep(s, left, kill))
    case Shifting(left, kill, second) => Ok(ShiftingStep(s, left, kill, second))
    case Joining(left) => if left == 0 then Ok(Return(s)) else JoinStep(s, left)
  }

  function PausingStep(s: Pool, left: nat, spawn: nat): Pool {
    if left > 0 then s.(queue := s.queue + multiset{Pause1}, control := Pausing(left - 1, spawn))
    else s.(control := if spawn > 0 then Spawning(spawn) else Free)
  }

  function SpawnStep(s: Pool, left: nat): Pool
    requires left > 0
  {
    s.(threads := s.threads[s.nextId := Ready], threadMap := s.threadMap + {s.nextId}, nextId := s.nextId + 1,
       control := Spawning(left - 1))
  }

  // Once the suicide tasks are pushed: if the pool is paused by one flag, put the other one down, push pause tasks for
  // it, and raise the first. The number of those tasks counts from thread_to_kill up to the target.
  function KillingStep(s: Pool, left: nat, kill: nat): Pool {
    if left > 0 then s.(queue := s.queue + multiset{Suicide}, control := Killing(left - 1, kill))
    else if !s.running1 then s.(running2 := false, control := Shifting(Monus(s.target, kill), kill, true))
    else if !s.running2 then s.(running1 := false, control := Shifting(Monus(s.target, kill), kill, false))
    else s.(control := Joining(kill))
  }

  function ShiftingStep(s: Pool, left: nat, kill: nat, second: bool): Pool {
    if left > 0 then
      s.(queue := s.queue + multiset{if second then Pause2 else Pause1}, control := Shifting(left - 1, kill, second))
    else if second then s.(running1 := true, control := Joining(kill))
    else s.(running2 := true, control := Joining(kill))
  }

  function JoinStep(s: Pool, left: nat): Outcome
    requires left > 0 && s.zombies != []
  {
    var id := s.zombies[0];
    if id !in s.threadMap then Broken
    else Ok(s.(threads := s.threads - {id}, threadMap := s.threadMap - {id}, zombies := s.zombies[1..], control := Joining(left - 1)))
  }

  predicate IsRun(n: nat, states: seq<Pool>, acts: seq<Action>) {
    && |states| == |acts| + 1 && states[0] == Fresh(n)
    && forall j :: 0 <= j < |acts| ==> Enabled(states[j], acts[j]) && Step(states[j], acts[j]) == Ok(states[j + 1])
  }

  predicate IsWorker(a: Action) {
    a.Pop? || a.Finish? || a.Leave? || a.Die?
  }

  // What happens without another call: the workers move, the call that is under way goes on, tasks are added.
  predicate Goes(a: Action) {
    IsWorker(a) || a.Continue? || a.Add?
  }

  predicate IsPath(states: seq<Pool>, acts: seq<Action>) {
    && |states| == |acts| + 1
    && forall j :: 0 <= j < |acts| ==> Goes(acts[j]) && Enabled(states[j], acts[j]) && Step(states[j], acts[j]) == Ok(states[j + 1])
  }

  lemma Standing(s: Pool)
    ensures IsPath([s], [])
  {
  }

  lemma Ahead(s: Pool, a: Action, states: seq<Pool>, acts: seq<Action>)
    requires Goes(a) && Enabled(s, a) && IsPath(states, acts) && Step(s, a) == Ok(states[0])
    ensures IsPath([s] + states, [a] + acts)
  {
    hide Step, Enabled;
    var states', acts' := [s] + states, [a] + acts;
    forall j | 0 <= j < |acts'|
      ensures Goes(acts'[j]) && Enabled(states'[j], acts'[j]) && Step(states'[j], acts'[j]) == Ok(states'[j + 1])
    {
      if j > 0 {
        assert states'[j] == states[j - 1] && acts'[j] == acts[j - 1] && states'[j + 1] == states[j];
      }
    }
  }

  lemma Joined(states: seq<Pool>, acts: seq<Action>, states': seq<Pool>, acts': seq<Action>)
    requires IsPath(states, acts) && IsPath(states', acts') && states[|acts|] == states'[0]
    ensures IsPath(states + states'[1..], acts + acts')
    ensures (states + states'[1..])[0] == states[0] && (states + states'[1..])[|acts + acts'|] == states'[|acts'|]
  {
    hide Step, Enabled;
    var all, done := states + states'[1..], acts + acts';
    forall j | 0 <= j < |done| ensures Goes(done[j]) && Enabled(all[j], done[j]) && Step(all[j], done[j]) == Ok(all[j + 1]) {
      if j < |acts| {
        assert all[j] == states[j] && all[j + 1] == states[j + 1] && done[j] == acts[j];
      } else {
        assert all[j] == states'[j - |acts|] && all[j + 1] == states'[j - |acts| + 1] && done[j] == acts'[j - |acts|];
      }
    }
  }
}
