// WaitableQueue with its default container, shared by any number of pushing and popping threads. Push notifies after it
// has released the mutex, so a push and its notification are two actions.
module WaitableQueue {
  import opened Counting

  // Outside; in Pop and about to look (on entry, notified, or woken for no reason); in Pop and waiting; in Push,
  // past the mutex, with the notification still to come.
  datatype Status = Outside | Looking | Waiting | Notifying

  datatype State = State(
    queue: seq<int>,
    threads: map<nat, Status>,
    pushed: seq<int>, popped: seq<int>)     // everything so far, in order

  datatype Action =
    | Push(t: nat, data: int)
    | Notify(t: nat, woken: nat)            // notify_one wakes this thread, if any waits
    | Enter(t: nat)                         // Pop is called
    | Look(t: nat)                          // under the mutex: take the front, or wait
    | Spurious(t: nat)

  predicate Is(s: State, t: nat, status: Status) {
    t in s.threads && s.threads[t] == status
  }

  predicate Enabled(s: State, a: Action) {
    match a
    case Push(t, _) => Is(s, t, Outside)
    case Notify(t, woken) => Is(s, t, Notifying) && (Count(s.threads, Waiting) > 0 ==> Is(s, woken, Waiting))
    case Enter(t) => Is(s, t, Outside)
    case Look(t) => Is(s, t, Looking)
    case Spurious(t) => Is(s, t, Waiting)
  }

  function Step(s: State, a: Action): State
    requires Enabled(s, a)
  {
    match a
    case Push(t, data) => s.(queue := s.queue + [data], pushed := s.pushed + [data], threads := s.threads[t := Notifying])
    case Notify(t, woken) =>
      var threads := s.threads[t := Outside];
      s.(threads := if Count(s.threads, Waiting) > 0 then threads[woken := Looking] else threads)
    case Enter(t) => s.(threads := s.threads[t := Looking])
    case Look(t) =>
      if s.queue == [] then s.(threads := s.threads[t := Waiting])
      else s.(queue := s.queue[1..], popped := s.popped + [s.queue[0]], threads := s.threads[t := Outside])
    case Spurious(t) => s.(threads := s.threads[t := Looking])
  }

  // Any number of threads, all outside, around an empty queue.
  predicate Init(s: State) {
    s.queue == [] && s.pushed == [] && s.popped == [] && forall t :: t in s.threads ==> s.threads[t].Outside?
  }

  predicate IsRun(states: seq<State>, acts: seq<Action>) {
    && |states| == |acts| + 1 && Init(states[0])
    && forall j :: 0 <= j < |acts| ==> Enabled(states[j], acts[j]) && Step(states[j], acts[j]) == states[j + 1]
  }

  predicate Inv(s: State) {
    && s.popped + s.queue == s.pushed
    && (Count(s.threads, Waiting) > 0 ==> |s.queue| <= Count(s.threads, Looking) + Count(s.threads, Notifying))
  }

  lemma NotifyKeeps(s: State, t: nat, woken: nat)
    requires Inv(s) && Enabled(s, Notify(t, woken))
    ensures Inv(Step(s, Notify(t, woken)))
  {
    hide Count;
    CountsAfter(s.threads, t, Outside);
    if Count(s.threads, Waiting) > 0 {
      CountsAfter(s.threads[t := Outside], woken, Looking);
    }
  }

  lemma StepKeeps(s: State, a: Action)
    requires Inv(s) && Enabled(s, a)
    ensures Inv(Step(s, a))
  {
    hide Count;
    match a {
      case Push(t, data) =>
        CountsAfter(s.threads, t, Notifying);
        assert s.popped + (s.queue + [data]) == s.popped + s.queue + [data];
      case Notify(t, woken) => NotifyKeeps(s, t, woken);
      case Enter(t) => CountsAfter(s.threads, t, Looking);
      case Look(t) =>
        CountsAfter(s.threads, t, Step(s, a).threads[t]);
        assert s.queue != [] ==> s.popped + [s.queue[0]] + s.queue[1..] == s.popped + s.queue;
      case Spurious(t) => CountsAfter(s.threads, t, Looking);
    }
  }

  lemma {:induction false} RunInv(states: seq<State>, acts: seq<Action>, j: nat)
    requires IsRun(states, acts) && j <= |acts|
    ensures Inv(states[j])
    decreases j
  {
    hide Enabled, Step, Inv;
    if j == 0 {
      InitInv(states[0]);
    } else {
      RunInv(states, acts, j - 1);
      StepKeeps(states[j - 1], acts[j - 1]);
    }
  }

  lemma InitInv(s: State)
    requires Init(s)
    ensures Inv(s)
  {
    assert With(s.threads, Waiting) == {};
  }

  // No wake-up is lost: if a thread waits un-notified, every element in the queue is matched by a thread that is about to
  // look or a notification that is about to be sent. And elements leave in the order they came.
  lemma NoLostWakeUp(states: seq<State>, acts: seq<Action>)
    requires IsRun(states, acts)
    ensures var s := states[|acts|];
            && s.popped + s.queue == s.pushed
            && (Count(s.threads, Waiting) > 0 ==> |s.queue| <= Count(s.threads, Looking) + Count(s.threads, Notifying))
  {
    RunInv(states, acts, |acts|);
  }

  // So when no thread has a step of its own left, either nobody waits or nothing is there to be popped.
  lemma StillnessIsHarmless(states: seq<State>, acts: seq<Action>)
    requires IsRun(states, acts)
    requires forall t :: t in states[|acts|].threads ==> states[|acts|].threads[t].Outside? || states[|acts|].threads[t].Waiting?
    ensures states[|acts|].queue == [] || forall t :: t in states[|acts|].threads ==> states[|acts|].threads[t].Outside?
  {
    var s := states[|acts|];
    RunInv(states, acts, |acts|);
    assert With(s.threads, Looking) == {} && With(s.threads, Notifying) == {};
    forall t | t in s.threads && s.threads[t].Waiting? ensures s.queue == [] {
      CountPositive(s.threads, t);
    }
  }

  // ---------- in terms of the calls ----------

  // The data of all calls to Push, in the order of their critical sections.
  function Pushed(acts: seq<Action>): seq<int> {
    if acts == [] then []
    else
      var last := acts[|acts| - 1];
      Pushed(acts[..|acts| - 1]) + if last.Push? then [last.data] else []
  }

  // What has been popped, followed by what is in the queue, is what Push was called with, in order.
  lemma {:induction false} FirstInFirstOut(states: seq<State>, acts: seq<Action>, j: nat)
    requires IsRun(states, acts) && j <= |acts|
    ensures states[j].pushed == Pushed(acts[..j]) == states[j].popped + states[j].queue
    decreases j
  {
    hide Count;
    RunInv(states, acts, j);
    if j > 0 {
      FirstInFirstOut(states, acts, j - 1);
      assert acts[..j][..j - 1] == acts[..j - 1];
      assert Enabled(states[j - 1], acts[j - 1]) && Step(states[j - 1], acts[j - 1]) == states[j];
    }
  }

  // Pop on a queue that is not empty returns its front, whatever the other threads do: it can look at once, and the look ends it.
  lemma PopTakesTheFront(s: State, t: nat)
    requires Is(s, t, Outside) && s.queue != []
    ensures Enabled(s, Enter(t)) && Enabled(Step(s, Enter(t)), Look(t))
    ensures Step(Step(s, Enter(t)), Look(t)) == s.(queue := s.queue[1..], popped := s.popped + [s.queue[0]])
  {
    assert s.threads[t := Looking][t := Outside] == s.threads;
  }

  // Push appends, and its notification sends exactly one waiting thread, whichever, back to look.
  lemma PushWakesOne(s: State, t: nat, data: int, woken: nat)
    requires Is(s, t, Outside) && (Count(s.threads, Waiting) > 0 ==> Is(s, woken, Waiting))
    ensures Enabled(s, Push(t, data)) && Enabled(Step(s, Push(t, data)), Notify(t, woken))
    ensures Step(Step(s, Push(t, data)), Notify(t, woken))
            == s.(queue := s.queue + [data], pushed := s.pushed + [data],
                  threads := if Count(s.threads, Waiting) > 0 then s.threads[woken := Looking] else s.threads)
  {
    CountAfter(s.threads, t, Notifying, Waiting);
    assert s.threads[t := Notifying][t := Outside] == s.threads;
  }
}
