// Runs of the C++ pool that break its promises: a paused pool that is shrunk starts a user task although Run is never
// called, the destructor of such a pool hangs, and so does a second shrink.
module ThreadPoolCounterexample {
  import opened ThreadPool
  import opened ThreadPoolReturns

  predicate NeverRuns(acts: seq<Action>) {
    forall i :: 0 <= i < |acts| ==> !acts[i].Run?
  }

  // A pool of two threads can get here without Run.
  ghost predicate Reached(s: Pool) {
    exists states: seq<Pool>, acts: seq<Action> :: IsRun(2, states, acts) && NeverRuns(acts) && states[|acts|] == s
  }

  lemma Start()
    ensures Reached(Fresh(2))
  {
    assert IsRun(2, [Fresh(2)], []) && NeverRuns([]);
  }

  lemma Then(s: Pool, a: Action, next: Pool)
    requires Reached(s) && Enabled(s, a) && Step(s, a) == Ok(next) && !a.Run?
    ensures Reached(next)
  {
    hide Enabled, Step;
    var states: seq<Pool>, acts: seq<Action> :| IsRun(2, states, acts) && NeverRuns(acts) && states[|acts|] == s;
    assert IsRun(2, states + [next], acts + [a]) && NeverRuns(acts + [a]);
  }

  // Two threads behind two pause tasks, and a user task.
  function Paused(): Pool {
    Pool(multiset{Pause1, Pause1, User(0, 0)}, map[0 := Ready, 1 := Ready], {0, 1}, [], false, false, 2, 2, false, Free, 2, [], 0)
  }

  // One thread is left, with the pause tasks of the flag that is up now.
  function Shrunk(): Pool {
    Pool(multiset{Pause1, Pause1, User(0, 0)}, map[1 := Ready], {1}, [], true, false, 1, 1, false, Free, 2, [0], 0)
  }

  lemma ReachPaused()
    ensures Reached(Paused())
  {
    hide Reached;
    Start();
    var s1 := Fresh(2).(queue := multiset{Pause1}, control := Pausing(1, 2));
    Then(Fresh(2), Continue, s1);
    var s2 := s1.(queue := multiset{Pause1, Pause1}, control := Pausing(0, 2));
    Then(s1, Continue, s2);
    var s3 := s2.(control := Spawning(2));
    Then(s2, Continue, s3);
    var s4 := s3.(threads := map[0 := Ready], threadMap := {0}, nextId := 1, control := Spawning(1));
    Then(s3, Continue, s4);
    var s5 := s4.(threads := map[0 := Ready, 1 := Ready], threadMap := {0, 1}, nextId := 2, control := Spawning(0));
    Then(s4, Continue, s5);
    Then(s5, Continue, s5.(control := Free));
    Then(s5.(control := Free), Add(0, 0), Paused());
  }

  // SetNumOfThreads(1) pushes a suicide task and no pause task, and puts the old flag up.
  lemma ReachJoining()
    ensures Reached(Paused().(queue := Paused().queue + multiset{Suicide}, target := 1, running1 := true, control := Joining(1)))
  {
    hide Reached;
    ReachPaused();
    var s1 := Paused().(target := 1, control := Killing(1, 1));
    Then(Paused(), Resize(1), s1);
    var s2 := s1.(queue := s1.queue + multiset{Suicide}, control := Killing(0, 1));
    Then(s1, Continue, s2);
    var s3 := s2.(running2 := false, control := Shifting(0, 1, true));
    Then(s2, Continue, s3);
    Then(s3, Continue, s3.(running1 := true, control := Joining(1)));
  }

  lemma ReachShrunk()
    ensures Reached(Shrunk())
  {
    hide Reached;
    ReachJoining();
    var s1 := Paused().(queue := Paused().queue + multiset{Suicide}, target := 1, running1 := true, control := Joining(1));
    var s2 := s1.(queue := Paused().queue, threads := map[0 := Doomed, 1 := Ready], taken := [0]);
    Then(s1, Pop(0, Suicide), s2);
    var s3 := s2.(threads := map[0 := Dead, 1 := Ready], zombies := [0]);
    Then(s2, Die(0), s3);
    var s4 := s3.(threads := map[1 := Ready], threadMap := {1}, zombies := [], control := Joining(0));
    Then(s3, Continue, s4);
    Then(s4, Continue, Shrunk());
  }

  // After SetNumOfThreads(1) the surviving thread walks through both old pause tasks and takes the user task.
  lemma ShrinkLosesAPause()
    ensures exists s :: Reached(s) && s.started == 1
  {
    hide Reached;
    ReachShrunk();
    var s1 := Shrunk().(queue := multiset{Pause1, User(0, 0)}, threads := map[1 := Held1]);
    Then(Shrunk(), Pop(1, Pause1), s1);
    var s2 := s1.(threads := map[1 := Ready]);
    Then(s1, Leave(1), s2);
    var s3 := s2.(queue := multiset{User(0, 0)}, threads := map[1 := Held1]);
    Then(s2, Pop(1, Pause1), s3);
    var s4 := s3.(threads := map[1 := Ready]);
    Then(s3, Leave(1), s4);
    Then(s4, Pop(1, User(0, 0)), s4.(queue := multiset{}, threads := map[1 := Busy], started := 1));
  }

  // Both threads inside PauseTask1, and SetNumOfThreads(2) has put the first flag up and pushed two of the other pause tasks.
  function Shifted(): Pool {
    Pool(multiset{Pause2, Pause2}, map[0 := Held1, 1 := Held1], {0, 1}, [], true, false, 2, 2, false, Free, 2, [], 0)
  }

  lemma ReachHeld()
    ensures Reached(Shifted().(queue := multiset{}, running1 := false))
  {
    hide Reached;
    Start();
    var s1 := Fresh(2).(queue := multiset{Pause1}, control := Pausing(1, 2));
    Then(Fresh(2), Continue, s1);
    var s2 := s1.(queue := multiset{Pause1, Pause1}, control := Pausing(0, 2));
    Then(s1, Continue, s2);
    Then(s2, Continue, s2.(control := Spawning(2)));
    var s3 := s2.(threads := map[0 := Ready], threadMap := {0}, nextId := 1, control := Spawning(1));
    Then(s2.(control := Spawning(2)), Continue, s3);
    var s4 := s3.(threads := map[0 := Ready, 1 := Ready], threadMap := {0, 1}, nextId := 2, control := Spawning(0));
    Then(s3, Continue, s4);
    Then(s4, Continue, s4.(control := Free));
    var s5 := s4.(control := Free, queue := multiset{Pause1}, threads := map[0 := Held1, 1 := Ready]);
    Then(s4.(control := Free), Pop(0, Pause1), s5);
    Then(s5, Pop(1, Pause1), Shifted().(queue := multiset{}, running1 := false));
  }

  lemma ReachShifted()
    ensures Reached(Shifted())
  {
    hide Reached;
    ReachHeld();
    var s0 := Shifted().(queue := multiset{}, running1 := false);
    Then(s0, Resize(2), s0.(control := Killing(0, 0)));
    var s1 := s0.(control := Shifting(2, 0, true));
    Then(s0.(control := Killing(0, 0)), Continue, s1);
    var s2 := s1.(queue := multiset{Pause2}, control := Shifting(1, 0, true));
    Then(s1, Continue, s2);
    var s3 := s2.(queue := multiset{Pause2, Pause2}, control := Shifting(0, 0, true));
    Then(s2, Continue, s3);
    Then(s3, Continue, Shifted().(control := Joining(0)));
    Then(Shifted().(control := Joining(0)), Continue, Shifted());
  }

  // SetNumOfThreads(1) comes before the threads have left PauseTask1. It puts the first flag down again, and waits for ever.
  lemma SecondShrinkHangs()
    ensures exists s :: Reached(s) && !s.closing && s.num == 2 && s.target == 1 && Blocked(s)
  {
    hide Reached;
    ReachShifted();
    var s0 := Shifted();
    Then(s0, Resize(1), s0.(target := 1, control := Killing(1, 1)));
    var s1 := s0.(target := 1, queue := multiset{Pause2, Pause2, Suicide}, control := Killing(0, 1));
    Then(s0.(target := 1, control := Killing(1, 1)), Continue, s1);
    var s2 := s1.(running1 := false, control := Shifting(0, 1, false));
    Then(s1, Continue, s2);
    var s3 := s2.(running2 := true, control := Joining(1));
    Then(s2, Continue, s3);
    assert Blocked(s3);
  }

  // The pool is paused again once both threads have moved on to PauseTask2. The destructor does not raise the second flag.
  lemma ReachPausedAgain()
    ensures Reached(Shifted().(queue := multiset{Pause1, Pause1}, threads := map[0 := Held2, 1 := Held2], running1 := false))
  {
    hide Reached;
    ReachShifted();
    var s0 := Shifted();
    var s1 := s0.(threads := map[0 := Ready, 1 := Held1]);
    Then(s0, Leave(0), s1);
    var s2 := s1.(threads := map[0 := Ready, 1 := Ready]);
    Then(s1, Leave(1), s2);
    var s3 := s2.(queue := multiset{Pause2}, threads := map[0 := Held2, 1 := Ready]);
    Then(s2, Pop(0, Pause2), s3);
    var s4 := s3.(queue := multiset{}, threads := map[0 := Held2, 1 := Held2]);
    Then(s3, Pop(1, Pause2), s4);
    Then(s4, Pause, s4.(running1 := false, control := Pausing(2, 0)));
    var s5 := s4.(running1 := false, queue := multiset{Pause1}, control := Pausing(1, 0));
    Then(s4.(running1 := false, control := Pausing(2, 0)), Continue, s5);
    var s6 := s5.(queue := multiset{Pause1, Pause1}, control := Pausing(0, 0));
    Then(s5, Continue, s6);
    Then(s6, Continue, s6.(control := Free));
  }

  lemma DestructorHangs()
    ensures exists s :: Reached(s) && s.closing && s.num == 2 && Blocked(s)
  {
    hide Reached;
    ReachPausedAgain();
    var s0 := Shifted().(queue := multiset{Pause1, Pause1}, threads := map[0 := Held2, 1 := Held2], running1 := false);
    var s1 := s0.(target := 0, closing := true, control := Killing(2, 2));
    Then(s0, Destroy, s1);
    var s2 := s1.(queue := multiset{Pause1, Pause1, Suicide}, control := Killing(1, 2));
    Then(s1, Continue, s2);
    var s3 := s2.(queue := multiset{Pause1, Pause1, Suicide, Suicide}, control := Killing(0, 2));
    Then(s2, Continue, s3);
    var s4 := s3.(control := Shifting(0, 2, true));
    Then(s3, Continue, s4);
    var s5 := s4.(running1 := true, control := Joining(2));
    Then(s4, Continue, s5);
    assert Blocked(s5);
  }
}
