// The reactor and the select-based monitor under it. Handlers may register and deregister descriptors while a round
// is being dispatched.
module Reactor {

  const FD_SETSIZE: int := 1024

  predicate IsFd(fd: int) {
    0 <= fd < FD_SETSIZE
  }

  // The descriptors of a set from `from` on, in ascending order.
  function Ascending(fds: set<int>, from: nat): (s: seq<int>)
    decreases FD_SETSIZE - from
  {
    if from >= FD_SETSIZE then []
    else (if from in fds then [from] else []) + Ascending(fds, from + 1)
  }

  lemma {:induction false} AscendingListsTheSet(fds: set<int>, from: nat)
    ensures forall fd :: fd in Ascending(fds, from) <==> fd in fds && from <= fd < FD_SETSIZE
    decreases FD_SETSIZE - from
  {
    if from < FD_SETSIZE {
      AscendingListsTheSet(fds, from + 1);
      var rest := Ascending(fds, from + 1);
      assert from in fds ==> Ascending(fds, from) == [from] + rest;
    }
  }

  lemma {:induction false} AscendingIsSorted(fds: set<int>, from: nat)
    ensures forall i, j :: 0 <= i < j < |Ascending(fds, from)| ==> Ascending(fds, from)[i] < Ascending(fds, from)[j]
    decreases FD_SETSIZE - from
  {
    if from < FD_SETSIZE {
      AscendingIsSorted(fds, from + 1);
      AscendingListsTheSet(fds, from + 1);
      var rest := Ascending(fds, from + 1);
      assert forall j :: 0 <= j < |rest| ==> rest[j] in rest;
    }
  }

  lemma {:induction false} AscendingSize(fds: set<int>, from: nat)
    ensures |Ascending(fds, from)| == |set fd | fd in fds && from <= fd < FD_SETSIZE|
    decreases FD_SETSIZE - from
  {
    var here := set fd | fd in fds && from <= fd < FD_SETSIZE;
    if from < FD_SETSIZE {
      AscendingSize(fds, from + 1);
      var later := set fd | fd in fds && from + 1 <= fd < FD_SETSIZE;
      assert here == if from in fds then {from} + later else later;
    } else {
      assert here == {};
    }
  }

  // Skipping descriptors that are not in the set skips nothing of the list.
  lemma {:induction false} AscendingSkips(fds: set<int>, from: nat, to: nat)
    requires from <= to <= FD_SETSIZE && forall fd :: from <= fd < to ==> fd !in fds
    ensures Ascending(fds, from) == Ascending(fds, to)
    decreases FD_SETSIZE - from
  {
    if from < to {
      AscendingSkips(fds, from + 1, to);
    }
  }

  // ---------- the table of handlers ----------

  // Which callback a handler object holds.
  type Handler = int

  datatype Change = Register(fd: int, handler: Handler) | Deregister(fd: int)

  predicate InRange(changes: seq<Change>) {
    forall i :: 0 <= i < |changes| ==> IsFd(changes[i].fd)
  }

  ghost predicate AllInRange(does: int -> seq<Change>) {
    forall fd :: InRange(does(fd))
  }

  lemma RangeOf(does: int -> seq<Change>, fd: int)
    requires AllInRange(does)
    ensures InRange(does(fd))
  {
  }

  // unordered_map::insert does not overwrite.
  function Changed(table: map<int, Handler>, change: Change): map<int, Handler> {
    match change
    case Register(fd, handler) => if fd in table then table else table[fd := handler]
    case Deregister(fd) => table - {fd}
  }

  function AllChanged(table: map<int, Handler>, changes: seq<Change>): map<int, Handler>
    decreases |changes|
  {
    if changes == [] then table else AllChanged(Changed(table, changes[0]), changes[1..])
  }

  // The last change that is about fd takes it out.
  predicate Removes(changes: seq<Change>, fd: int) {
    exists i :: 0 <= i < |changes| && LastWord(changes, fd, i)
  }

  predicate Mentions(changes: seq<Change>, change: Change) {
    exists i :: 0 <= i < |changes| && changes[i] == change
  }

  predicate About(changes: seq<Change>, fd: int) {
    exists i :: 0 <= i < |changes| && changes[i].fd == fd
  }

  predicate LastWord(changes: seq<Change>, fd: int, i: int) {
    0 <= i < |changes| && changes[i] == Deregister(fd) && forall j :: i < j < |changes| ==> changes[j].fd != fd
  }

  lemma LaterChanges(changes: seq<Change>, fd: int)
    requires changes != []
    ensures Removes(changes, fd) <==> Removes(changes[1..], fd) || (changes[0] == Deregister(fd) && !About(changes[1..], fd))
    ensures About(changes, fd) <==> changes[0].fd == fd || About(changes[1..], fd)
  {
    var later := changes[1..];
    assert forall j :: 0 <= j < |later| ==> later[j] == changes[j + 1];
    assert forall j :: 0 < j < |changes| ==> changes[j] == later[j - 1];
    if Removes(changes, fd) {
      var i :| 0 <= i < |changes| && LastWord(changes, fd, i);
      assert i > 0 ==> LastWord(later, fd, i - 1);
    }
    if Removes(later, fd) {
      var i :| 0 <= i < |later| && LastWord(later, fd, i);
      assert LastWord(changes, fd, i + 1);
    } else if changes[0] == Deregister(fd) && !About(later, fd) {
      assert LastWord(changes, fd, 0);
    }
  }

  // A descriptor is in the table after any changes exactly when the last change about it was a registration, or there
  // was none and it was there before.
  lemma {:induction false} StaysRegistered(table: map<int, Handler>, changes: seq<Change>, fd: int)
    ensures fd in AllChanged(table, changes) <==> !Removes(changes, fd) && (fd in table || About(changes, fd))
    ensures fd in table && !Mentions(changes, Deregister(fd)) ==>
              fd in AllChanged(table, changes) && AllChanged(table, changes)[fd] == table[fd]
    decreases |changes|
  {
    if changes != [] {
      StaysRegistered(Changed(table, changes[0]), changes[1..], fd);
      LaterChanges(changes, fd);
    }
  }

  // ---------- a round ----------

  datatype Called = Called(fd: int, handler: Handler)

  // Lost: `at` throws, because a ready descriptor has no handler any more.
  datatype Round = Done(table: map<int, Handler>, calls: seq<Called>) | Lost(table: map<int, Handler>, calls: seq<Called>)

  function Prepend(call: Called, round: Round): Round {
    match round
    case Done(table, calls) => Done(table, [call] + calls)
    case Lost(table, calls) => Lost(table, [call] + calls)
  }

  // Call the handlers of these descriptors one after the other; `does` is what the handler of a descriptor changes.
  function Turns(table: map<int, Handler>, fds: seq<int>, does: int -> seq<Change>): Round
    decreases |fds|
  {
    if fds == [] then Done(table, [])
    else if fds[0] !in table then Lost(table, [])
    else Prepend(Called(fds[0], table[fds[0]]), Turns(AllChanged(table, does(fds[0])), fds[1..], does))
  }

  // Everything the handlers of these descriptors change, in order.
  function ChangesOf(fds: seq<int>, does: int -> seq<Change>): seq<Change> {
    if fds == [] then [] else does(fds[0]) + ChangesOf(fds[1..], does)
  }

  lemma {:induction false} AllChangedAppend(table: map<int, Handler>, a: seq<Change>, b: seq<Change>)
    ensures AllChanged(table, a + b) == AllChanged(AllChanged(table, a), b)
    decreases |a|
  {
    if a == [] {
      assert a + b == b;
    } else {
      AllChangedAppend(Changed(table, a[0]), a[1..], b);
      assert (a + b)[0] == a[0] && (a + b)[1..] == a[1..] + b;
    }
  }

  // A registration counts if the descriptor has no handler at the time, and then its handler stays until it is taken out.
  lemma RegistrationCounts(table: map<int, Handler>, changes: seq<Change>, i: nat, fd: int, handler: Handler)
    requires i < |changes| && changes[i] == Register(fd, handler)
    requires forall j :: i < j < |changes| ==> changes[j] != Deregister(fd)
    requires (fd !in table && forall j :: 0 <= j < i ==> changes[j].fd != fd)
             || exists l :: 0 <= l < i && changes[l] == Deregister(fd) && forall j :: l < j < i ==> changes[j].fd != fd
    ensures fd in AllChanged(table, changes) && AllChanged(table, changes)[fd] == handler
  {
    var before, after := changes[..i], changes[i + 1..];
    assert changes == before + ([changes[i]] + after);
    var then' := AllChanged(table, before);
    AllChangedAppend(table, before, [changes[i]] + after);
    assert ([changes[i]] + after)[1..] == after;
    assert fd !in then' by {
      StaysRegistered(table, before, fd);
      if l :| 0 <= l < i && changes[l] == Deregister(fd) && forall j :: l < j < i ==> changes[j].fd != fd {
        assert LastWord(before, fd, l);
      }
    }
    StaysRegistered(Changed(then', changes[i]), after, fd);
  }

  lemma {:induction false} TurnsInOrder(table: map<int, Handler>, fds: seq<int>, does: int -> seq<Change>)
    ensures var round := Turns(table, fds, does);
            && |round.calls| <= |fds| && (round.Done? <==> |round.calls| == |fds|)
            && (forall k :: 0 <= k < |round.calls| ==>
                  var now := AllChanged(table, ChangesOf(fds[..k], does));
                  round.calls[k].fd == fds[k] && fds[k] in now && round.calls[k].handler == now[fds[k]])
            && (round.Lost? ==> fds[|round.calls|] !in AllChanged(table, ChangesOf(fds[..|round.calls|], does)))
            && round.table == AllChanged(table, ChangesOf(fds[..|round.calls|], does))
    decreases |fds|
  {
    if fds != [] && fds[0] in table {
      var next := AllChanged(table, does(fds[0]));
      TurnsInOrder(next, fds[1..], does);
      forall k: nat | k < |fds|
        ensures AllChanged(table, ChangesOf(fds[..k + 1], does)) == AllChanged(next, ChangesOf(fds[1..][..k], does))
      {
        assert fds[..k + 1][0] == fds[0] && fds[..k + 1][1..] == fds[1..][..k];
        AllChangedAppend(table, does(fds[0]), ChangesOf(fds[1..][..k], does));
      }
      var round, rest := Turns(table, fds, does), Turns(next, fds[1..], does);
      forall k | 0 <= k < |round.calls|
        ensures var now := AllChanged(table, ChangesOf(fds[..k], does));
                round.calls[k].fd == fds[k] && fds[k] in now && round.calls[k].handler == now[fds[k]]
      {
        if k == 0 { assert fds[..0] == []; } else { assert round.calls[k] == rest.calls[k - 1] && fds[k] == fds[1..][k - 1]; }
      }
    } else {
      assert fds[..0] == [];
    }
  }

  // No handler's last word about a descriptor still to come is to take it out.
  predicate Polite(fds: seq<int>, does: int -> seq<Change>) {
    forall k :: 0 <= k < |fds| ==> !Removes(ChangesOf(fds[..k], does), fds[k])
  }

  // When every listed descriptor has a handler, a round is lost exactly when an earlier handler takes out a descriptor
  // that is still to come.
  lemma RoundCompletesIff(table: map<int, Handler>, fds: seq<int>, does: int -> seq<Change>)
    requires forall k :: 0 <= k < |fds| ==> fds[k] in table
    ensures Turns(table, fds, does).Done? <==> Polite(fds, does)
  {
    TurnsInOrder(table, fds, does);
    forall k | 0 <= k < |fds|
      ensures fds[k] in AllChanged(table, ChangesOf(fds[..k], does)) <==> !Removes(ChangesOf(fds[..k], does), fds[k])
    {
      StaysRegistered(table, ChangesOf(fds[..k], does), fds[k]);
    }
  }

  // ---------- the objects ----------

  class SelectMonitor {
    var watched: set<int>
    var ready: set<int>
    var maxfd: int
    var registered: set<int>

    // Watched descriptors have been registered; maxfd is the largest ever registered.
    ghost predicate Valid()
      reads this
    {
      && watched <= registered && ready <= registered
      && (forall fd :: fd in registered ==> 0 <= fd <= maxfd)
      && IsFd(maxfd) && (registered != {} ==> maxfd in registered)
    }

    constructor ()
      ensures Valid() && watched == {} && ready == {} && registered == {}
    {
      watched, ready, maxfd, registered := {}, {}, 0, {};
    }

    method RegisterRead(fd: int)
      requires Valid() && IsFd(fd)
      modifies this
      ensures Valid() && watched == old(watched) + {fd} && registered == old(registered) + {fd} && ready == old(ready)
    {
      watched := watched + {fd};
      if registered == {} || fd > maxfd {
        maxfd := fd;
      }
      registered := registered + {fd};
    }

    method Deregister(fd: int)
      requires Valid() && IsFd(fd)
      modifies this`watched
      ensures Valid() && watched == old(watched) - {fd}
    {
      watched := watched - {fd};
    }

    // select looks at the watched descriptors up to maxfd and leaves those that the kernel finds readable; or it fails.
    method WaitForEvents(readable: set<int>, fails: bool) returns (count: int)
      requires Valid()
      modifies this`ready
      ensures Valid()
      ensures if fails then count == -1 else ready == watched * readable && count == |ready|
    {
      ready := watched;
      if fails {
        return -1;
      }
      ready := set fd | fd in ready && fd < maxfd + 1 && fd in readable;
      count := |ready|;
    }

    // The next readable descriptor from `starting` on, or -1.
    method GetNextReadEvent(starting: nat) returns (fd: int)
      requires starting <= FD_SETSIZE
      ensures fd == -1 <==> Ascending(ready, starting) == []
      ensures fd != -1 ==> IsFd(fd) && Ascending(ready, starting) == [fd] + Ascending(ready, fd + 1)
    {
      var at := starting;
      while at < FD_SETSIZE
        invariant starting <= at <= FD_SETSIZE && forall f :: starting <= f < at ==> f !in ready
      {
        if at in ready {
          AscendingSkips(ready, starting, at);
          return at;
        }
        at := at + 1;
      }
      AscendingSkips(ready, starting, at);
      fd := -1;
    }
  }

  datatype Exit = Completed | SelectFailed | NoHandler

  class Reactor {
    const monitor: SelectMonitor
    var callbacks: map<int, Handler>

    ghost predicate Valid()
      reads this, monitor
    {
      monitor.Valid() && callbacks.Keys == monitor.watched
    }

    constructor ()
      ensures Valid() && fresh(monitor) && callbacks == map[]
    {
      callbacks := map[];
      monitor := new SelectMonitor();
    }

    method RegisterReadEventHandler(fd: int, handler: Handler)
      requires Valid() && IsFd(fd)
      modifies this, monitor
      ensures Valid() && callbacks == Changed(old(callbacks), Register(fd, handler)) && monitor.ready == old(monitor.ready)
      ensures fd !in old(callbacks) ==> callbacks == old(callbacks)[fd := handler]
      ensures fd in old(callbacks) ==> callbacks == old(callbacks)
    {
      monitor.RegisterRead(fd);
      if fd !in callbacks {
        callbacks := callbacks[fd := handler];
      }
    }

    method DeregisterEventHandler(fd: int)
      requires Valid() && IsFd(fd)
      modifies this, monitor
      ensures Valid() && callbacks == Changed(old(callbacks), Deregister(fd)) && monitor.ready == old(monitor.ready)
      ensures callbacks == old(callbacks) - {fd}
    {
      monitor.Deregister(fd);
      callbacks := callbacks - {fd};
    }

    // A handler at work: any registrations and deregistrations.
    method Perform(changes: seq<Change>)
      requires Valid() && InRange(changes)
      modifies this, monitor
      ensures Valid() && callbacks == AllChanged(old(callbacks), changes) && monitor.ready == old(monitor.ready)
    {
      for i := 0 to |changes|
        invariant Valid() && monitor.ready == old(monitor.ready)
        invariant AllChanged(callbacks, changes[i..]) == AllChanged(old(callbacks), changes)
      {
        match changes[i] {
          case Register(fd, handler) => RegisterReadEventHandler(fd, handler);
          case Deregister(fd) => DeregisterEventHandler(fd);
        }
        assert changes[i..][1..] == changes[i + 1..];
      }
    }

    // The inner loop of Run: the count that select returned is the only thing that ends it.
    method Dispatch(count: nat, does: int -> seq<Change>) returns (lost: bool, calls: seq<Called>)
      requires Valid() && AllInRange(does) && count == |Ascending(monitor.ready, 0)|
      modifies this, monitor
      ensures Valid() && monitor.ready == old(monitor.ready)
      ensures (if lost then Lost(callbacks, calls) else Done(callbacks, calls)) == Turns(old(callbacks), Ascending(monitor.ready, 0), does)
    {
      hide Ascending, Turns, AllChanged, Changed, AllInRange;
      calls := [];
      ghost var ready, round := monitor.ready, Turns(callbacks, Ascending(monitor.ready, 0), does);
      var startingFd, readyFds := 0, count;
      while readyFds > 0
        invariant Valid() && monitor.ready == ready && 0 <= startingFd <= FD_SETSIZE
        invariant readyFds == |Ascending(ready, startingFd)|
        invariant Joined(calls, Turns(callbacks, Ascending(ready, startingFd), does)) == round
      {
        var fdToRead := monitor.GetNextReadEvent(startingFd);
        NextTurn(callbacks, fdToRead, Ascending(ready, fdToRead + 1), does, calls);
        if fdToRead !in callbacks {
          return true, calls;
        }
        var handler := callbacks[fdToRead];
        assert InRange(does(fdToRead)) by { RangeOf(does, fdToRead); }
        Perform(does(fdToRead));
        calls := calls + [Called(fdToRead, handler)];
        readyFds := readyFds - 1;
        startingFd := fdToRead + 1;
      }
      NoMoreTurns(callbacks, does, calls);
      lost := false;
    }

    // One turn of Run's outer loop, when the kernel finds these descriptors readable.
    method RunOnce(readable: set<int>, fails: bool, does: int -> seq<Change>) returns (exit: Exit, calls: seq<Called>)
      requires Valid() && AllInRange(does)
      modifies this, monitor
      ensures Valid()
      ensures exit.SelectFailed? <==> fails
      ensures fails ==> callbacks == old(callbacks) && calls == []
      ensures !fails ==>
                && monitor.ready == old(callbacks.Keys) * readable
                && var round := Turns(old(callbacks), Ascending(monitor.ready, 0), does);
                (exit.Completed? <==> round.Done?) && callbacks == round.table && calls == round.calls
    {
      hide Ascending, Turns, AllInRange;
      var readyFds := monitor.WaitForEvents(readable, fails);
      if readyFds == -1 {
        return SelectFailed, [];
      }
      AllOfThem(monitor.ready);
      var lost;
      lost, calls := Dispatch(readyFds, does);
      exit := if lost then NoHandler else Completed;
    }
  }

  function Joined(before: seq<Called>, round: Round): Round {
    match round
    case Done(table, calls) => Done(table, before + calls)
    case Lost(table, calls) => Lost(table, before + calls)
  }

  lemma NextTurn(table: map<int, Handler>, fd: int, fds: seq<int>, does: int -> seq<Change>, calls: seq<Called>)
    ensures var round := Joined(calls, Turns(table, [fd] + fds, does));
            if fd in table
            then round == Joined(calls + [Called(fd, table[fd])], Turns(AllChanged(table, does(fd)), fds, does))
            else round == Lost(table, calls)
  {
  }

  lemma NoMoreTurns(table: map<int, Handler>, does: int -> seq<Change>, calls: seq<Called>)
    ensures Joined(calls, Turns(table, [], does)) == Done(table, calls)
  {
  }

  lemma AllOfThem(fds: set<int>)
    requires forall fd :: fd in fds ==> IsFd(fd)
    ensures |Ascending(fds, 0)| == |fds|
  {
    AscendingSize(fds, 0);
    assert fds == set fd | fd in fds && 0 <= fd < FD_SETSIZE;
  }

  // With handlers that leave the pending descriptors alone, a round calls the handler of every ready descriptor exactly
  // once, in ascending order; and it is the handler the descriptor had before the round, unless an earlier one took that out.
  lemma EveryReadyFdIsCalledOnce(table: map<int, Handler>, ready: set<int>, does: int -> seq<Change>)
    requires ready <= table.Keys && forall fd :: fd in ready ==> IsFd(fd)
    requires Polite(Ascending(ready, 0), does)
    ensures var fds, round := Ascending(ready, 0), Turns(table, Ascending(ready, 0), does);
            && round.Done? && |round.calls| == |ready| == |fds|
            && (forall i, j :: 0 <= i < j < |round.calls| ==> round.calls[i].fd < round.calls[j].fd)
            && (forall fd :: fd in ready <==> exists k :: 0 <= k < |round.calls| && round.calls[k].fd == fd)
            && (forall k :: 0 <= k < |round.calls| && !Mentions(ChangesOf(fds[..k], does), Deregister(round.calls[k].fd)) ==>
                  round.calls[k].fd in table && round.calls[k].handler == table[round.calls[k].fd])
  {
    hide Ascending, Turns, AllChanged, ChangesOf, Polite, Mentions;
    var fds, round := Ascending(ready, 0), Turns(table, Ascending(ready, 0), does);
    AscendingListsTheSet(ready, 0);
    AscendingIsSorted(ready, 0);
    AllOfThem(ready);
    assert forall k :: 0 <= k < |fds| ==> fds[k] in fds;
    RoundCompletesIff(table, fds, does);
    TurnsInOrder(table, fds, does);
    forall fd | fd in ready ensures exists k :: 0 <= k < |round.calls| && round.calls[k].fd == fd {
      var k :| 0 <= k < |fds| && fds[k] == fd;
      assert round.calls[k].fd == fd;
    }
    forall k | 0 <= k < |round.calls| && !Mentions(ChangesOf(fds[..k], does), Deregister(fds[k]))
      ensures round.calls[k].handler == table[fds[k]]
    {
      StaysRegistered(table, ChangesOf(fds[..k], does), fds[k]);
    }
  }

  // A handler that takes out a descriptor that is ready with it ends the reactor's loop with an exception.
  lemma OneHandlerLosesAnother()
    ensures var table := map[3 := 30, 5 := 50];
            Turns(table, Ascending({3, 5}, 0), fd => [Deregister(5)]) == Lost(map[3 := 30], [Called(3, 30)])
  {
    AscendingSkips({3, 5}, 0, 3);
    AscendingSkips({3, 5}, 4, 5);
    AscendingSkips({3, 5}, 6, FD_SETSIZE);
  }
}
