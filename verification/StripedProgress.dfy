// The striped device comes to rest: every action but fetching a new request uses up work, and while work is left some
// action is enabled.
module StripedProgress {
  import opened Bytes
  import opened Striping
  import opened FlatDisk
  import opened Atlas
  import opened StripedDisk
  import opened StripedInvariant
  import opened StripedSteps
  import opened StripedTheorems

  // A fragment costs five actions from the Send loop to the end of its reply task, a request four more.
  function TaskWork(r: Request, e: Entry): nat {
    match e.phase
    case Queued => 5 * Fragments(r) + 4
    case Sliced => 5 * Fragments(r) + 3
    case Sending(next) => 2 + if next < Fragments(r) then 5 * (Fragments(r) - next) else 0
    case Released => 0
  }

  function TasksWork(log: seq<Request>, entries: seq<Entry>): nat
    requires |log| == |entries|
  {
    if log == [] then 0
    else TasksWork(log[..|log| - 1], entries[..|log| - 1]) + TaskWork(log[|log| - 1], entries[|log| - 1])
  }

  function Frames(sockets: seq<seq<Frame>>): nat {
    if sockets == [] then 0 else Frames(sockets[..|sockets| - 1]) + |sockets[|sockets| - 1]|
  }

  function Work(s: State): nat
    requires |s.log| == |s.entries|
  {
    TasksWork(s.log, s.entries) + 4 * Frames(s.toDev) + 3 * Frames(s.fromDev) + 2 * |s.tasks| + |s.releasing|
  }

  lemma {:induction false} TasksWorkAfter(log: seq<Request>, entries: seq<Entry>, i: nat, e: Entry)
    requires |log| == |entries| && i < |log|
    ensures TasksWork(log, entries[i := e]) == TasksWork(log, entries) - TaskWork(log[i], entries[i]) + TaskWork(log[i], e)
  {
    var last := |log| - 1;
    if i < last {
      TasksWorkAfter(log[..last], entries[..last], i, e);
      assert entries[i := e][..last] == entries[..last][i := e];
    } else {
      assert entries[i := e][..last] == entries[..last];
    }
  }

  lemma {:induction false} FramesAfter(sockets: seq<seq<Frame>>, d: nat, sq: seq<Frame>)
    requires d < |sockets|
    ensures Frames(sockets[d := sq]) == Frames(sockets) - |sockets[d]| + |sq|
  {
    var last := |sockets| - 1;
    if d < last {
      FramesAfter(sockets[..last], d, sq);
      assert sockets[d := sq][..last] == sockets[..last][d := sq];
    } else {
      assert sockets[d := sq][..last] == sockets[..last];
    }
  }

  // A request's entry keeps its phase when a use of it is dropped.
  lemma DropKeepsWork(s: State, i: nat)
    requires |s.log| == |s.entries| && i < |s.entries| && DropRequest(s, i).Ok?
    ensures |DropRequest(s, i).s.entries| == |s.log| && Work(DropRequest(s, i).s) == Work(s)
  {
    TasksWorkAfter(s.log, s.entries, i, s.entries[i].(requestUses := s.entries[i].requestUses - 1));
  }

  lemma SendUsesWork(c: Config, s: State, i: nat)
    requires |s.log| == |s.entries| && Enabled(c, s, SendNext(i)) && Step(c, s, SendNext(i)).Ok?
    ensures |Step(c, s, SendNext(i)).s.entries| == |s.log| && Work(Step(c, s, SendNext(i)).s) < Work(s)
  {
    hide HeaderOf, BlockAt, BlockNo, Device, DropRequest, ServeFrame;
    var e := s.entries[i];
    TasksWorkAfter(s.log, s.entries, i, e.(phase := Sending(e.phase.next + 1)));
    if Carries(s.log[i].cmd) {
      var d := Device(BlockNo(s.log[i], e.phase.next), c.n);
      FramesAfter(s.toDev, d, Step(c, s, SendNext(i)).s.toDev[d]);
    }
  }

  lemma TaskActionsUseWork(c: Config, s: State, i: nat, a: Action)
    requires |s.log| == |s.entries| && Enabled(c, s, a) && Step(c, s, a).Ok?
    requires a == Slice(i) || a == Register(i) || a == SendNext(i) || a == Release(i)
    ensures |Step(c, s, a).s.entries| == |s.log| && Work(Step(c, s, a).s) < Work(s)
  {
    hide DropRequest, SendStep, Frames, ServeStep, MergeStep, ReceiveStep;
    var e := s.entries[i];
    if a.SendNext? {
      SendUsesWork(c, s, i);
    } else if a.Release? {
      TasksWorkAfter(s.log, s.entries, i, e.(phase := Released));
      DropKeepsWork(s.(entries := s.entries[i := e.(phase := Released)]), i);
    } else {
      TasksWorkAfter(s.log, s.entries, i, Step(c, s, a).s.entries[i]);
    }
  }

  lemma ServeUsesWork(c: Config, s: State, d: nat)
    requires |s.log| == |s.entries| && Enabled(c, s, Serve(d)) && Step(c, s, Serve(d)).Ok?
    ensures |Step(c, s, Serve(d)).s.entries| == |s.log| && Work(Step(c, s, Serve(d)).s) < Work(s)
  {
    hide Splice, TasksWork, DropRequest, MergeStep, SendStep;
    var s' := Step(c, s, Serve(d)).s;
    FramesAfter(s.toDev, d, s'.toDev[d]);
    FramesAfter(s.fromDev, d, s'.fromDev[d]);
  }

  lemma MergeUsesWork(c: Config, s: State, t: nat)
    requires |s.log| == |s.entries| && Enabled(c, s, Merge(t)) && Step(c, s, Merge(t)).Ok?
    ensures |Step(c, s, Merge(t)).s.entries| == |s.log| && Work(Step(c, s, Merge(t)).s) < Work(s)
  {
    hide Splice, Frames, DropRequest, ServeStep, SendStep;
    var i := s.slicerMap[s.tasks[t].hdr.uid];
    TasksWorkAfter(s.log, s.entries, i, Step(c, s, Merge(t)).s.entries[i]);
  }

  lemma DropUsesWork(c: Config, s: State, i: nat)
    requires |s.log| == |s.entries| && Enabled(c, s, DropSlicer(i)) && Step(c, s, DropSlicer(i)).Ok?
    ensures |Step(c, s, DropSlicer(i)).s.entries| == |s.log| && Work(Step(c, s, DropSlicer(i)).s) < Work(s)
  {
    hide Frames, TasksWork, DropRequest, ServeStep, SendStep, MergeStep;
    var e := s.entries[i].(slicerUses := s.entries[i].slicerUses - 1);
    TasksWorkAfter(s.log, s.entries, i, e);
    if e.slicerUses == 0 {
      DropKeepsWork(s.(entries := s.entries[i := e], releasing := s.releasing - multiset{i}), i);
    }
  }

  lemma MessageActionsUseWork(c: Config, s: State, a: Action)
    requires |s.log| == |s.entries| && Enabled(c, s, a) && Step(c, s, a).Ok?
    requires a.Serve? || a.Receive? || a.Merge? || a.DropSlicer?
    ensures |Step(c, s, a).s.entries| == |s.log| && Work(Step(c, s, a).s) < Work(s)
  {
    hide SendStep, ServeStep, MergeStep, DropSlicerStep, TasksWork;
    match a {
      case Serve(d) => ServeUsesWork(c, s, d);
      case Receive(d, _) => FramesAfter(s.fromDev, d, Step(c, s, a).s.fromDev[d]);
      case Merge(t) => MergeUsesWork(c, s, t);
      case DropSlicer(i) => DropUsesWork(c, s, i);
    }
  }

  // So without new requests every run is finite, however the threads are scheduled.
  lemma EveryActionUsesWork(c: Config, disk: seq<byte>, states: seq<State>, acts: seq<Action>, a: Action)
    requires IsRun(c, disk, states, acts) && Enabled(c, states[|acts|], a) && !a.Accept?
    ensures var s := states[|acts|];
            && Step(c, s, a).Ok? && |s.log| == |s.entries| && |Step(c, s, a).s.log| == |Step(c, s, a).s.entries|
            && Work(Step(c, s, a).s) < Work(s)
  {
    hide Init, Enabled, Step, Work, EntriesInv, MapInv, ChannelsInv, DoneInv, DiskInv, LogInv;
    var s := states[|acts|];
    var h := RunHistory(c, disk, states, acts);
    StepKeeps(c, disk, s, h, a);
    match a {
      case Slice(i) => TaskActionsUseWork(c, s, i, a);
      case Register(i) => TaskActionsUseWork(c, s, i, a);
      case SendNext(i) => TaskActionsUseWork(c, s, i, a);
      case Release(i) => TaskActionsUseWork(c, s, i, a);
      case _ => MessageActionsUseWork(c, s, a);
    }
  }

  // And it ends idle: while anything is left, an action is enabled, provided the next uid is not still taken.
  lemma WorkIsNeverStuck(c: Config, disk: seq<byte>, states: seq<State>, acts: seq<Action>) returns (a: Action)
    requires IsRun(c, disk, states, acts) && !Idle(states[|acts|]) && UidFree(states[|acts|], U32(states[|acts|].counter))
    ensures Enabled(c, states[|acts|], a) && !a.Accept?
  {
    hide Init, Step, UidFree, EntriesInv, MapInv, ChannelsInv, DoneInv, DiskInv, LogInv;
    var s := states[|acts|];
    var h := RunHistory(c, disk, states, acts);
    if i :| 0 <= i < |s.entries| && !s.entries[i].phase.Released? {
      EntryFacts(c, disk, s, h, i);
      match s.entries[i].phase {
        case Queued => a := Slice(i);
        case Sliced => a := Register(i);
        case Sending(next) => a := if next < Fragments(s.log[i]) then SendNext(i) else Release(i);
      }
    } else if d :| 0 <= d < |s.toDev| && s.toDev[d] != [] {
      a := Serve(d);
    } else if d :| 0 <= d < |s.fromDev| && s.fromDev[d] != [] {
      a := Receive(d, seq(s.fromDev[d][0].hdr.dataLen, _ => 0));
    } else if s.tasks != [] {
      a := Merge(0);
    } else {
      var i :| i in s.releasing;
      a := DropSlicer(i);
    }
  }

  // ---------- uids ----------

  // How many requests have been sliced.
  function Slices(acts: seq<Action>): nat {
    if acts == [] then 0 else Slices(acts[..|acts| - 1]) + if acts[|acts| - 1].Slice? then 1 else 0
  }

  predicate SlicedAt(acts: seq<Action>, p: nat, j: nat) {
    p < |acts| && acts[p] == Slice(j)
  }

  // The slicer of request j still needs its uid.
  predicate Live(s: State, j: nat) {
    j < |s.entries| && (s.entries[j].phase.Sliced? || InMap(s, j))
  }

  // The 64-bit counter is cut to 32 bits, so two uids collide exactly when their slicers are a multiple of 2^32 apart;
  // the wrap of the counter itself does not show.
  lemma UidCollisions(a: nat, b: nat)
    ensures U32(a) == U32(b) <==> (a - b) % 0x1_0000_0000 == 0
    ensures U32(U64(a)) == U32(a) && U64(U64(a) + 1) == U64(a + 1)
  {
  }

  lemma RunPrefix(c: Config, disk: seq<byte>, states: seq<State>, acts: seq<Action>)
    requires IsRun(c, disk, states, acts) && acts != []
    ensures |states| == |acts| + 1 && IsRun(c, disk, states[..|acts|], acts[..|acts| - 1])
    ensures Enabled(c, states[|acts| - 1], acts[|acts| - 1])
    ensures Step(c, states[|acts| - 1], acts[|acts| - 1]) == Ok(states[|acts|])
  {
    hide Init, Step, Enabled;
  }

  // What one action does to uids: a Slice gives one, nothing else does.
  lemma UidsAfter(c: Config, s: State, a: Action, j: nat)
    requires Enabled(c, s, a) && Step(c, s, a).Ok?
    ensures var s' := Step(c, s, a).s;
            && s'.counter == (if a.Slice? then U64(s.counter + 1) else s.counter)
            && |s.entries| <= |s'.entries|
            && (j < |s'.entries| && !s'.entries[j].phase.Queued? ==>
                  j < |s.entries| && (s.entries[j].phase.Queued? ==> a == Slice(j))
                  && s'.entries[j].uid == if a == Slice(j) then U32(s.counter) else s.entries[j].uid)
  {
    hide Splice, HeaderOf, BlockAt, BlockNo, Device, ServeFrame, DropRequest, UidFree, Compatible, U64, U32;
    match a {
      case Release(i) =>
        DropKeepsUids(s.(entries := s.entries[i := s.entries[i].(phase := Released)]), i);
      case DropSlicer(i) =>
        var e := s.entries[i].(slicerUses := s.entries[i].slicerUses - 1);
        if e.slicerUses == 0 {
          DropKeepsUids(s.(entries := s.entries[i := e], releasing := s.releasing - multiset{i}), i);
        }
      case _ =>
    }
  }

  lemma DropKeepsUids(s: State, i: nat)
    requires i < |s.entries| && DropRequest(s, i).Ok?
    ensures var s' := DropRequest(s, i).s;
            && s'.counter == s.counter && |s'.entries| == |s.entries|
            && forall j :: 0 <= j < |s.entries| ==> s'.entries[j].uid == s.entries[j].uid && s'.entries[j].phase == s.entries[j].phase
  {
  }

  lemma {:induction false} UidIsItsTurn(c: Config, disk: seq<byte>, states: seq<State>, acts: seq<Action>, j: nat) returns (p: nat)
    requires IsRun(c, disk, states, acts)
    ensures states[|acts|].counter == U64(Slices(acts))
    ensures j < |states[|acts|].entries| && !states[|acts|].entries[j].phase.Queued? ==>
              SlicedAt(acts, p, j) && states[|acts|].entries[j].uid == U32(Slices(acts[..p]))
  {
    hide Step, Enabled, IsRun, U32, U64;
    if acts != [] {
      var last := |acts| - 1;
      RunPrefix(c, disk, states, acts);
      p := UidIsItsTurn(c, disk, states[..|acts|], acts[..last], j);
      UidsAfter(c, states[last], acts[last], j);
      UidCollisions(Slices(acts[..last]), 0);
      if acts[last] == Slice(j) {
        p := last;
      } else if p < last {
        assert acts[..last][..p] == acts[..p];
      }
    } else {
      p := 0;
      StartsAtZero(c, disk, states, acts);
      UidCollisions(0, 0);
    }
  }

  lemma StartsAtZero(c: Config, disk: seq<byte>, states: seq<State>, acts: seq<Action>)
    requires IsRun(c, disk, states, acts)
    ensures |states| == |acts| + 1 && states[0].counter == U64(0) && states[0].entries == []
  {
  }

  lemma {:induction false} SlicesGrow(acts: seq<Action>, p: nat)
    requires p < |acts| && acts[p].Slice?
    ensures Slices(acts[..p]) < Slices(acts)
    decreases |acts|
  {
    var before := acts[..|acts| - 1];
    if p < |acts| - 1 {
      SlicesGrow(before, p);
      assert before[..p] == acts[..p];
    }
  }

  lemma LiveUidIsNotNext(c: Config, disk: seq<byte>, states: seq<State>, acts: seq<Action>, j: nat)
    requires IsRun(c, disk, states, acts) && j < |states[|acts|].entries| && !states[|acts|].entries[j].phase.Queued?
    requires forall p: nat :: SlicedAt(acts, p, j) ==> Slices(acts) - Slices(acts[..p]) < 0x1_0000_0000
    ensures states[|acts|].entries[j].uid != U32(states[|acts|].counter)
  {
    hide IsRun, U32, U64;
    var p := UidIsItsTurn(c, disk, states, acts, j);
    SlicesGrow(acts, p);
    UidCollisions(Slices(acts), Slices(acts[..p]));
  }

  // If the live slicers lie within 2^32 consecutive ones, the next uid is free.
  lemma WindowKeepsUidsFree(c: Config, disk: seq<byte>, states: seq<State>, acts: seq<Action>)
    requires IsRun(c, disk, states, acts)
    requires forall p: nat, j: nat :: SlicedAt(acts, p, j) && Live(states[|acts|], j) ==> Slices(acts) - Slices(acts[..p]) < 0x1_0000_0000
    ensures UidFree(states[|acts|], U32(states[|acts|].counter))
  {
    hide Init, Step, Enabled, EntriesInv, ChannelsInv, DoneInv, DiskInv, LogInv, U32, U64, Slices;
    var s := states[|acts|];
    var h := RunHistory(c, disk, states, acts);
    forall j | 0 <= j < |s.entries| && Live(s, j) ensures s.entries[j].uid != U32(s.counter) {
      InMapIsListed(c, disk, s, h, j);
      LiveUidIsNotNext(c, disk, states, acts, j);
    }
    forall u | u in s.slicerMap ensures u != U32(s.counter) {
      assert Live(s, s.slicerMap[u]);
    }
  }
}
