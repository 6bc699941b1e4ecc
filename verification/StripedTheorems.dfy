// What holds of every run of the striped device, in terms of its states alone.
module StripedTheorems {
  import opened Bytes
  import opened Striping
  import opened FlatDisk
  import opened Atlas
  import opened StripedDisk
  import opened StripedInvariant
  import opened StripedSteps
  import opened StripedMessages

  lemma StepKeeps(c: Config, disk: seq<byte>, s: State, h: History, a: Action)
    requires Inv(c, disk, s, h) && Allowed(c, s, a)
    ensures Step(c, s, a).Ok? && Inv(c, disk, Step(c, s, a).s, Track(c, s, h, a))
  {
    hide Inv;
    match a {
      case Accept(r) => AcceptKeeps(c, disk, s, h, r);
      case Slice(i) => SliceKeeps(c, disk, s, h, i);
      case Register(i) => RegisterKeeps(c, disk, s, h, i);
      case SendNext(i) => SendKeeps(c, disk, s, h, i);
      case Release(i) => ReleaseKeeps(c, disk, s, h, i);
      case Serve(d) => ServeKeeps(c, disk, s, h, d);
      case Receive(d, garbage) => ReceiveKeeps(c, disk, s, h, d, garbage);
      case Merge(t) => MergeKeeps(c, disk, s, h, t);
      case DropSlicer(i) => DropSlicerKeeps(c, disk, s, h, i);
    }
  }

  lemma {:induction false} RunHistory(c: Config, disk: seq<byte>, states: seq<State>, acts: seq<Action>) returns (h: History)
    requires IsRun(c, disk, states, acts)
    ensures Inv(c, disk, states[|acts|], h)
  {
    hide Inv, Init, Step, Enabled, Track;
    if acts == [] {
      h := History([], map[]);
      InitInv(c, disk, states[0]);
    } else {
      var last := |acts| - 1;
      assert IsRun(c, disk, states[..|states| - 1], acts[..last]);
      var before := RunHistory(c, disk, states[..|states| - 1], acts[..last]);
      StepKeeps(c, disk, states[last], before, acts[last]);
      h := Track(c, states[last], before, acts[last]);
    }
  }

  // No interleaving makes the daemon follow a null slicer, leave a buffer, use one after its request was completed,
  // or overwrite a slicer that is still waiting for replies.
  lemma NothingBreaks(c: Config, disk: seq<byte>, states: seq<State>, acts: seq<Action>, a: Action)
    requires IsRun(c, disk, states, acts) && Allowed(c, states[|acts|], a)
    ensures Step(c, states[|acts|], a).Ok?
  {
    hide Inv, Init, Step;
    var h := RunHistory(c, disk, states, acts);
    StepKeeps(c, disk, states[|acts|], h, a);
  }

  // ---------- what a run is about ----------

  // The log is what the kernel handed over, in order.
  lemma LogIsWhatTheKernelAsked(c: Config, disk: seq<byte>, states: seq<State>, acts: seq<Action>, j: nat)
    requires IsRun(c, disk, states, acts) && j < |acts|
    ensures states[0].log == []
    ensures states[j + 1].log == states[j].log + if acts[j].Accept? then [acts[j].r] else []
  {
    hide Shows;
    assert Step(c, states[j], acts[j]) == Ok(states[j + 1]);
    StepLogs(c, states[j], acts[j]);
  }

  lemma StepLogs(c: Config, s: State, a: Action)
    requires Enabled(c, s, a) && Step(c, s, a).Ok?
    ensures Step(c, s, a).s.log == s.log + if a.Accept? then [a.r] else []
  {
    hide Splice, BlockAt, HeaderOf, Device, Offset, ServeFrame;
  }

  // Every request of whole fragments inside the device is taken, at any time, unless it overlaps one in flight and one of
  // the two is a WRITE.
  lemma WholeRequestsAreTaken(c: Config, s: State, r: Request)
    requires |r.data| == r.len && r.from + r.len <= c.size && r.from % 1024 == 0 && r.len % 1024 == 0
    requires |s.log| == |s.entries|
    requires forall j :: 0 <= j < |s.log| && s.entries[j].requestUses > 0 ==>
               s.log[j].from + s.log[j].len <= r.from || r.from + r.len <= s.log[j].from || (s.log[j].cmd.Read? && r.cmd.Read?)
               || s.log[j].cmd.Disc? || s.log[j].cmd.Flush? || s.log[j].cmd.Trim? || r.cmd.Disc? || r.cmd.Flush? || r.cmd.Trim?
    ensures Allowed(c, s, Accept(r))
  {
  }

  // Nothing waits for anything but its own turn: any message on any socket, any reply task and any request task can be next.
  lemma AnyInterleaving(c: Config, s: State)
    ensures forall d: nat :: d < |s.toDev| && s.toDev[d] != [] ==> Allowed(c, s, Serve(d))
    ensures forall d: nat, garbage: seq<byte> :: d < |s.fromDev| && s.fromDev[d] != [] && |garbage| == s.fromDev[d][0].hdr.dataLen ==>
              Allowed(c, s, Receive(d, garbage))
    ensures forall t: nat :: t < |s.tasks| ==> Allowed(c, s, Merge(t))
    ensures forall i: nat :: i in s.releasing ==> Allowed(c, s, DropSlicer(i))
    ensures forall i: nat :: i < |s.log| == |s.entries| && s.entries[i].phase.Sliced? ==> Allowed(c, s, Register(i))
    ensures forall i: nat :: i < |s.log| == |s.entries| && s.entries[i].phase.Sending? ==>
              (s.entries[i].phase.next < s.log[i].len / 1024 ==> Allowed(c, s, SendNext(i)))
              && (s.entries[i].phase.next == s.log[i].len / 1024 ==> Allowed(c, s, Release(i)))
  {
  }

  // ---------- refinement of the flat disk ----------

  predicate Completed(s: State, i: nat) {
    exists p :: 0 <= p < |s.done| && s.done[p].index == i
  }

  predicate WriteInFlightAt(s: State, j: nat, b: nat) {
    j < |s.log| && InFlight(s, j) && s.log[j].cmd.Write? && Within(b, BlockNo(s.log[j], 0), Fragments(s.log[j]))
  }

  // Whatever the interleaving, every request is answered exactly as the flat disk answers it when it serves the same
  // requests one after the other, and each is answered once.
  lemma AnswersAreThoseOfTheFlatDisk(c: Config, disk: seq<byte>, states: seq<State>, acts: seq<Action>)
    requires IsRun(c, disk, states, acts)
    ensures var s := states[|acts|];
            && AllFit(s.log, |disk|)
            && (forall p :: 0 <= p < |s.done| ==> s.done[p].index < |s.log| && s.done[p].payload == Want(disk, s.log, s.done[p].index))
            && (forall p, q :: 0 <= p < q < |s.done| ==> s.done[p].index != s.done[q].index)
  {
    hide Init, Step, Enabled, Want, After, EntriesInv, MapInv, ChannelsInv, DiskInv;
    var h := RunHistory(c, disk, states, acts);
  }

  lemma OwnedBlocksAreInFlight(c: Config, disk: seq<byte>, s: State, h: History, b: nat)
    requires Inv(c, disk, s, h) && b in h.owner
    ensures WriteInFlightAt(s, h.owner[b].0, b)
  {
    hide EntriesInv, MapInv, ChannelsInv, DoneInv, StoredBlock, UnservedInv, Want, After;
    assert OwnerInv(s.log, h.stage, b, h.owner[b]);
    EntryFacts(c, disk, s, h, h.owner[b].0);
    UnservedIsInFlight(c, disk, s, h, h.owner[b].0, h.owner[b].1);
  }

  // The striped storage is the flat disk, but for blocks that a Write still in flight is about to replace.
  lemma StorageIsTheFlatDisk(c: Config, disk: seq<byte>, states: seq<State>, acts: seq<Action>, b: nat)
    requires IsRun(c, disk, states, acts) && b < c.size / FRAGMENT
    requires forall j :: 0 <= j < |states[|acts|].log| ==> !WriteInFlightAt(states[|acts|], j, b)
    ensures var s := states[|acts|];
            && |disk| == c.size && AllFit(s.log, |disk|) && StorageShape(c, s.storage)
            && StoredBlock(c, s.storage, b) == BlockAt(After(disk, s.log), b * FRAGMENT)
  {
    hide Init, Step, Enabled, Want, After, EntriesInv, MapInv, ChannelsInv, DoneInv, StoredBlock, UnservedInv;
    var s := states[|acts|];
    var h := RunHistory(c, disk, states, acts);
    if b in h.owner {
      OwnedBlocksAreInFlight(c, disk, s, h, b);
    }
  }

  // So once no Write is in flight the servers hold the whole flat disk between them.
  lemma QuietStorageIsTheFlatDisk(c: Config, disk: seq<byte>, states: seq<State>, acts: seq<Action>)
    requires IsRun(c, disk, states, acts)
    requires forall j :: 0 <= j < |states[|acts|].log| && states[|acts|].log[j].cmd.Write? ==> !InFlight(states[|acts|], j)
    ensures AllFit(states[|acts|].log, |disk|) && Shows(c, states[|acts|].storage, After(disk, states[|acts|].log))
  {
    hide Init, Step, Enabled, Want, After, StoredBlock, EntriesInv, MapInv, ChannelsInv, DoneInv, DiskInv;
    var s := states[|acts|];
    var h := RunHistory(c, disk, states, acts);
    DiskShape(c, disk, s.log, h.stage, h.owner, s.storage);
    forall b: nat | b < c.size / FRAGMENT ensures StoredBlock(c, s.storage, b) == BlockAt(After(disk, s.log), b * FRAGMENT) {
      StorageIsTheFlatDisk(c, disk, states, acts, b);
    }
  }

  // The servers calloc their storage: they show a disk of zeros.
  lemma FreshServersShowZeros(c: Config, storage: seq<seq<byte>>)
    requires StorageShape(c, storage)
    requires forall d, j :: 0 <= d < c.n && 0 <= j < CAPACITY ==> storage[d][j] == 0
    ensures Shows(c, storage, seq(c.size, _ => 0))
  {
    var zeros: seq<byte> := seq(c.size, _ => 0);
    forall b: nat | b < c.size / FRAGMENT ensures StoredBlock(c, storage, b) == BlockAt(zeros, b * FRAGMENT) {
      var block := StoredBlock(c, storage, b);
      Footprint(c.size / FRAGMENT, b, c.n);
      assert forall j :: 0 <= j < FRAGMENT ==> block[j] == storage[Device(b, c.n)][Offset(b, c.n) + j];
    }
  }

  // ---------- accounting ----------

  predicate OnSomePlace(s: State, key: (u32, nat)) {
    || (exists d :: 0 <= d < |s.toDev| && key in Keys(s.toDev[d]))
    || (exists d :: 0 <= d < |s.fromDev| && key in Keys(s.fromDev[d]))
    || key in Keys(s.tasks)
  }

  // The fragments of request i that are still to be sent, or on a socket, or in a reply task.
  function Pending(s: State, i: nat): set<nat>
    requires i < |s.log| && i < |s.entries|
  {
    set k: nat | k < Fragments(s.log[i])
                 && (k >= Passed(s.entries[i].phase, Fragments(s.log[i])) || OnSomePlace(s, (s.entries[i].uid, k)))
  }

  lemma KeyIsLocated(c: Config, disk: seq<byte>, s: State, h: History, sq: seq<Frame>, at: Stage, dev: int, i: nat, k: nat)
    requires Inv(c, disk, s, h) && Place(c, disk, s.log, Uids(s.entries), h.stage, s.slicerMap, sq, at, dev) && !at.Unsent?
    requires i < |s.log| && k < |h.stage[i]| && (s.entries[i].uid, k) in Keys(sq) && Listed(s.entries[i].phase, h.stage[i])
    ensures h.stage[i][k] == at
  {
    hide EntriesInv, MapInv, DoneInv, ChannelsInv, DiskInv, LogInv, Place;
    var p :| 0 <= p < |sq| && Key(sq[p]) == (s.entries[i].uid, k);
    Message(c, disk, s, h, sq, at, dev, p);
    ListedInMap(c, disk, s, h, i);
  }

  lemma PlaceOf(c: Config, disk: seq<byte>, s: State, h: History, i: nat, k: nat)
    requires Inv(c, disk, s, h) && i < |s.log| && k < |h.stage[i]| && !h.stage[i][k].Unsent? && !h.stage[i][k].Merged?
    ensures OnSomePlace(s, (s.entries[i].uid, k))
  {
    hide EntriesInv, MapInv, DoneInv, DiskInv, LogInv, Located, Distinct, Keys;
    var d := Device(BlockNo(s.log[i], k), c.n);
    if h.stage[i][k].Requested? {
      assert Place(c, disk, s.log, Uids(s.entries), h.stage, s.slicerMap, s.toDev[d], Requested, d);
    } else if h.stage[i][k].Answered? {
      assert Place(c, disk, s.log, Uids(s.entries), h.stage, s.slicerMap, s.fromDev[d], Answered, d);
    }
  }

  lemma OnlyPlaces(c: Config, disk: seq<byte>, s: State, h: History, i: nat, k: nat)
    requires Inv(c, disk, s, h) && i < |s.log| && k < |h.stage[i]| && OnSomePlace(s, (s.entries[i].uid, k))
    requires Listed(s.entries[i].phase, h.stage[i])
    ensures !h.stage[i][k].Unsent? && !h.stage[i][k].Merged?
  {
    hide EntriesInv, MapInv, DoneInv, DiskInv, LogInv, Place, Keys, Listed;
    var key := (s.entries[i].uid, k);
    if d :| 0 <= d < |s.toDev| && key in Keys(s.toDev[d]) {
      KeyIsLocated(c, disk, s, h, s.toDev[d], Requested, d, i, k);
    } else if d :| 0 <= d < |s.fromDev| && key in Keys(s.fromDev[d]) {
      KeyIsLocated(c, disk, s, h, s.fromDev[d], Answered, d, i, k);
    } else {
      KeyIsLocated(c, disk, s, h, s.tasks, Arrived, -1, i, k);
    }
  }

  lemma PendingIsUnmerged(c: Config, disk: seq<byte>, s: State, h: History, i: nat)
    requires Inv(c, disk, s, h) && i < |s.log| && Carries(s.log[i].cmd) && Listed(s.entries[i].phase, h.stage[i])
    ensures Pending(s, i) == Unmerged(h.stage[i])
  {
    hide EntriesInv, MapInv, DoneInv, ChannelsInv, DiskInv, LogInv, OnSomePlace, Listed;
    EntryFacts(c, disk, s, h, i);
    forall k: nat | k < |h.stage[i]| ensures k in Pending(s, i) <==> k in Unmerged(h.stage[i]) {
      if !h.stage[i][k].Unsent? && !h.stage[i][k].Merged? {
        PlaceOf(c, disk, s, h, i, k);
      }
      if OnSomePlace(s, (s.entries[i].uid, k)) {
        OnlyPlaces(c, disk, s, h, i, k);
      }
    }
  }

  predicate InMap(s: State, i: nat) {
    i < |s.entries| && s.entries[i].uid in s.slicerMap && s.slicerMap[s.entries[i].uid] == i
  }

  lemma InMapIsListed(c: Config, disk: seq<byte>, s: State, h: History, i: nat)
    requires Inv(c, disk, s, h) && i < |s.log|
    ensures InMap(s, i) <==> Listed(s.entries[i].phase, h.stage[i])
  {
    hide EntriesInv, DoneInv, ChannelsInv, DiskInv, LogInv;
  }

  // While a Read or a Write waits for replies its slicer is in the map and m_countSlices is the number of its fragments
  // that are unsent or on their way; once registered it is there exactly as long as there is one of those.
  lemma CountIsWhatIsPending(c: Config, disk: seq<byte>, states: seq<State>, acts: seq<Action>, i: nat)
    requires IsRun(c, disk, states, acts) && i < |states[|acts|].log| && Carries(states[|acts|].log[i].cmd)
    ensures var s := states[|acts|];
            && |s.log| == |s.entries|
            && (InMap(s, i) ==> s.entries[i].count == |Pending(s, i)|)
            && (!InMap(s, i) && (s.entries[i].phase.Sending? || s.entries[i].phase.Released?) ==> s.entries[i].count == 0)
            && (s.entries[i].phase.Sending? || s.entries[i].phase.Released? ==>
                  (InMap(s, i) <==> Fragments(s.log[i]) == 0 || s.entries[i].count > 0))
  {
    hide Init, Step, Enabled, EntriesInv, MapInv, DoneInv, ChannelsInv, DiskInv, LogInv, Pending;
    var s := states[|acts|];
    var h := RunHistory(c, disk, states, acts);
    EntryFacts(c, disk, s, h, i);
    InMapIsListed(c, disk, s, h, i);
    OutstandingCounts(h.stage[i]);
    OutstandingZero(h.stage[i]);
    if Listed(s.entries[i].phase, h.stage[i]) {
      PendingIsUnmerged(c, disk, s, h, i);
    }
  }

  lemma PlacesAreDisjoint(c: Config, disk: seq<byte>, log: seq<Request>, uids: seq<u32>, stage: seq<seq<Stage>>, slicerMap: map<u32, nat>,
                          a: seq<Frame>, atA: Stage, devA: int, b: seq<Frame>, atB: Stage, devB: int)
    requires LogInv(c, disk, log)
    requires Place(c, disk, log, uids, stage, slicerMap, a, atA, devA) && Place(c, disk, log, uids, stage, slicerMap, b, atB, devB)
    requires atA != atB || (devA >= 0 && devB >= 0 && devA != devB)
    ensures Keys(a) !! Keys(b)
  {
    hide PayloadInv, HeaderOf;
    forall p, q | 0 <= p < |a| && 0 <= q < |b| ensures Key(a[p]) != Key(b[q]) {
      assert Located(c, disk, log, stage, slicerMap, a[p], atA, devA) && Located(c, disk, log, stage, slicerMap, b[q], atB, devB);
    }
  }

  // Every message belongs to a slicer that is in the map, and no two messages are about the same fragment, whichever sockets
  // of whichever servers they are on.
  lemma EveryMessageHasItsSlicer(c: Config, disk: seq<byte>, states: seq<State>, acts: seq<Action>, d: nat, e: nat)
    requires IsRun(c, disk, states, acts) && d < c.n && e < c.n
    ensures var s := states[|acts|];
            && |s.toDev| == |s.fromDev| == c.n
            && (forall p :: 0 <= p < |s.toDev[d]| ==> s.toDev[d][p].hdr.uid in s.slicerMap)
            && (forall p :: 0 <= p < |s.fromDev[d]| ==> s.fromDev[d][p].hdr.uid in s.slicerMap)
            && (forall p :: 0 <= p < |s.tasks| ==> s.tasks[p].hdr.uid in s.slicerMap)
            && Distinct(s.toDev[d]) && Distinct(s.fromDev[d]) && Distinct(s.tasks)
            && Keys(s.toDev[d]) !! Keys(s.fromDev[e]) && Keys(s.toDev[d]) !! Keys(s.tasks) && Keys(s.fromDev[d]) !! Keys(s.tasks)
            && (d != e ==> Keys(s.toDev[d]) !! Keys(s.toDev[e]) && Keys(s.fromDev[d]) !! Keys(s.fromDev[e]))
  {
    hide Init, Step, Enabled, EntriesInv, MapInv, DoneInv, DiskInv, LogInv, PayloadInv, Keys;
    var s := states[|acts|];
    var h := RunHistory(c, disk, states, acts);
    var uids := Uids(s.entries);
    assert Place(c, disk, s.log, uids, h.stage, s.slicerMap, s.toDev[d], Requested, d);
    assert Place(c, disk, s.log, uids, h.stage, s.slicerMap, s.fromDev[d], Answered, d);
    assert Place(c, disk, s.log, uids, h.stage, s.slicerMap, s.toDev[e], Requested, e);
    assert Place(c, disk, s.log, uids, h.stage, s.slicerMap, s.fromDev[e], Answered, e);
    PlacesAreDisjoint(c, disk, s.log, uids, h.stage, s.slicerMap, s.toDev[d], Requested, d, s.fromDev[e], Answered, e);
    PlacesAreDisjoint(c, disk, s.log, uids, h.stage, s.slicerMap, s.toDev[d], Requested, d, s.tasks, Arrived, -1);
    PlacesAreDisjoint(c, disk, s.log, uids, h.stage, s.slicerMap, s.fromDev[d], Answered, d, s.tasks, Arrived, -1);
    if d != e {
      PlacesAreDisjoint(c, disk, s.log, uids, h.stage, s.slicerMap, s.toDev[d], Requested, d, s.toDev[e], Requested, e);
      PlacesAreDisjoint(c, disk, s.log, uids, h.stage, s.slicerMap, s.fromDev[d], Answered, d, s.fromDev[e], Answered, e);
    }
  }

  // A WRITE frame carries the bytes the kernel handed over, although replies to other fragments of the same request
  // have filled its buffer with unspecified bytes.
  lemma WritesTravelUnharmed(c: Config, disk: seq<byte>, states: seq<State>, acts: seq<Action>, d: nat, p: nat)
    requires IsRun(c, disk, states, acts) && d < |states[|acts|].toDev| && p < |states[|acts|].toDev[d]|
    requires states[|acts|].toDev[d][p].hdr.kind == WRITE
    ensures var s := states[|acts|]; var f := s.toDev[d][p];
            && f.hdr.uid in s.slicerMap && s.slicerMap[f.hdr.uid] < |s.log|
            && var r := s.log[s.slicerMap[f.hdr.uid]];
            && r.cmd.Write? && |r.data| == r.len && f.hdr.frag * FRAGMENT + FRAGMENT <= r.len
            && f.data == BlockAt(r.data, f.hdr.frag * FRAGMENT)
            && f.hdr.offset == Offset(BlockNo(r, f.hdr.frag), c.n) && d == Device(BlockNo(r, f.hdr.frag), c.n)
  {
    hide Init, Step, Enabled, EntriesInv, MapInv, DoneInv, DiskInv, LogInv, Place, Device, Offset;
    var s := states[|acts|];
    var h := RunHistory(c, disk, states, acts);
    var f := s.toDev[d][p];
    Message(c, disk, s, h, s.toDev[d], Requested, d, p);
    HeaderFields(c, s.log[s.slicerMap[f.hdr.uid]], f.hdr.uid, f.hdr.frag);
    Blockwise(s.log[s.slicerMap[f.hdr.uid]], f.hdr.frag);
  }

  // ---------- completion ----------

  lemma CompletedWhenUnused(c: Config, disk: seq<byte>, s: State, h: History, i: nat)
    requires Inv(c, disk, s, h) && i < |s.log|
    ensures Completed(s, i) <==> s.entries[i].requestUses == 0
  {
    hide EntriesInv, MapInv, ChannelsInv, DiskInv, LogInv, Want;
  }

  // NbdRequestDone runs only for a Read or a Write with a fragment, after the task that sent it is gone, after all its
  // replies have been merged, and when no reply task holds its slicer any more.
  lemma CompletionComesLast(c: Config, disk: seq<byte>, states: seq<State>, acts: seq<Action>, i: nat)
    requires IsRun(c, disk, states, acts) && i < |states[|acts|].log| && Completed(states[|acts|], i)
    ensures var s := states[|acts|];
            && i < |s.entries| && Carries(s.log[i].cmd) && Fragments(s.log[i]) > 0
            && s.entries[i].phase.Released? && s.entries[i].count == 0 && !InMap(s, i) && i !in s.releasing
  {
    hide Init, Step, Enabled, EntriesInv, MapInv, DoneInv, ChannelsInv, DiskInv, LogInv, InMap;
    var s := states[|acts|];
    var h := RunHistory(c, disk, states, acts);
    CompletedWhenUnused(c, disk, s, h, i);
    EntryFacts(c, disk, s, h, i);
    InMapIsListed(c, disk, s, h, i);
    OutstandingZero(h.stage[i]);
  }

  // Nothing is left to run.
  predicate Idle(s: State) {
    && (forall i :: 0 <= i < |s.entries| ==> s.entries[i].phase.Released?)
    && (forall d :: 0 <= d < |s.toDev| ==> s.toDev[d] == [])
    && (forall d :: 0 <= d < |s.fromDev| ==> s.fromDev[d] == [])
    && s.tasks == [] && s.releasing == multiset{}
  }

  lemma IdleHasNoKeys(s: State, key: (u32, nat))
    requires Idle(s)
    ensures !OnSomePlace(s, key)
  {
  }

  // When everything has run, the requests that have been completed are exactly the Reads and Writes of at least one
  // fragment: the original program completes every request, the striped one leaves the others hanging.
  lemma IdleCompletions(c: Config, disk: seq<byte>, states: seq<State>, acts: seq<Action>, i: nat)
    requires IsRun(c, disk, states, acts) && Idle(states[|acts|]) && i < |states[|acts|].log|
    ensures Completed(states[|acts|], i) <==> Carries(states[|acts|].log[i].cmd) && states[|acts|].log[i].len >= FRAGMENT
  {
    hide Init, Step, Enabled, EntriesInv, MapInv, DoneInv, ChannelsInv, DiskInv, LogInv, OnSomePlace, Completed;
    var s := states[|acts|];
    var h := RunHistory(c, disk, states, acts);
    CompletedWhenUnused(c, disk, s, h, i);
    EntryFacts(c, disk, s, h, i);
    OutstandingZero(h.stage[i]);
    forall k | 0 <= k < |h.stage[i]| && !h.stage[i][k].Unsent? ensures h.stage[i][k].Merged? {
      if !h.stage[i][k].Merged? {
        PlaceOf(c, disk, s, h, i, k);
        IdleHasNoKeys(s, (s.entries[i].uid, k));
      }
    }
  }
}
