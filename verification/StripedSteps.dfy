// Every action keeps the invariant, and none of them is Broken.
module StripedSteps {
  import opened Bytes
  import opened Striping
  import opened FlatDisk
  import opened Atlas
  import opened StripedDisk
  import opened StripedInvariant
  import opened StripedPlaces
  import opened StripedEntries

  // ---------- accept ----------

  lemma WantUnchanged(disk: seq<byte>, log: seq<Request>, r: Request, i: nat)
    requires AllFit(log, |disk|) && Fits(r, |disk|) && i < |log|
    ensures AllFit(log + [r], |disk|) && Want(disk, log + [r], i) == Want(disk, log, i)
  {
    assert (log + [r])[..i] == log[..i];
  }

  lemma EffectOnBlock(c: Config, flat: seq<byte>, r: Request, b: nat)
    requires |flat| == c.size && Legal(c, r) && b < c.size / FRAGMENT
    ensures r.cmd.Write? && Within(b, BlockNo(r, 0), Fragments(r))
            ==> BlockAt(Effect(flat, r), b * FRAGMENT) == BlockAt(r.data, (b - BlockNo(r, 0)) * FRAGMENT)
    ensures !(r.cmd.Write? && Within(b, BlockNo(r, 0), Fragments(r))) ==> BlockAt(Effect(flat, r), b * FRAGMENT) == BlockAt(flat, b * FRAGMENT)
  {
    if r.cmd.Write? {
      SpliceBlocks(flat, r.from, r.data, b * FRAGMENT);
    }
  }

  // A block that an unserved fragment of a compatible request needs is not touched by the new one.
  lemma NoClash(c: Config, a: Request, r: Request, k: nat)
    requires Legal(c, a) && Legal(c, r) && !Conflict(a, r) && k < Fragments(a) && Carries(a.cmd) && Carries(r.cmd)
    ensures Within(BlockNo(a, k), BlockNo(r, 0), Fragments(r)) ==> a.cmd.Read? && r.cmd.Read?
  {
  }

  // An older fragment that is still unserved needs nothing the new request changes.
  lemma AcceptOld(c: Config, disk: seq<byte>, log: seq<Request>, owner: map<nat, (nat, nat)>, flat: seq<byte>, r: Request, j: nat, k: nat)
    requires LogInv(c, disk, log) && Legal(c, r) && |flat| == c.size && LogInv(c, disk, log + [r])
    requires j < |log| && k < Fragments(log[j]) && UnservedInv(c, disk, log, owner, flat, j, k)
    requires !Conflict(log[j], r)
    ensures UnservedInv(c, disk, log + [r], owner + Owners(r, |log|), Effect(flat, r), j, k)
  {
    hide LogInv, Effect, Want, After;
    EffectOnBlock(c, flat, r, BlockNo(log[j], k)) by {
      EndInRange(c, log[j], k) by { LegalAt(c, disk, log, j); }
    }
    WantUnchanged(disk, log, r, j) by { AllLegalFit(c, disk, log); }
    if Carries(log[j].cmd) && Carries(r.cmd) {
      NoClash(c, log[j], r, k) by { LegalAt(c, disk, log, j); }
    }
  }

  lemma LegalAt(c: Config, disk: seq<byte>, log: seq<Request>, j: nat)
    requires LogInv(c, disk, log) && j < |log|
    ensures Legal(c, log[j])
  {
  }

  lemma AllLegalFit(c: Config, disk: seq<byte>, log: seq<Request>)
    requires LogInv(c, disk, log)
    ensures AllFit(log, |disk|) && |disk| == c.size
  {
  }

  lemma EndInRange(c: Config, r: Request, k: nat)
    requires Legal(c, r) && k < Fragments(r)
    ensures BlockNo(r, k) < c.size / FRAGMENT
  {
  }

  // The new request sees the flat disk as all the older ones leave it.
  lemma AcceptNew(c: Config, disk: seq<byte>, log: seq<Request>, owner: map<nat, (nat, nat)>, r: Request, k: nat)
    requires LogInv(c, disk, log) && Legal(c, r) && LogInv(c, disk, log + [r]) && k < Fragments(r)
    requires r.cmd.Read? ==> BlockNo(r, k) !in owner
    ensures UnservedInv(c, disk, log + [r], owner + Owners(r, |log|), Effect(After(disk, log), r), |log|, k)
  {
    var flat := After(disk, log);
    EffectOnBlock(c, flat, r, BlockNo(r, k));
    assert (log + [r])[..|log|] == log;
    if r.cmd.Read? {
      assert BlockNo(r, k) * FRAGMENT == r.from + k * FRAGMENT;
      BlockOfSlice(flat, r.from, r.len, k * FRAGMENT);
    }
  }

  predicate NoConflicts(log: seq<Request>, stage: seq<seq<Stage>>, r: Request)
    requires |log| == |stage|
  {
    forall j, k :: 0 <= j < |log| && 0 <= k < |stage[j]| && Unserved(stage[j][k]) ==> !Conflict(log[j], r)
  }

  lemma ReadIsNotOwned(c: Config, disk: seq<byte>, log: seq<Request>, stage: seq<seq<Stage>>, owner: map<nat, (nat, nat)>,
                       storage: seq<seq<byte>>, r: Request, k: nat)
    requires LogInv(c, disk, log) && DiskInv(c, disk, log, stage, owner, storage) && Legal(c, r)
    requires NoConflicts(log, stage, r) && r.cmd.Read? && k < Fragments(r)
    ensures BlockNo(r, k) !in owner
  {
    var b := BlockNo(r, k);
    if b in owner {
      assert OwnerInv(log, stage, b, owner[b]);
      NoClash(c, log[owner[b].0], r, owner[b].1);
    }
  }

  lemma AcceptDisk(c: Config, disk: seq<byte>, log: seq<Request>, stage: seq<seq<Stage>>, owner: map<nat, (nat, nat)>,
                   storage: seq<seq<byte>>, r: Request)
    requires LogInv(c, disk, log) && DiskInv(c, disk, log, stage, owner, storage) && Legal(c, r)
    requires NoConflicts(log, stage, r)
    ensures LogInv(c, disk, log + [r])
    ensures DiskInv(c, disk, log + [r], stage + [AllUnsent(Fragments(r))], owner + Owners(r, |log|), storage)
  {
    hide After, Effect, Want, UnservedInv, StoredBlock, BlockAt, Conflict;
    var i := |log|;
    var log', stage', owner' := log + [r], stage + [AllUnsent(Fragments(r))], owner + Owners(r, i);
    assert LogInv(c, disk, log');
    var flat, flat' := After(disk, log), Effect(After(disk, log), r);
    AfterOneMore(disk, log, r);
    forall b: nat | b < c.size / FRAGMENT && b !in owner' ensures StoredBlock(c, storage, b) == BlockAt(flat', b * FRAGMENT) {
      EffectOnBlock(c, flat, r, b);
    }
    forall b | b in owner' ensures OwnerInv(log', stage', b, owner'[b]) {
      assert b !in Owners(r, i) ==> OwnerInv(log, stage, b, owner[b]);
    }
    forall j, k | 0 <= j < |log'| && 0 <= k < |stage'[j]| && Unserved(stage'[j][k])
      ensures UnservedInv(c, disk, log', owner', flat', j, k)
    {
      if j < i {
        assert stage'[j] == stage[j] && UnservedInv(c, disk, log, owner, flat, j, k);
        AcceptOld(c, disk, log, owner, flat, r, j, k);
      } else {
        if r.cmd.Read? {
          ReadIsNotOwned(c, disk, log, stage, owner, storage, r, k);
        }
        AcceptNew(c, disk, log, owner, r, k);
      }
    }
  }

  lemma AcceptEntries(c: Config, disk: seq<byte>, log: seq<Request>, entries: seq<Entry>, stage: seq<seq<Stage>>,
                      releasing: multiset<nat>, r: Request)
    requires LogInv(c, disk, log) && |log| == |entries| == |stage| && EntriesInv(c, disk, log, entries, stage, releasing) && Legal(c, r)
    ensures LogInv(c, disk, log + [r])
    ensures EntriesInv(c, disk, log + [r], entries + [Entry(Queued, 0, 0, r.data, 0, 1)], stage + [AllUnsent(Fragments(r))], releasing)
  {
    var log', entries', stage' := log + [r], entries + [Entry(Queued, 0, 0, r.data, 0, 1)], stage + [AllUnsent(Fragments(r))];
    forall i | 0 <= i < |log'| ensures EntryInv(log'[i], entries'[i], stage'[i], releasing[i], Want(disk, log', i)) {
      if i < |log| {
        WantUnchanged(disk, log, r, i);
        assert EntryInv(log[i], entries[i], stage[i], releasing[i], Want(disk, log, i));
      }
    }
  }

  lemma AcceptMap(entries: seq<Entry>, stage: seq<seq<Stage>>, slicerMap: map<u32, nat>, e: Entry, st: seq<Stage>)
    requires |entries| == |stage| && MapInv(entries, stage, slicerMap) && e.phase.Queued?
    ensures MapInv(entries + [e], stage + [st], slicerMap)
  {
  }

  lemma AcceptDone(c: Config, disk: seq<byte>, log: seq<Request>, entries: seq<Entry>, done: seq<Completion>, r: Request)
    requires LogInv(c, disk, log) && Legal(c, r) && |entries| == |log| && DoneInv(c, disk, log, entries, done)
    ensures LogInv(c, disk, log + [r]) && DoneInv(c, disk, log + [r], entries + [Entry(Queued, 0, 0, r.data, 0, 1)], done)
  {
    forall i | 0 <= i < |log| ensures AllFit(log + [r], |disk|) && Want(disk, log + [r], i) == Want(disk, log, i) {
      WantUnchanged(disk, log, r, i);
    }
  }

  lemma UnservedIsInFlight(c: Config, disk: seq<byte>, s: State, h: History, j: nat, k: nat)
    requires Inv(c, disk, s, h) && j < |s.log| && k < |h.stage[j]| && Unserved(h.stage[j][k])
    ensures InFlight(s, j)
  {
    hide MapInv, DoneInv, ChannelsInv, DiskInv, Want, After;
    assert EntryInv(s.log[j], s.entries[j], h.stage[j], s.releasing[j], Want(disk, s.log, j));
    OutstandingZero(h.stage[j]);
  }

  lemma AcceptKeeps(c: Config, disk: seq<byte>, s: State, h: History, r: Request)
    requires Inv(c, disk, s, h) && Allowed(c, s, Accept(r))
    ensures Inv(c, disk, Step(c, s, Accept(r)).s, Track(c, s, h, Accept(r)))
  {
    hide EntriesInv, MapInv, DoneInv, LogInv, OwnerInv, UnservedInv, Place, StorageShape, Shows, Want, After, Conflict, Legal;
    forall j, k | 0 <= j < |s.log| && 0 <= k < |h.stage[j]| && Unserved(h.stage[j][k]) ensures !Conflict(s.log[j], r) {
      UnservedIsInFlight(c, disk, s, h, j, k);
    }
    AcceptDisk(c, disk, s.log, h.stage, h.owner, s.storage, r);
    ChannelsGrow(c, disk, s.log, Uids(s.entries), h.stage, s.slicerMap, s.toDev, s.fromDev, s.tasks, r, 0);
    var e := Entry(Queued, 0, 0, r.data, 0, 1);
    assert Uids(s.entries + [e]) == Uids(s.entries) + [0];
    AcceptEntries(c, disk, s.log, s.entries, h.stage, s.releasing, r);
    AcceptMap(s.entries, h.stage, s.slicerMap, e, AllUnsent(Fragments(r)));
    AcceptDone(c, disk, s.log, s.entries, s.done, r);
  }

  // ---------- the request task ----------

  lemma EntryFacts(c: Config, disk: seq<byte>, s: State, h: History, i: nat)
    requires Inv(c, disk, s, h) && i < |s.log|
    ensures AllFit(s.log, |disk|) && Whole(s.log[i], Want(disk, s.log, i)) && s.log[i].len <= CAPACITY
    ensures EntryInv(s.log[i], s.entries[i], h.stage[i], s.releasing[i], Want(disk, s.log, i))
    ensures |h.stage[i]| == Fragments(s.log[i]) && h.stage[i := h.stage[i]] == h.stage
  {
    hide MapInv, DoneInv, ChannelsInv, DiskInv, Want, After;
  }

  lemma Indices(c: Config, disk: seq<byte>, s: State, h: History)
    requires Inv(c, disk, s, h)
    ensures Indexed(Uids(s.entries), h.stage, s.slicerMap)
    ensures forall j :: 0 <= j < |s.log| && OnTheWay(h.stage, j) ==> Listed(s.entries[j].phase, h.stage[j])
  {
    hide DoneInv, ChannelsInv, DiskInv, Want, After;
    forall j, k | 0 <= j < |h.stage| && 0 <= k < |h.stage[j]| && !h.stage[j][k].Unsent? && !h.stage[j][k].Merged?
      ensures Listed(s.entries[j].phase, h.stage[j])
    {
      assert EntryInv(s.log[j], s.entries[j], h.stage[j], s.releasing[j], Want(disk, s.log, j));
      OutstandingZero(h.stage[j]);
    }
  }

  // An entry changes, and perhaps the map of slicers, while no message moves.
  lemma OnlyTheEntry(c: Config, disk: seq<byte>, s: State, h: History, i: nat, e: Entry, slicerMap: map<u32, nat>)
    requires Inv(c, disk, s, h) && i < |s.log| && (e.uid == s.entries[i].uid || !Listed(s.entries[i].phase, h.stage[i]))
    requires forall u :: u in s.slicerMap ==> u in slicerMap && slicerMap[u] == s.slicerMap[u]
    ensures ChannelsInv(c, disk, s.log, Uids(s.entries[i := e]), h.stage, slicerMap, s.toDev, s.fromDev, s.tasks)
  {
    hide EntriesInv, MapInv, DoneInv, ChannelsInv, DiskInv, LogInv, OnTheWay, Listed, Indexed;
    Indices(c, disk, s, h);
    ChannelsRemap(c, disk, s.log, Uids(s.entries), h.stage, s.slicerMap, s.toDev, s.fromDev, s.tasks, Uids(s.entries[i := e]), slicerMap);
  }

  lemma SliceMap(entries: seq<Entry>, stage: seq<seq<Stage>>, slicerMap: map<u32, nat>, i: nat, e: Entry)
    requires |entries| == |stage| && MapInv(entries, stage, slicerMap) && i < |entries|
    requires entries[i].phase.Queued? && e.phase.Sliced? && e.uid !in slicerMap
    requires forall j :: 0 <= j < |entries| && entries[j].phase.Sliced? ==> entries[j].uid != e.uid
    ensures MapInv(entries[i := e], stage, slicerMap)
  {
    var entries' := entries[i := e];
    forall j | 0 <= j < |entries'| && Listed(entries'[j].phase, stage[j]) ensures entries'[j].uid in slicerMap && slicerMap[entries'[j].uid] == j {
      assert j != i && Listed(entries[j].phase, stage[j]);
    }
  }

  lemma SliceKeeps(c: Config, disk: seq<byte>, s: State, h: History, i: nat)
    requires Inv(c, disk, s, h) && Enabled(c, s, Slice(i))
    ensures Step(c, s, Slice(i)).Ok? && Inv(c, disk, Step(c, s, Slice(i)).s, h)
  {
    hide EntriesInv, MapInv, DoneInv, ChannelsInv, DiskInv, LogInv, Whole, Want, After;
    var e := s.entries[i];
    var e' := e.(phase := Sliced, uid := U32(s.counter), count := Fragments(s.log[i]), slicerUses := 1, requestUses := e.requestUses + 1);
    EntryFacts(c, disk, s, h, i);
    SliceEntry(s.log[i], e, h.stage[i], s.releasing[i], Want(disk, s.log, i), U32(s.counter));
    EntriesKeep(c, disk, s.log, s.entries, h.stage, s.releasing, i, e', h.stage[i], s.releasing);
    SliceMap(s.entries, h.stage, s.slicerMap, i, e');
    DoneKeeps(c, disk, s.log, s.entries, s.done, i, e');
    OnlyTheEntry(c, disk, s, h, i, e', s.slicerMap);
  }

  lemma RegisterMap(entries: seq<Entry>, stage: seq<seq<Stage>>, slicerMap: map<u32, nat>, i: nat, e: Entry)
    requires |entries| == |stage| && MapInv(entries, stage, slicerMap) && i < |entries|
    requires entries[i].phase.Sliced? && !e.phase.Sliced? && e.uid == entries[i].uid && Listed(e.phase, stage[i])
    ensures e.uid !in slicerMap
    ensures MapInv(entries[i := e], stage, slicerMap[e.uid := i])
  {
    var entries', slicerMap' := entries[i := e], slicerMap[e.uid := i];
    forall j | 0 <= j < |entries'| && Listed(entries'[j].phase, stage[j]) ensures entries'[j].uid in slicerMap' && slicerMap'[entries'[j].uid] == j {
      assert j != i ==> Listed(entries[j].phase, stage[j]);
    }
  }

  lemma RegisterKeeps(c: Config, disk: seq<byte>, s: State, h: History, i: nat)
    requires Inv(c, disk, s, h) && Enabled(c, s, Register(i))
    ensures Step(c, s, Register(i)).Ok? && Inv(c, disk, Step(c, s, Register(i)).s, h)
  {
    hide EntriesInv, MapInv, DoneInv, ChannelsInv, DiskInv, LogInv, Whole, Want, After;
    var e := s.entries[i];
    var e' := e.(phase := Sending(0));
    EntryFacts(c, disk, s, h, i);
    RegisterEntry(s.log[i], e, h.stage[i], s.releasing[i], Want(disk, s.log, i));
    EntriesKeep(c, disk, s.log, s.entries, h.stage, s.releasing, i, e', h.stage[i], s.releasing);
    RegisterMap(s.entries, h.stage, s.slicerMap, i, e');
    DoneKeeps(c, disk, s.log, s.entries, s.done, i, e');
    OnlyTheEntry(c, disk, s, h, i, e', s.slicerMap[e.uid := i]);
  }

  lemma SendKeeps(c: Config, disk: seq<byte>, s: State, h: History, i: nat)
    requires Inv(c, disk, s, h) && Enabled(c, s, SendNext(i))
    ensures Step(c, s, SendNext(i)).Ok? && Inv(c, disk, Step(c, s, SendNext(i)).s, Track(c, s, h, SendNext(i)))
  {
    hide EntriesInv, MapInv, DoneInv, ChannelsInv, DiskInv, LogInv, Whole, Want, After, HeaderOf, Device;
    var r, e := s.log[i], s.entries[i];
    var k := e.phase.next;
    var e' := e.(phase := Sending(k + 1));
    EntryFacts(c, disk, s, h, i);
    SendEntry(r, e, h.stage[i], s.releasing[i], Want(disk, s.log, i));
    DoneKeeps(c, disk, s.log, s.entries, s.done, i, e');
    var st := if Carries(r.cmd) then h.stage[i][k := Requested] else h.stage[i];
    EntriesKeep(c, disk, s.log, s.entries, h.stage, s.releasing, i, e', st, s.releasing);
    MapKeeps(s.entries, h.stage, s.slicerMap, i, e', st);
    assert Uids(s.entries[i := e']) == Uids(s.entries);
    if Carries(r.cmd) {
      DiskKeeps(c, disk, s.log, h.stage, h.owner, s.storage, i, k, Requested);
      SendChannels(c, disk, s, h, i);
    }
  }

  // The frame on the socket carries the bytes the kernel asked to store, whatever replies have since been merged.
  lemma SentFrame(c: Config, disk: seq<byte>, s: State, h: History, i: nat) returns (f: Frame)
    requires Inv(c, disk, s, h) && Enabled(c, s, SendNext(i)) && Carries(s.log[i].cmd)
    ensures var r, e, k := s.log[i], s.entries[i], s.entries[i].phase.next;
            && Device(BlockNo(r, k), c.n) < |s.toDev| && k < |h.stage[i]| && h.stage[i][k].Unsent?
            && e.uid in s.slicerMap && s.slicerMap[e.uid] == i && f.hdr.uid == e.uid && f.hdr.frag == k
            && Step(c, s, SendNext(i)) == Ok(s.(entries := s.entries[i := e.(phase := Sending(k + 1))],
                 toDev := s.toDev[Device(BlockNo(r, k), c.n) := s.toDev[Device(BlockNo(r, k), c.n)] + [f]]))
            && Located(c, disk, s.log, Put(h.stage, i, k, Requested), s.slicerMap, f, Requested, Device(BlockNo(r, k), c.n))
  {
    hide EntriesInv, MapInv, DoneInv, DiskInv, LogInv, Want, After, Place, Located, HeaderOf;
    var r, e := s.log[i], s.entries[i];
    var k := e.phase.next;
    EntryFacts(c, disk, s, h, i);
    OutstandingZero(h.stage[i]);
    assert !h.stage[i][k].Merged?;
    ListedInMap(c, disk, s, h, i);
    f := Frame(HeaderOf(r, e.uid, k, c.n), if r.cmd.Write? then BlockAt(e.buf, k * FRAGMENT) else []);
    FrameLocated(c, disk, s.log, h.stage, s.slicerMap, i, k, e.uid, f);
  }

  lemma ListedInMap(c: Config, disk: seq<byte>, s: State, h: History, i: nat)
    requires Inv(c, disk, s, h) && i < |s.log| && Listed(s.entries[i].phase, h.stage[i])
    ensures s.entries[i].uid in s.slicerMap && s.slicerMap[s.entries[i].uid] == i
  {
    hide EntriesInv, DoneInv, ChannelsInv, DiskInv, LogInv;
  }

  lemma FrameLocated(c: Config, disk: seq<byte>, log: seq<Request>, stage: seq<seq<Stage>>, slicerMap: map<u32, nat>,
                     i: nat, k: nat, uid: u32, f: Frame)
    requires LogInv(c, disk, log) && i < |log| == |stage| && k < |stage[i]| == Fragments(log[i])
    requires uid in slicerMap && slicerMap[uid] == i
    requires f.hdr == HeaderOf(log[i], uid, k, c.n)
    requires if log[i].cmd.Write? then f.data == BlockAt(log[i].data, k * FRAGMENT) else f.data == []
    ensures Located(c, disk, log, Put(stage, i, k, Requested), slicerMap, f, Requested, Device(BlockNo(log[i], k), c.n))
    ensures f.hdr.frag == k && f.hdr.uid == uid
  {
    hide Want, After, Offset, Device;
    assert Legal(c, log[i]);
  }

  lemma SendChannels(c: Config, disk: seq<byte>, s: State, h: History, i: nat)
    requires Inv(c, disk, s, h) && Enabled(c, s, SendNext(i)) && Carries(s.log[i].cmd)
    requires s.entries[i].phase.next < |h.stage[i]|
    ensures Step(c, s, SendNext(i)).Ok?
    ensures var s' := Step(c, s, SendNext(i)).s;
            ChannelsInv(c, disk, s.log, Uids(s.entries), Put(h.stage, i, s.entries[i].phase.next, Requested), s.slicerMap,
                        s'.toDev, s'.fromDev, s'.tasks)
  {
    hide EntriesInv, MapInv, DoneInv, DiskInv, LogInv, Want, After, Place, Located, Step;
    var k := s.entries[i].phase.next;
    var d0 := Device(BlockNo(s.log[i], k), c.n);
    var uids := Uids(s.entries);
    var f := SentFrame(c, disk, s, h, i);
    PlacePuts(c, disk, s.log, uids, h.stage, s.slicerMap, s.toDev[d0], Requested, d0, i, k, f);
    var stage' := Put(h.stage, i, k, Requested);
    forall d | 0 <= d < c.n && d != d0 ensures Place(c, disk, s.log, uids, stage', s.slicerMap, s.toDev[d], Requested, d) {
      PlaceKeeps(c, disk, s.log, uids, h.stage, s.slicerMap, s.toDev[d], Requested, d, i, k, Requested);
    }
    forall d | 0 <= d < c.n ensures Place(c, disk, s.log, uids, stage', s.slicerMap, s.fromDev[d], Answered, d) {
      PlaceKeeps(c, disk, s.log, uids, h.stage, s.slicerMap, s.fromDev[d], Answered, d, i, k, Requested);
    }
    PlaceKeeps(c, disk, s.log, uids, h.stage, s.slicerMap, s.tasks, Arrived, -1, i, k, Requested);
  }

  // ---------- destroying shared pointers ----------

  // A use of request i goes away: the invariant holds of everything but its use count, which is one too high.
  lemma DropKeeps(c: Config, disk: seq<byte>, s: State, h: History, i: nat)
    requires LogInv(c, disk, s.log) && |s.entries| == |s.log| == |h.stage| && i < |s.log| && s.entries[i].requestUses > 0
    requires Whole(s.log[i], Want(disk, s.log, i))
    requires var e := s.entries[i].(requestUses := s.entries[i].requestUses - 1);
             EntriesInv(c, disk, s.log, s.entries[i := e], h.stage, s.releasing)
             && EntryInv(s.log[i], e, h.stage[i], s.releasing[i], Want(disk, s.log, i))
    requires MapInv(s.entries, h.stage, s.slicerMap) && DoneInv(c, disk, s.log, s.entries, s.done)
    requires ChannelsInv(c, disk, s.log, Uids(s.entries), h.stage, s.slicerMap, s.toDev, s.fromDev, s.tasks)
    requires DiskInv(c, disk, s.log, h.stage, h.owner, s.storage)
    ensures DropRequest(s, i).Ok? && Inv(c, disk, DropRequest(s, i).s, h)
  {
    hide EntriesInv, MapInv, DoneInv, ChannelsInv, DiskInv, After;
    var e := s.entries[i].(requestUses := s.entries[i].requestUses - 1);
    assert Uids(s.entries[i := e]) == Uids(s.entries);
    assert h.stage[i := h.stage[i]] == h.stage;
    MapKeeps(s.entries, h.stage, s.slicerMap, i, e, h.stage[i]);
    if e.requestUses > 0 {
      DoneKeeps(c, disk, s.log, s.entries, s.done, i, e);
    } else {
      AnswerIsReady(s.log[i], e, h.stage[i], s.releasing[i], Want(disk, s.log, i));
      DoneGrows(c, disk, s.log, s.entries, s.done, i, e);
    }
  }

  lemma ReleaseKeeps(c: Config, disk: seq<byte>, s: State, h: History, i: nat)
    requires Inv(c, disk, s, h) && Enabled(c, s, Release(i))
    ensures Step(c, s, Release(i)).Ok? && Inv(c, disk, Step(c, s, Release(i)).s, h)
  {
    hide EntriesInv, MapInv, DoneInv, ChannelsInv, DiskInv, LogInv, Whole, Want, After;
    EntryFacts(c, disk, s, h, i);
    var e1 := s.entries[i].(phase := Released);
    var e2 := e1.(requestUses := e1.requestUses - 1);
    EntriesKeep(c, disk, s.log, s.entries, h.stage, s.releasing, i, e2, h.stage[i], s.releasing);
    assert s.entries[i := e1][i := e2] == s.entries[i := e2];
    MapKeeps(s.entries, h.stage, s.slicerMap, i, e1, h.stage[i]);
    DoneKeeps(c, disk, s.log, s.entries, s.done, i, e1);
    assert Uids(s.entries[i := e1]) == Uids(s.entries);
    DropKeeps(c, disk, s.(entries := s.entries[i := e1]), h, i);
  }

  lemma DropSlicerKeeps(c: Config, disk: seq<byte>, s: State, h: History, i: nat)
    requires Inv(c, disk, s, h) && Enabled(c, s, DropSlicer(i))
    ensures Step(c, s, DropSlicer(i)).Ok? && Inv(c, disk, Step(c, s, DropSlicer(i)).s, h)
  {
    hide EntriesInv, MapInv, DoneInv, ChannelsInv, DiskInv, LogInv, Whole, Want, After;
    HolderExists(c, disk, s, h, i);
    EntryFacts(c, disk, s, h, i);
    var releasing' := s.releasing - multiset{i};
    var e1 := s.entries[i].(slicerUses := s.entries[i].slicerUses - 1);
    var e2 := if e1.slicerUses > 0 then e1 else e1.(requestUses := e1.requestUses - 1);
    EntriesKeep(c, disk, s.log, s.entries, h.stage, s.releasing, i, e2, h.stage[i], releasing');
    MapKeeps(s.entries, h.stage, s.slicerMap, i, e1, h.stage[i]);
    DoneKeeps(c, disk, s.log, s.entries, s.done, i, e1);
    assert Uids(s.entries[i := e1]) == Uids(s.entries);
    assert s.entries[i := e1][i := e2] == s.entries[i := e2];
    if e1.slicerUses == 0 {
      DropKeeps(c, disk, s.(entries := s.entries[i := e1], releasing := releasing'), h, i);
    }
  }

  lemma HolderExists(c: Config, disk: seq<byte>, s: State, h: History, i: nat)
    requires Inv(c, disk, s, h) && i in s.releasing
    ensures i < |s.log|
  {
    hide MapInv, DoneInv, ChannelsInv, DiskInv, LogInv, EntryInv;
  }
}
