// The actions that move a message keep the invariant: a server's turn, the arrival of a reply, a merge.
module StripedMessages {
  import opened Bytes
  import opened Striping
  import opened FlatDisk
  import opened Atlas
  import opened StripedDisk
  import opened StripedInvariant
  import opened StripedPlaces
  import opened StripedEntries
  import opened StripedSteps

  // Fragment k of request i moves on to stage `to` and nothing else about the request changes.
  lemma MoveKeepsEntries(c: Config, disk: seq<byte>, s: State, h: History, i: nat, k: nat, to: Stage)
    requires Inv(c, disk, s, h) && i < |s.log| && k < |h.stage[i]|
    requires !h.stage[i][k].Unsent? && !h.stage[i][k].Merged? && !to.Unsent? && !to.Merged?
    ensures EntriesInv(c, disk, s.log, s.entries, Put(h.stage, i, k, to), s.releasing)
    ensures MapInv(s.entries, Put(h.stage, i, k, to), s.slicerMap)
  {
    hide EntriesInv, MapInv, DoneInv, ChannelsInv, DiskInv, LogInv, Want, After, EntryInv, Whole;
    EntryFacts(c, disk, s, h, i);
    MoveEntry(s.log[i], s.entries[i], h.stage[i], s.releasing[i], Want(disk, s.log, i), k, to);
    EntriesKeep(c, disk, s.log, s.entries, h.stage, s.releasing, i, s.entries[i], h.stage[i][k := to], s.releasing);
    MapKeeps(s.entries, h.stage, s.slicerMap, i, s.entries[i], h.stage[i][k := to]);
    assert s.entries[i := s.entries[i]] == s.entries;
  }

  // ---------- a server's turn ----------

  lemma HeaderFields(c: Config, r: Request, uid: u32, k: nat)
    requires Legal(c, r) && k < Fragments(r)
    ensures BlockNo(r, k) < c.size / FRAGMENT && Offset(BlockNo(r, k), c.n) + FRAGMENT <= CAPACITY
    ensures HeaderOf(r, uid, k, c.n).offset == Offset(BlockNo(r, k), c.n)
    ensures HeaderOf(r, uid, k, c.n).dataLen == FRAGMENT && HeaderOf(r, uid, k, c.n).frag == k
    ensures U32(FRAGMENT * k) == FRAGMENT * k
  {
    Footprint(c.size / FRAGMENT, BlockNo(r, k), c.n);
  }

  lemma Blockwise(r: Request, k: nat)
    requires r.len % FRAGMENT == 0 && k < Fragments(r)
    ensures k * FRAGMENT + FRAGMENT <= r.len
  {
  }

  function ServedStorage(c: Config, storage: seq<seq<byte>>, r: Request, k: nat): seq<seq<byte>>
    requires StorageShape(c, storage) && Legal(c, r) && k < Fragments(r)
  {
    HeaderFields(c, r, 0, k);
    Blockwise(r, k);
    var b := BlockNo(r, k);
    if r.cmd.Write?
    then storage[Device(b, c.n) := Splice(storage[Device(b, c.n)], Offset(b, c.n), BlockAt(r.data, k * FRAGMENT))]
    else storage
  }

  // What a server's turn does to a frame of fragment k of request i.
  lemma ServeOutcome(c: Config, disk: seq<byte>, log: seq<Request>, stage: seq<seq<Stage>>, slicerMap: map<u32, nat>,
                     owner: map<nat, (nat, nat)>, storage: seq<seq<byte>>, f: Frame, d: nat) returns (reply: Frame)
    requires LogInv(c, disk, log) && d < c.n && Located(c, disk, log, stage, slicerMap, f, Requested, d)
    requires DiskInv(c, disk, log, stage, owner, storage) && Carries(log[slicerMap[f.hdr.uid]].cmd)
    ensures var i, k := slicerMap[f.hdr.uid], f.hdr.frag;
            && ServeFrame(storage[d], f) == Served(ServedStorage(c, storage, log[i], k)[d], [reply])
            && ServedStorage(c, storage, log[i], k) == storage[d := ServedStorage(c, storage, log[i], k)[d]]
            && reply.hdr == f.hdr
            && Located(c, disk, log, Put(stage, i, k, Answered), slicerMap, reply, Answered, d)
            && DiskInv(c, disk, log, Put(stage, i, k, Answered), if log[i].cmd.Write? then owner - {BlockNo(log[i], k)} else owner,
                       ServedStorage(c, storage, log[i], k))
  {
    hide DiskInv, Want, After, BlockAt, Splice, Device, Offset, UnservedInv;
    var i, k := slicerMap[f.hdr.uid], f.hdr.frag;
    var r := log[i];
    LegalAt(c, disk, log, i);
    HeaderFields(c, r, f.hdr.uid, k);
    Blockwise(r, k);
    DiskShape(c, disk, log, stage, owner, storage);
    if r.cmd.Read? {
      ReadIsCurrent(c, disk, log, stage, owner, storage, i, k);
      ReadServed(c, disk, log, stage, owner, storage, i, k);
      reply := Frame(f.hdr, BlockAt(storage[d], f.hdr.offset));
      CutIsBlock(storage[d], f.hdr.offset);
    } else {
      reply := Frame(f.hdr, []);
      WriteServed(c, disk, log, stage, owner, storage, i, k, ServedStorage(c, storage, r, k));
    }
  }

  lemma CutIsBlock(s: seq<byte>, at: nat)
    requires at + FRAGMENT <= |s|
    ensures s[at..at + FRAGMENT] == BlockAt(s, at)
  {
  }

  lemma DiskShape(c: Config, disk: seq<byte>, log: seq<Request>, stage: seq<seq<Stage>>, owner: map<nat, (nat, nat)>, storage: seq<seq<byte>>)
    requires LogInv(c, disk, log) && DiskInv(c, disk, log, stage, owner, storage)
    ensures StorageShape(c, storage) && |stage| == |log| && AllFit(log, |disk|)
  {
    hide UnservedInv, OwnerInv, After, StoredBlock;
  }

  // The message at position p of a place, and the request it belongs to.
  lemma Message(c: Config, disk: seq<byte>, s: State, h: History, sq: seq<Frame>, at: Stage, dev: int, p: nat)
    requires Inv(c, disk, s, h) && Place(c, disk, s.log, Uids(s.entries), h.stage, s.slicerMap, sq, at, dev) && p < |sq|
    requires !at.Unsent?
    ensures Located(c, disk, s.log, h.stage, s.slicerMap, sq[p], at, dev) && sq[p].hdr.uid in s.slicerMap
    ensures var i := s.slicerMap[sq[p].hdr.uid];
            i < |s.log| && Legal(c, s.log[i]) && Carries(s.log[i].cmd) && s.entries[i].uid == sq[p].hdr.uid
            && sq[p].hdr.frag < |h.stage[i]| && h.stage[i][sq[p].hdr.frag] == at
  {
    hide EntriesInv, DoneInv, ChannelsInv, DiskInv, LogInv, Want, After, HeaderOf, PayloadInv;
    assert Located(c, disk, s.log, h.stage, s.slicerMap, sq[p], at, dev);
    var i := s.slicerMap[sq[p].hdr.uid];
    LegalAt(c, disk, s.log, i);
    EntryFacts(c, disk, s, h, i);
  }

  lemma ServeKeeps(c: Config, disk: seq<byte>, s: State, h: History, d: nat)
    requires Inv(c, disk, s, h) && Enabled(c, s, Serve(d))
    ensures Step(c, s, Serve(d)).Ok? && Inv(c, disk, Step(c, s, Serve(d)).s, Track(c, s, h, Serve(d)))
  {
    hide EntriesInv, MapInv, DoneInv, DiskInv, LogInv, Want, After, Place, PayloadInv, ServedStorage, Legal, ServeFrame;
    var f := s.toDev[d][0];
    Message(c, disk, s, h, s.toDev[d], Requested, d, 0);
    var i, k := s.slicerMap[f.hdr.uid], f.hdr.frag;
    var reply := ServeOutcome(c, disk, s.log, h.stage, s.slicerMap, h.owner, s.storage, f, d);
    MoveKeepsEntries(c, disk, s, h, i, k, Answered);
    ServeChannels(c, disk, s, h, d, reply);
    DiskShape(c, disk, s.log, h.stage, h.owner, s.storage);
  }

  lemma ServeChannels(c: Config, disk: seq<byte>, s: State, h: History, d0: nat, reply: Frame)
    requires Inv(c, disk, s, h) && d0 < c.n && s.toDev[d0] != []
    requires var f := s.toDev[d0][0];
             && f.hdr.uid in s.slicerMap && s.slicerMap[f.hdr.uid] < |h.stage| && f.hdr.frag < |h.stage[s.slicerMap[f.hdr.uid]]|
             && s.entries[s.slicerMap[f.hdr.uid]].uid == f.hdr.uid
             && h.stage[s.slicerMap[f.hdr.uid]][f.hdr.frag] == Requested && Device(BlockNo(s.log[s.slicerMap[f.hdr.uid]], f.hdr.frag), c.n) == d0
             && reply.hdr == f.hdr
             && Located(c, disk, s.log, Put(h.stage, s.slicerMap[f.hdr.uid], f.hdr.frag, Answered), s.slicerMap, reply, Answered, d0)
    ensures var f := s.toDev[d0][0];
            ChannelsInv(c, disk, s.log, Uids(s.entries), Put(h.stage, s.slicerMap[f.hdr.uid], f.hdr.frag, Answered), s.slicerMap,
                        s.toDev[d0 := s.toDev[d0][1..]], s.fromDev[d0 := s.fromDev[d0] + [reply]], s.tasks)
  {
    hide EntriesInv, MapInv, DoneInv, DiskInv, LogInv, Want, After, Place, Located, Indexed;
    var f, uids := s.toDev[d0][0], Uids(s.entries);
    var i, k := s.slicerMap[f.hdr.uid], f.hdr.frag;
    var stage' := Put(h.stage, i, k, Answered);
    Indices(c, disk, s, h);
    assert RemoveAt(s.toDev[d0], 0) == s.toDev[d0][1..];
    PlaceTakes(c, disk, s.log, uids, h.stage, s.slicerMap, s.toDev[d0], Requested, d0, 0, Answered);
    PlacePuts(c, disk, s.log, uids, h.stage, s.slicerMap, s.fromDev[d0], Answered, d0, i, k, reply);
    forall d | 0 <= d < c.n && d != d0
      ensures Place(c, disk, s.log, uids, stage', s.slicerMap, s.toDev[d], Requested, d)
      ensures Place(c, disk, s.log, uids, stage', s.slicerMap, s.fromDev[d], Answered, d)
    {
      PlaceKeeps(c, disk, s.log, uids, h.stage, s.slicerMap, s.toDev[d], Requested, d, i, k, Answered);
      PlaceKeeps(c, disk, s.log, uids, h.stage, s.slicerMap, s.fromDev[d], Answered, d, i, k, Answered);
    }
    PlaceKeeps(c, disk, s.log, uids, h.stage, s.slicerMap, s.tasks, Arrived, -1, i, k, Answered);
  }

  // ---------- a reply arrives ----------

  lemma ReceiveKeeps(c: Config, disk: seq<byte>, s: State, h: History, d0: nat, garbage: seq<byte>)
    requires Inv(c, disk, s, h) && Enabled(c, s, Receive(d0, garbage))
    ensures Step(c, s, Receive(d0, garbage)).Ok? && Inv(c, disk, Step(c, s, Receive(d0, garbage)).s, Track(c, s, h, Receive(d0, garbage)))
  {
    hide EntriesInv, MapInv, DoneInv, DiskInv, LogInv, Want, After, Place, Located, Legal, PayloadInv;
    var f := s.fromDev[d0][0];
    Message(c, disk, s, h, s.fromDev[d0], Answered, d0, 0);
    var task := Frame(f.hdr, if f.hdr.kind == READ then f.data else garbage);
    TaskLocated(c, disk, s.log, h.stage, s.slicerMap, f, d0, task);
    var i, k := s.slicerMap[f.hdr.uid], f.hdr.frag;
    MoveKeepsEntries(c, disk, s, h, i, k, Arrived);
    DiskKeeps(c, disk, s.log, h.stage, h.owner, s.storage, i, k, Arrived);
    ReceiveChannels(c, disk, s, h, d0, task);
  }

  lemma TaskLocated(c: Config, disk: seq<byte>, log: seq<Request>, stage: seq<seq<Stage>>, slicerMap: map<u32, nat>, f: Frame, d: nat, task: Frame)
    requires LogInv(c, disk, log) && |stage| == |log| && Located(c, disk, log, stage, slicerMap, f, Answered, d)
    requires task.hdr == f.hdr && |task.data| == |if f.hdr.kind == READ then f.data else task.data|
    requires if f.hdr.kind == READ then task.data == f.data else |task.data| == f.hdr.dataLen
    ensures Located(c, disk, log, Put(stage, slicerMap[f.hdr.uid], f.hdr.frag, Arrived), slicerMap, task, Arrived, -1)
    ensures Device(BlockNo(log[slicerMap[f.hdr.uid]], f.hdr.frag), c.n) == d
  {
    hide Want, After, Offset, Device;
  }

  lemma ReceiveChannels(c: Config, disk: seq<byte>, s: State, h: History, d0: nat, task: Frame)
    requires Inv(c, disk, s, h) && d0 < c.n && s.fromDev[d0] != []
    requires var f := s.fromDev[d0][0];
             && f.hdr.uid in s.slicerMap && s.slicerMap[f.hdr.uid] < |h.stage| && f.hdr.frag < |h.stage[s.slicerMap[f.hdr.uid]]|
             && s.entries[s.slicerMap[f.hdr.uid]].uid == f.hdr.uid
             && h.stage[s.slicerMap[f.hdr.uid]][f.hdr.frag] == Answered && Device(BlockNo(s.log[s.slicerMap[f.hdr.uid]], f.hdr.frag), c.n) == d0
             && task.hdr == f.hdr
             && Located(c, disk, s.log, Put(h.stage, s.slicerMap[f.hdr.uid], f.hdr.frag, Arrived), s.slicerMap, task, Arrived, -1)
    ensures var f := s.fromDev[d0][0];
            ChannelsInv(c, disk, s.log, Uids(s.entries), Put(h.stage, s.slicerMap[f.hdr.uid], f.hdr.frag, Arrived), s.slicerMap,
                        s.toDev, s.fromDev[d0 := s.fromDev[d0][1..]], s.tasks + [task])
  {
    hide EntriesInv, MapInv, DoneInv, DiskInv, LogInv, Want, After, Place, Located, Indexed;
    var f, uids := s.fromDev[d0][0], Uids(s.entries);
    var i, k := s.slicerMap[f.hdr.uid], f.hdr.frag;
    var stage' := Put(h.stage, i, k, Arrived);
    Indices(c, disk, s, h);
    assert RemoveAt(s.fromDev[d0], 0) == s.fromDev[d0][1..];
    PlaceTakes(c, disk, s.log, uids, h.stage, s.slicerMap, s.fromDev[d0], Answered, d0, 0, Arrived);
    PlacePuts(c, disk, s.log, uids, h.stage, s.slicerMap, s.tasks, Arrived, -1, i, k, task);
    forall d | 0 <= d < c.n ensures Place(c, disk, s.log, uids, stage', s.slicerMap, s.toDev[d], Requested, d) {
      PlaceKeeps(c, disk, s.log, uids, h.stage, s.slicerMap, s.toDev[d], Requested, d, i, k, Arrived);
    }
    forall d | 0 <= d < c.n && d != d0 ensures Place(c, disk, s.log, uids, stage', s.slicerMap, s.fromDev[d], Answered, d) {
      PlaceKeeps(c, disk, s.log, uids, h.stage, s.slicerMap, s.fromDev[d], Answered, d, i, k, Arrived);
    }
  }

  // ---------- a merge ----------

  lemma MergeKeeps(c: Config, disk: seq<byte>, s: State, h: History, t: nat)
    requires Inv(c, disk, s, h) && Enabled(c, s, Merge(t))
    ensures Step(c, s, Merge(t)).Ok? && Inv(c, disk, Step(c, s, Merge(t)).s, Track(c, s, h, Merge(t)))
  {
    hide EntriesInv, MapInv, DoneInv, ChannelsInv, DiskInv, LogInv, Want, After, Located, Legal, EntryInv, Whole, Splice;
    var f := s.tasks[t];
    TaskFacts(c, disk, s, h, t);
    var i, k := s.slicerMap[f.hdr.uid], f.hdr.frag;
    var e, st := s.entries[i], h.stage[i][k := Merged];
    EntryFacts(c, disk, s, h, i);
    EntryLength(s.log[i], e, h.stage[i], s.releasing[i], Want(disk, s.log, i), k);
    MergeEntry(s.log[i], e, h.stage[i], s.releasing[i], Want(disk, s.log, i), k, f.data);
    var e' := MergedEntry(e, k, f.data);
    ListedOf(c, disk, s, h, f.hdr.uid);
    assert Step(c, s, Merge(t)).Ok?;
    var s' := Step(c, s, Merge(t)).s;
    EntriesKeep(c, disk, s.log, s.entries, h.stage, s.releasing, i, e', st, s'.releasing);
    DoneKeeps(c, disk, s.log, s.entries, s.done, i, e');
    DiskKeeps(c, disk, s.log, h.stage, h.owner, s.storage, i, k, Merged);
    assert Uids(s.entries[i := e']) == Uids(s.entries);
    TakeTask(c, disk, s, h, t);
    if e'.count == 0 {
      MapForgets(s.entries, h.stage, s.slicerMap, i, e', st);
      ForgetChannels(c, disk, s, h, s', Put(h.stage, i, k, Merged), i);
    } else {
      MapKeeps(s.entries, h.stage, s.slicerMap, i, e', st);
    }
  }

  // A reply task never finds the map without its slicer, and its copy stays inside the request's buffer.
  lemma TaskFacts(c: Config, disk: seq<byte>, s: State, h: History, t: nat)
    requires Inv(c, disk, s, h) && t < |s.tasks|
    ensures s.tasks[t].hdr.uid in s.slicerMap
    ensures var f := s.tasks[t]; var i := s.slicerMap[f.hdr.uid];
            && i < |s.log| && s.entries[i].uid == f.hdr.uid && Legal(c, s.log[i]) && AllFit(s.log, |disk|)
            && f.hdr.frag < |h.stage[i]| == Fragments(s.log[i]) && h.stage[i][f.hdr.frag] == Arrived
            && f.hdr.dataLen == FRAGMENT == |f.data|
            && U32(f.hdr.dataLen * f.hdr.frag) == f.hdr.frag * FRAGMENT && f.hdr.frag * FRAGMENT + FRAGMENT <= s.log[i].len
            && (s.log[i].cmd.Read? ==> |Want(disk, s.log, i)| == s.log[i].len
                                       && f.data == BlockAt(Want(disk, s.log, i), f.hdr.frag * FRAGMENT))
  {
    hide EntriesInv, MapInv, DoneInv, DiskInv, Place, Want, After, HeaderOf;
    Message(c, disk, s, h, s.tasks, Arrived, -1, t);
    var f := s.tasks[t];
    var i := s.slicerMap[f.hdr.uid];
    HeaderFields(c, s.log[i], f.hdr.uid, f.hdr.frag);
    Blockwise(s.log[i], f.hdr.frag);
  }

  lemma EntryLength(r: Request, e: Entry, st: seq<Stage>, held: nat, want: seq<byte>, k: nat)
    requires Whole(r, want) && EntryInv(r, e, st, held, want)
    ensures |e.buf| == r.len
  {
  }

  lemma ListedOf(c: Config, disk: seq<byte>, s: State, h: History, uid: u32)
    requires Inv(c, disk, s, h) && uid in s.slicerMap
    ensures s.slicerMap[uid] < |s.entries| && Listed(s.entries[s.slicerMap[uid]].phase, h.stage[s.slicerMap[uid]])
  {
    hide EntriesInv, DoneInv, ChannelsInv, DiskInv, LogInv;
  }

  lemma TakeTask(c: Config, disk: seq<byte>, s: State, h: History, t: nat)
    requires Inv(c, disk, s, h) && t < |s.tasks|
    ensures var f := s.tasks[t];
            && f.hdr.uid in s.slicerMap && s.slicerMap[f.hdr.uid] < |h.stage| && f.hdr.frag < |h.stage[s.slicerMap[f.hdr.uid]]|
            && ChannelsInv(c, disk, s.log, Uids(s.entries), Put(h.stage, s.slicerMap[f.hdr.uid], f.hdr.frag, Merged), s.slicerMap,
                           s.toDev, s.fromDev, s.tasks[..t] + s.tasks[t + 1..])
  {
    hide EntriesInv, MapInv, DoneInv, DiskInv, LogInv, Want, After, Place, Located, Indexed;
    var f, uids := s.tasks[t], Uids(s.entries);
    Indices(c, disk, s, h);
    PlaceTakes(c, disk, s.log, uids, h.stage, s.slicerMap, s.tasks, Arrived, -1, t, Merged);
    TaskFacts(c, disk, s, h, t);
    var i, k := s.slicerMap[f.hdr.uid], f.hdr.frag;
    var stage' := Put(h.stage, i, k, Merged);
    forall d | 0 <= d < c.n
      ensures Place(c, disk, s.log, uids, stage', s.slicerMap, s.toDev[d], Requested, d)
      ensures Place(c, disk, s.log, uids, stage', s.slicerMap, s.fromDev[d], Answered, d)
    {
      PlaceKeeps(c, disk, s.log, uids, h.stage, s.slicerMap, s.toDev[d], Requested, d, i, k, Merged);
      PlaceKeeps(c, disk, s.log, uids, h.stage, s.slicerMap, s.fromDev[d], Answered, d, i, k, Merged);
    }
  }

  // No message mentions a slicer whose replies have all been merged.
  lemma ForgetChannels(c: Config, disk: seq<byte>, s: State, h: History, s': State, stage': seq<seq<Stage>>, i: nat)
    requires Inv(c, disk, s, h) && i < |s.entries| && |stage'| == |s.log|
    requires !Listed(s.entries[i].phase, stage'[i]) && (s.entries[i].phase.Sending? || s.entries[i].phase.Released?)
    requires s.entries[i].uid in s.slicerMap && s.slicerMap[s.entries[i].uid] == i
    requires s'.slicerMap == s.slicerMap - {s.entries[i].uid}
    requires ChannelsInv(c, disk, s.log, Uids(s.entries), stage', s.slicerMap, s'.toDev, s'.fromDev, s'.tasks)
    ensures ChannelsInv(c, disk, s.log, Uids(s.entries), stage', s'.slicerMap, s'.toDev, s'.fromDev, s'.tasks)
  {
    hide EntriesInv, DoneInv, ChannelsInv, DiskInv, LogInv;
    SlicerLifetime(stage'[i], s.entries[i].phase);
    forall u | u in s.slicerMap && OnTheWay(stage', s.slicerMap[u]) ensures u in s'.slicerMap {
      assert s.entries[s.slicerMap[u]].uid == u;
    }
    ChannelsRemap(c, disk, s.log, Uids(s.entries), stage', s.slicerMap, s'.toDev, s'.fromDev, s'.tasks, Uids(s.entries), s'.slicerMap);
  }
}
