// What each action does to the one request it works on, and how the rest of the bookkeeping follows.
module StripedEntries {
  import opened Bytes
  import opened Striping
  import opened FlatDisk
  import opened Atlas
  import opened StripedDisk
  import opened StripedInvariant

  predicate Whole(r: Request, want: seq<byte>) {
    r.len % FRAGMENT == 0 && |r.data| == r.len && (r.cmd.Read? ==> |want| == r.len)
  }

  // The counter the code keeps and the number of unmerged fragments reach zero together, and only then does the
  // slicer leave the map.
  lemma SlicerLifetime(st: seq<Stage>, phase: Phase)
    requires phase.Sending? || phase.Released?
    ensures Listed(phase, st) <==> st == [] || exists k :: 0 <= k < |st| && !st[k].Merged?
  {
    OutstandingZero(st);
  }

  lemma SliceEntry(r: Request, e: Entry, st: seq<Stage>, held: nat, want: seq<byte>, uid: u32)
    requires Whole(r, want) && EntryInv(r, e, st, held, want) && e.phase.Queued?
    ensures EntryInv(r, e.(phase := Sliced, uid := uid, count := Fragments(r), slicerUses := 1, requestUses := e.requestUses + 1),
                     st, held, want)
  {
    OutstandingZero(st);
  }

  lemma RegisterEntry(r: Request, e: Entry, st: seq<Stage>, held: nat, want: seq<byte>)
    requires Whole(r, want) && EntryInv(r, e, st, held, want) && e.phase.Sliced?
    ensures EntryInv(r, e.(phase := Sending(0)), st, held, want)
    ensures Listed(Sending(0), st)
  {
    OutstandingZero(st);
  }

  lemma SendEntry(r: Request, e: Entry, st: seq<Stage>, held: nat, want: seq<byte>)
    requires Whole(r, want) && EntryInv(r, e, st, held, want) && e.phase.Sending? && e.phase.next < |st|
    ensures st[e.phase.next].Unsent? && e.requestUses > 0
    ensures !Carries(r.cmd) ==> EntryInv(r, e.(phase := Sending(e.phase.next + 1)), st, held, want)
    ensures Carries(r.cmd) ==> EntryInv(r, e.(phase := Sending(e.phase.next + 1)), st[e.phase.next := Requested], held, want)
    ensures Outstanding(st[e.phase.next := Requested]) == Outstanding(st)
  {
    OutstandingAfter(st, e.phase.next, Requested);
  }

  lemma MoveEntry(r: Request, e: Entry, st: seq<Stage>, held: nat, want: seq<byte>, k: nat, to: Stage)
    requires Whole(r, want) && EntryInv(r, e, st, held, want)
    requires k < |st| && !st[k].Unsent? && !st[k].Merged? && !to.Unsent? && !to.Merged?
    ensures EntryInv(r, e, st[k := to], held, want)
    ensures Outstanding(st[k := to]) == Outstanding(st)
  {
    OutstandingAfter(st, k, to);
  }

  function MergedEntry(e: Entry, k: nat, data: seq<byte>): Entry
    requires k * FRAGMENT + |data| <= |e.buf|
  {
    var count := U64(e.count - 1);
    e.(buf := Splice(e.buf, k * FRAGMENT, data), count := count, slicerUses := if count == 0 then e.slicerUses else e.slicerUses + 1)
  }

  lemma MergeEntry(r: Request, e: Entry, st: seq<Stage>, held: nat, want: seq<byte>, k: nat, data: seq<byte>)
    requires Whole(r, want) && EntryInv(r, e, st, held, want) && r.len <= CAPACITY
    requires k < |st| && st[k].Arrived? && |data| == FRAGMENT
    requires r.cmd.Read? ==> data == BlockAt(want, k * FRAGMENT)
    ensures e.count > 0 && e.requestUses > 0 && !e.phase.Sliced? && !e.phase.Queued?
    ensures EntryInv(r, MergedEntry(e, k, data), st[k := Merged], held + 1, want)
    ensures MergedEntry(e, k, data).count == 0 <==> !Listed(e.phase, st[k := Merged])
  {
    OutstandingAfter(st, k, Merged);
    OutstandingZero(st);
    OutstandingZero(st[k := Merged]);
    assert U64(e.count - 1) == e.count - 1;
    forall m: nat | m < |st| ensures BlockAt(Splice(e.buf, k * FRAGMENT, data), m * FRAGMENT)
                                     == if m == k then data else BlockAt(e.buf, m * FRAGMENT)
    {
      SpliceBlocks(e.buf, k * FRAGMENT, data, m * FRAGMENT);
    }
  }

  // Once every share of a Read is gone, its buffer is the answer of the flat disk.
  lemma AnswerIsReady(r: Request, e: Entry, st: seq<Stage>, held: nat, want: seq<byte>)
    requires Whole(r, want) && EntryInv(r, e, st, held, want)
    requires e.phase.Released? && e.slicerUses == 0
    ensures Carries(r.cmd) && st != [] && forall k :: 0 <= k < |st| ==> st[k].Merged?
    ensures r.cmd.Read? ==> e.buf == want
  {
    OutstandingZero(st);
    if r.cmd.Read? {
      BlocksDetermine(e.buf, want);
    }
  }

  // ---------- one entry of the sequence changes ----------

  lemma EntriesKeep(c: Config, disk: seq<byte>, log: seq<Request>, entries: seq<Entry>, stage: seq<seq<Stage>>,
                    releasing: multiset<nat>, i: nat, e: Entry, st: seq<Stage>, releasing': multiset<nat>)
    requires LogInv(c, disk, log) && |log| == |entries| == |stage| && EntriesInv(c, disk, log, entries, stage, releasing)
    requires i < |log| && EntryInv(log[i], e, st, releasing'[i], Want(disk, log, i))
    requires forall j :: j != i ==> releasing'[j] == releasing[j]
    ensures EntriesInv(c, disk, log, entries[i := e], stage[i := st], releasing')
  {
    forall j | j in releasing' ensures j < |log| {
      assert j != i ==> j in releasing;
    }
  }

  lemma MapKeeps(entries: seq<Entry>, stage: seq<seq<Stage>>, slicerMap: map<u32, nat>, i: nat, e: Entry, st: seq<Stage>)
    requires |entries| == |stage| && MapInv(entries, stage, slicerMap) && i < |entries|
    requires e.uid == entries[i].uid && e.phase.Sliced? == entries[i].phase.Sliced?
    requires Listed(e.phase, st) == Listed(entries[i].phase, stage[i])
    ensures MapInv(entries[i := e], stage[i := st], slicerMap)
  {
  }

  lemma MapForgets(entries: seq<Entry>, stage: seq<seq<Stage>>, slicerMap: map<u32, nat>, i: nat, e: Entry, st: seq<Stage>)
    requires |entries| == |stage| && MapInv(entries, stage, slicerMap) && i < |entries|
    requires e.uid == entries[i].uid && e.phase == entries[i].phase && !e.phase.Sliced?
    requires Listed(entries[i].phase, stage[i]) && !Listed(e.phase, st)
    ensures MapInv(entries[i := e], stage[i := st], slicerMap - {e.uid})
  {
    var entries', stage' := entries[i := e], stage[i := st];
    forall j | 0 <= j < |entries'| && Listed(entries'[j].phase, stage'[j])
      ensures entries'[j].uid in slicerMap - {e.uid} && (slicerMap - {e.uid})[entries'[j].uid] == j
    {
      assert j != i && entries'[j] == entries[j] && stage'[j] == stage[j];
    }
  }

  lemma DoneKeeps(c: Config, disk: seq<byte>, log: seq<Request>, entries: seq<Entry>, done: seq<Completion>, i: nat, e: Entry)
    requires LogInv(c, disk, log) && |entries| == |log| && DoneInv(c, disk, log, entries, done)
    requires i < |entries| && e.requestUses > 0 && entries[i].requestUses > 0
    ensures DoneInv(c, disk, log, entries[i := e], done)
  {
  }

  lemma DoneGrows(c: Config, disk: seq<byte>, log: seq<Request>, entries: seq<Entry>, done: seq<Completion>, i: nat, e: Entry)
    requires LogInv(c, disk, log) && |entries| == |log| && DoneInv(c, disk, log, entries, done)
    requires i < |entries| && e.requestUses == 0 && entries[i].requestUses > 0
    ensures DoneInv(c, disk, log, entries[i := e], done + [Completion(i, Want(disk, log, i))])
  {
    var done' := done + [Completion(i, Want(disk, log, i))];
    var entries' := entries[i := e];
    forall j | 0 <= j < |log| && entries'[j].requestUses == 0 ensures exists p :: 0 <= p < |done'| && done'[p].index == j {
      if j == i {
        assert done'[|done|].index == i;
      } else {
        var p :| 0 <= p < |done| && done[p].index == j;
        assert done'[p].index == j;
      }
    }
  }

  // ---------- storage ----------

  lemma DiskKeeps(c: Config, disk: seq<byte>, log: seq<Request>, stage: seq<seq<Stage>>, owner: map<nat, (nat, nat)>,
                  storage: seq<seq<byte>>, i: nat, k: nat, to: Stage)
    requires LogInv(c, disk, log) && DiskInv(c, disk, log, stage, owner, storage)
    requires i < |stage| && k < |stage[i]| && Unserved(stage[i][k]) == Unserved(to)
    ensures DiskInv(c, disk, log, Put(stage, i, k, to), owner, storage)
  {
    var stage' := Put(stage, i, k, to);
    forall b | b in owner ensures OwnerInv(log, stage', b, owner[b]) {
      assert OwnerInv(log, stage, b, owner[b]);
    }
    forall j, m | 0 <= j < |log| && 0 <= m < |stage'[j]| && Unserved(stage'[j][m])
      ensures UnservedInv(c, disk, log, owner, After(disk, log), j, m)
    {
      assert Unserved(stage[j][m]);
    }
  }

  // A server reads: what it stores is what the flat disk held when the request was fetched.
  lemma ReadIsCurrent(c: Config, disk: seq<byte>, log: seq<Request>, stage: seq<seq<Stage>>, owner: map<nat, (nat, nat)>,
                      storage: seq<seq<byte>>, i: nat, k: nat)
    requires LogInv(c, disk, log) && DiskInv(c, disk, log, stage, owner, storage)
    requires i < |stage| && k < |stage[i]| && stage[i][k].Requested? && log[i].cmd.Read?
    ensures StoredBlock(c, storage, BlockNo(log[i], k)) == BlockAt(Want(disk, log, i), k * FRAGMENT)
  {
    assert UnservedInv(c, disk, log, owner, After(disk, log), i, k);
  }

  lemma ReadServed(c: Config, disk: seq<byte>, log: seq<Request>, stage: seq<seq<Stage>>, owner: map<nat, (nat, nat)>,
                   storage: seq<seq<byte>>, i: nat, k: nat)
    requires LogInv(c, disk, log) && DiskInv(c, disk, log, stage, owner, storage)
    requires i < |stage| && k < |stage[i]| && stage[i][k].Requested? && log[i].cmd.Read?
    ensures DiskInv(c, disk, log, Put(stage, i, k, Answered), owner, storage)
  {
    var stage' := Put(stage, i, k, Answered);
    forall b | b in owner ensures OwnerInv(log, stage', b, owner[b]) {
      assert OwnerInv(log, stage, b, owner[b]);
    }
    forall j, m | 0 <= j < |log| && 0 <= m < |stage'[j]| && Unserved(stage'[j][m])
      ensures UnservedInv(c, disk, log, owner, After(disk, log), j, m)
    {
      assert Unserved(stage[j][m]);
    }
  }

  // A server writes: its fragment becomes current and no other block moves.
  lemma WriteServed(c: Config, disk: seq<byte>, log: seq<Request>, stage: seq<seq<Stage>>, owner: map<nat, (nat, nat)>,
                    storage: seq<seq<byte>>, i: nat, k: nat, storage': seq<seq<byte>>)
    requires LogInv(c, disk, log) && DiskInv(c, disk, log, stage, owner, storage)
    requires i < |stage| && k < |stage[i]| && stage[i][k].Requested? && log[i].cmd.Write?
    requires var b := BlockNo(log[i], k);
             b < c.size / FRAGMENT && Offset(b, c.n) + FRAGMENT <= CAPACITY &&
             storage' == storage[Device(b, c.n) := Splice(storage[Device(b, c.n)], Offset(b, c.n), BlockAt(log[i].data, k * FRAGMENT))]
    ensures DiskInv(c, disk, log, Put(stage, i, k, Answered), owner - {BlockNo(log[i], k)}, storage')
  {
    var stage', b0 := Put(stage, i, k, Answered), BlockNo(log[i], k);
    var owner' := owner - {b0};
    var flat := After(disk, log);
    assert UnservedInv(c, disk, log, owner, flat, i, k);
    assert StorageShape(c, storage');
    forall b: nat | b < c.size / FRAGMENT && b !in owner' ensures StoredBlock(c, storage', b) == BlockAt(flat, b * FRAGMENT) {
      var d, d0 := Device(b, c.n), Device(b0, c.n);
      Footprint(c.size / FRAGMENT, b, c.n);
      FragmentsMeet(b, b0, c.n);
      SpliceBlocks(storage[d0], Offset(b0, c.n), BlockAt(log[i].data, k * FRAGMENT), Offset(b, c.n));
      if b != b0 {
        assert b !in owner;
        assert StoredBlock(c, storage', b) == StoredBlock(c, storage, b);
      }
    }
    forall b | b in owner' ensures OwnerInv(log, stage', b, owner'[b]) {
      assert OwnerInv(log, stage, b, owner[b]);
    }
    forall j, m | 0 <= j < |log| && 0 <= m < |stage'[j]| && Unserved(stage'[j][m])
      ensures UnservedInv(c, disk, log, owner', flat, j, m)
    {
      assert Unserved(stage[j][m]);
      assert UnservedInv(c, disk, log, owner, flat, j, m);
    }
  }
}
