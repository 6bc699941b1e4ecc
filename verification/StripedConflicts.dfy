// Why requests that conflict must not be in flight together: what becomes of two requests when one of them is cut in two by
// the other, on any number of servers.
module StripedConflicts {
  import opened Bytes
  import opened Striping
  import opened FlatDisk
  import opened Atlas
  import opened StripedDisk
  import opened StripedTheorems
  import opened StripedLooseRuns

  // ---------- a run that cuts a request in two ----------

  lemma ShowsWrite(c: Config, storage: seq<seq<byte>>, flat: seq<byte>, b: nat, block: seq<byte>)
    requires Shows(c, storage, flat) && b < c.size / FRAGMENT && |block| == FRAGMENT
    ensures Offset(b, c.n) + FRAGMENT <= CAPACITY && b * FRAGMENT + FRAGMENT <= |flat|
    ensures Shows(c, storage[Device(b, c.n) := Splice(storage[Device(b, c.n)], Offset(b, c.n), block)], Splice(flat, b * FRAGMENT, block))
  {
    Footprint(c.size / FRAGMENT, b, c.n);
    var d := Device(b, c.n);
    var storage' := storage[d := Splice(storage[d], Offset(b, c.n), block)];
    hide Splice, Device, Offset, BlockAt;
    forall x: nat | x < c.size / FRAGMENT
      ensures StoredBlock(c, storage', x) == BlockAt(Splice(flat, b * FRAGMENT, block), x * FRAGMENT)
    {
      Footprint(c.size / FRAGMENT, x, c.n);
      FragmentsMeet(x, b, c.n);
      SpliceBlocks(storage[d], Offset(b, c.n), block, Offset(x, c.n));
      SpliceBlocks(flat, b * FRAGMENT, block, x * FRAGMENT);
      assert StoredBlock(c, storage, x) == BlockAt(flat, x * FRAGMENT);
    }
  }

  lemma OneDelivered(c: Config, s: State, i: nat, flat: seq<byte>)
    requires Sendable1(c, s, i) && Shows(c, s.storage, flat)
    ensures var s', r, e := Delivered(c, s, i), s.log[i], s.entries[i];
            && Tidy(c, s') && Sends(c, s', i) && s'.entries[i].phase == Sending(e.phase.next + 1) && s'.entries[i].uid == e.uid
            && BlockNo(r, e.phase.next) * FRAGMENT + FRAGMENT <= |flat| && e.phase.next * FRAGMENT + FRAGMENT <= r.len
            && Shows(c, s'.storage, if r.cmd.Write? then Splice(flat, BlockNo(r, e.phase.next) * FRAGMENT, BlockAt(r.data, e.phase.next * FRAGMENT)) else flat)
            && s'.entries[i].buf == if r.cmd.Read? then Splice(e.buf, e.phase.next * FRAGMENT, BlockAt(flat, BlockNo(r, e.phase.next) * FRAGMENT)) else e.buf
  {
    Place(c, s, i);
    hide Splice, Device, Offset, BlockAt, StoredBlock, HeaderOf;
    var r, k := s.log[i], s.entries[i].phase.next;
    if r.cmd.Write? {
      ShowsWrite(c, s.storage, flat, BlockNo(r, k), BlockAt(r.data, k * FRAGMENT));
    }
  }

  // Fragments of request i are delivered, up to fragment hi.
  predicate DeliveredUpTo(c: Config, s: State, i: nat, hi: nat, flat: seq<byte>, s': State)
    requires Tidy(c, s) && Sends(c, s, i) && |flat| == c.size && s.entries[i].phase.next <= hi <= Fragments(s.log[i])
  {
    var r, e := s.log[i], s.entries[i];
    && Tidy(c, s') && Sends(c, s', i) && s'.entries[i].phase == Sending(hi) && s'.entries[i].uid == e.uid
    && s' == s.(entries := s.entries[i := s'.entries[i]], storage := s'.storage,
                slicerMap := if e.phase.next < hi == Fragments(r) then s.slicerMap - {e.uid} else s.slicerMap)
    && Shows(c, s'.storage, Partly(flat, r, e.phase.next, hi))
    && s'.entries[i].buf == Fetched(e.buf, flat, r, e.phase.next, hi)
  }

  lemma {:induction false} Deliver(c: Config, disk: seq<byte>, s: State, i: nat, hi: nat, flat: seq<byte>) returns (s': State)
    requires Reached(c, disk, s) && Tidy(c, s) && Sends(c, s, i) && |flat| == c.size && Shows(c, s.storage, flat)
    requires s.entries[i].phase.next <= hi <= Fragments(s.log[i])
    ensures Reached(c, disk, s') && DeliveredUpTo(c, s, i, hi, flat, s')
    decreases hi
  {
    hide Reached, Shows, Silent, StorageShape, Partly, Fetched;
    if hi == s.entries[i].phase.next {
      s' := s;
      NothingDelivered(flat, s.log[i], s.entries[i].buf, hi);
      assert s.entries[i := s.entries[i]] == s.entries;
    } else {
      hide DeliveredUpTo, Delivered;
      var t := Deliver(c, disk, s, i, hi - 1, flat);
      DeliveredMore(c, s, i, hi - 1, flat, t);
      DeliverNext(c, disk, t, i);
      s' := Delivered(c, t, i);
    }
  }

  lemma DeliveredMore(c: Config, s: State, i: nat, hi: nat, flat: seq<byte>, t: State)
    requires Tidy(c, s) && Sends(c, s, i) && |flat| == c.size && s.entries[i].phase.next <= hi < Fragments(s.log[i])
    requires DeliveredUpTo(c, s, i, hi, flat, t)
    ensures Sendable1(c, t, i) && DeliveredUpTo(c, s, i, hi + 1, flat, Delivered(c, t, i))
  {
    var r, e := s.log[i], s.entries[i];
    OneDelivered(c, t, i, Partly(flat, r, e.phase.next, hi));
    OneMorePart(flat, r, e.phase.next, hi);
    OneMoreFetched(e.buf, flat, r, e.phase.next, hi);
    SameBlocks(flat, r, e.phase.next, hi);
    SameBlocks(flat, r, e.phase.next, hi + 1);
    hide Splice, Stored, Merged, Partly, Fetched, Shows, Silent, StorageShape, BlockAt;
    assert s.entries[i := t.entries[i]][i := Merged(c, t, i)] == s.entries[i := Merged(c, t, i)];
  }

  lemma NothingDelivered(flat: seq<byte>, r: Request, buf: seq<byte>, k: nat)
    requires InParts(flat, r, k, k) && |buf| == r.len
    ensures Partly(flat, r, k, k) == flat && Fetched(buf, flat, r, k, k) == buf
  {
  }

  // A READ stores nothing.
  lemma SameBlocks(flat: seq<byte>, r: Request, lo: nat, hi: nat)
    requires InParts(flat, r, lo, hi)
    ensures !r.cmd.Write? ==> Partly(flat, r, lo, hi) == flat
  {
  }

  // ---------- the run ----------

  // Both requests registered, nothing sent.
  function Opened(s: State, a: Request, b: Request): State {
    s.(log := [a, b],
       entries := [Entry(Sending(0), 0, Fragments(a), a.data, 1, 2), Entry(Sending(0), 1, Fragments(b), b.data, 1, 2)],
       counter := 2, slicerMap := map[0 := 0, 1 := 1])
  }

  predicate Whole(c: Config, r: Request) {
    Legal(c, r) && Carries(r.cmd) && Fragments(r) > 0
  }

  lemma OpenedIsTidy(c: Config, disk: seq<byte>, s: State, a: Request, b: Request)
    requires Init(c, disk, s)
    ensures Tidy(c, Opened(s, a, b)) && |disk| == c.size && Shows(c, Opened(s, a, b).storage, disk)
  {
  }

  function Fetching(s: State, a: Request, b: Request): State {
    s.(log := [a, b], entries := [Entry(Queued, 0, 0, a.data, 0, 1), Entry(Queued, 0, 0, b.data, 0, 1)])
  }

  lemma AcceptBoth(c: Config, disk: seq<byte>, s: State, a: Request, b: Request)
    requires Init(c, disk, s) && Whole(c, a) && Whole(c, b)
    ensures Reached(c, disk, Fetching(s, a, b))
  {
    Start(c, disk, s);
    hide Reached, Shows, Legal;
    var s1 := s.(log := [a], entries := [Entry(Queued, 0, 0, a.data, 0, 1)]);
    assert [] + [a] == [a];
    Then(c, disk, s, Accept(a), s1);
    assert [a] + [b] == [a, b];
    Then(c, disk, s1, Accept(b), Fetching(s, a, b));
  }

  function Cutting(s: State, a: Request, b: Request): State {
    Opened(s, a, b).(entries := [Entry(Sliced, 0, Fragments(a), a.data, 1, 2), Entry(Sliced, 1, Fragments(b), b.data, 1, 2)],
                     slicerMap := map[])
  }

  lemma SliceBoth(c: Config, disk: seq<byte>, s: State, a: Request, b: Request)
    requires Reached(c, disk, Fetching(s, a, b)) && s.counter == 0 && s.slicerMap == map[]
    ensures Reached(c, disk, Cutting(s, a, b))
  {
    hide Reached;
    var s2 := Fetching(s, a, b);
    var s3 := s2.(entries := [Entry(Sliced, 0, Fragments(a), a.data, 1, 2), Entry(Queued, 0, 0, b.data, 0, 1)], counter := 1);
    Then(c, disk, s2, Slice(0), s3);
    Then(c, disk, s3, Slice(1), Cutting(s, a, b));
  }

  lemma Open(c: Config, disk: seq<byte>, s: State, a: Request, b: Request)
    requires Init(c, disk, s) && Whole(c, a) && Whole(c, b)
    ensures Reached(c, disk, Opened(s, a, b))
  {
    hide Reached, Shows, Legal;
    AcceptBoth(c, disk, s, a, b);
    SliceBoth(c, disk, s, a, b);
    var s5 := Cutting(s, a, b).(entries := [Entry(Sending(0), 0, Fragments(a), a.data, 1, 2), Entry(Sliced, 1, Fragments(b), b.data, 1, 2)],
                                slicerMap := map[0 := 0]);
    Then(c, disk, Cutting(s, a, b), Register(0), s5);
    Then(c, disk, s5, Register(1), Opened(s, a, b));
  }

  // The task of a request whose replies are all merged ends, and with it the request.
  function Finished(s: State, i: nat): State
    requires i < |s.log| == |s.entries|
  {
    s.(entries := s.entries[i := s.entries[i].(phase := Released, requestUses := 0)],
       done := s.done + [Completion(i, if s.log[i].cmd.Read? then s.entries[i].buf else [])])
  }

  lemma Finish(c: Config, disk: seq<byte>, s: State, i: nat)
    requires Reached(c, disk, s) && Sends(c, s, i) && s.entries[i].phase.next == Fragments(s.log[i])
    ensures Reached(c, disk, Finished(s, i))
  {
    hide Reached;
    Then(c, disk, s, Release(i), Finished(s, i));
  }

  // ---------- and what comes of it ----------

  // Request a is cut at its fragment k, and b is carried out in between.
  function Between(disk: seq<byte>, a: Request, b: Request, k: nat): (after: seq<byte>)
    requires InParts(disk, a, 0, k) && Fits(b, |disk|)
    ensures |after| == |disk|
  {
    Effect(Partly(disk, a, 0, k), b)
  }

  function AtTheEnd(disk: seq<byte>, a: Request, b: Request, k: nat): (after: seq<byte>)
    requires InParts(disk, a, 0, k) && InParts(disk, a, k, Fragments(a)) && Fits(b, |disk|)
    ensures |after| == |disk|
  {
    Partly(Between(disk, a, b, k), a, k, Fragments(a))
  }

  // What a READ that is cut at fragment k is answered.
  function Split(early: seq<byte>, late: seq<byte>, r: Request, k: nat): seq<byte>
    requires |early| == |late| && InParts(early, r, 0, k)
  {
    early[r.from..r.from + k * FRAGMENT] + late[r.from + k * FRAGMENT..r.from + r.len]
  }

  lemma SplitFetch(early: seq<byte>, late: seq<byte>, r: Request, k: nat)
    requires |early| == |late| && InParts(early, r, 0, k) && InParts(early, r, k, Fragments(r)) && r.len % FRAGMENT == 0 && r.cmd.Read?
    ensures Fetched(Fetched(r.data, early, r, 0, k), late, r, k, Fragments(r)) == Split(early, late, r, k)
  {
  }

  predicate Cut(c: Config, disk: seq<byte>, a: Request, b: Request, k: nat, s: State) {
    && Whole(c, a) && Whole(c, b) && k <= Fragments(a) && |disk| == c.size
    && s.log == [a, b] && Idle(s)
    && Shows(c, s.storage, AtTheEnd(disk, a, b, k))
    && s.done == [Completion(1, Answer(Partly(disk, a, 0, k), b)),
                  Completion(0, if a.cmd.Read? then Split(disk, Between(disk, a, b, k), a, k) else [])]
  }

  // Without the promise about conflicts, any request a can be cut by any request b at any fragment, on any number of servers:
  // this run ends, both requests are completed, and it leaves what `Cut` says.
  lemma RunThatCuts(c: Config, disk: seq<byte>, s: State, a: Request, b: Request, k: nat) returns (end: State)
    requires Init(c, disk, s) && Whole(c, a) && Whole(c, b) && k <= Fragments(a)
    ensures Reached(c, disk, end) && Cut(c, disk, a, b, k, end)
  {
    hide Reached, Shows, Silent, StorageShape, Partly, Fetched, Splice;
    Open(c, disk, s, a, b);
    var s0 := Opened(s, a, b);
    OpenedIsTidy(c, disk, s, a, b);
    var s1 := Deliver(c, disk, s0, 0, k, disk);
    var s2 := Deliver(c, disk, s1, 1, Fragments(b), Partly(disk, a, 0, k));
    AllParts(Partly(disk, a, 0, k), b);
    Finish(c, disk, s2, 1);
    var s3 := Finished(s2, 1);
    var s4 := Deliver(c, disk, s3, 0, Fragments(a), Between(disk, a, b, k));
    Finish(c, disk, s4, 0);
    end := Finished(s4, 0);
    if a.cmd.Read? {
      SplitFetch(disk, Between(disk, a, b, k), a, k);
    }
  }
}
