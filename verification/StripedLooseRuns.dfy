// Runs in which the kernel hands over conflicting requests: one request is cut in two by another.
module StripedLooseRuns {
  import opened Bytes
  import opened Striping
  import opened FlatDisk
  import opened Atlas
  import opened StripedDisk
  import opened StripedMessages
  import opened Wire

  // A run of the same machine, with Enabled in place of Allowed.
  predicate IsLooseRun(c: Config, disk: seq<byte>, states: seq<State>, acts: seq<Action>) {
    && |states| == |acts| + 1
    && Init(c, disk, states[0])
    && forall j :: 0 <= j < |acts| ==> Enabled(c, states[j], acts[j]) && Step(c, states[j], acts[j]) == Ok(states[j + 1])
  }

  ghost predicate Reached(c: Config, disk: seq<byte>, s: State) {
    exists states: seq<State>, acts: seq<Action> :: IsLooseRun(c, disk, states, acts) && states[|acts|] == s
  }

  lemma Start(c: Config, disk: seq<byte>, s: State)
    requires Init(c, disk, s)
    ensures Reached(c, disk, s)
  {
    hide Init;
    assert IsLooseRun(c, disk, [s], []);
  }

  lemma Then(c: Config, disk: seq<byte>, s: State, a: Action, next: State)
    requires Reached(c, disk, s) && Enabled(c, s, a) && Step(c, s, a) == Ok(next)
    ensures Reached(c, disk, next)
  {
    hide Enabled, Step, Init;
    var states: seq<State>, acts: seq<Action> :| IsLooseRun(c, disk, states, acts) && states[|acts|] == s;
    assert IsLooseRun(c, disk, states + [next], acts + [a]);
  }

  // ---------- parts of requests on the flat disk ----------

  predicate InParts(disk: seq<byte>, r: Request, lo: nat, hi: nat) {
    Fits(r, |disk|) && lo <= hi && hi * FRAGMENT <= r.len
  }

  // The disk once the fragments lo to hi of the request are stored.
  function Partly(disk: seq<byte>, r: Request, lo: nat, hi: nat): (after: seq<byte>)
    requires InParts(disk, r, lo, hi)
    ensures |after| == |disk|
  {
    if r.cmd.Write? then Splice(disk, r.from + lo * FRAGMENT, r.data[lo * FRAGMENT..hi * FRAGMENT]) else disk
  }

  // The buffer once the fragments lo to hi are fetched.
  function Fetched(buf: seq<byte>, disk: seq<byte>, r: Request, lo: nat, hi: nat): (after: seq<byte>)
    requires InParts(disk, r, lo, hi) && |buf| == r.len
    ensures |after| == r.len
  {
    if r.cmd.Read? then Splice(buf, lo * FRAGMENT, disk[r.from + lo * FRAGMENT..r.from + hi * FRAGMENT]) else buf
  }

  lemma OneMorePart(disk: seq<byte>, r: Request, lo: nat, hi: nat)
    requires InParts(disk, r, lo, hi + 1) && lo <= hi && r.from % FRAGMENT == 0
    ensures r.cmd.Write? ==> Partly(disk, r, lo, hi + 1) == Splice(Partly(disk, r, lo, hi), BlockNo(r, hi) * FRAGMENT, BlockAt(r.data, hi * FRAGMENT))
  {
    if r.cmd.Write? {
      var old', block := r.data[lo * FRAGMENT..hi * FRAGMENT], BlockAt(r.data, hi * FRAGMENT);
      assert old' + block == r.data[lo * FRAGMENT..(hi + 1) * FRAGMENT];
      SpliceTwice(disk, r.from + lo * FRAGMENT, old', block);
    }
  }

  lemma OneMoreFetched(buf: seq<byte>, disk: seq<byte>, r: Request, lo: nat, hi: nat)
    requires InParts(disk, r, lo, hi + 1) && lo <= hi && |buf| == r.len && r.from % FRAGMENT == 0
    ensures r.cmd.Read? ==> Fetched(buf, disk, r, lo, hi + 1) == Splice(Fetched(buf, disk, r, lo, hi), hi * FRAGMENT, BlockAt(disk, BlockNo(r, hi) * FRAGMENT))
  {
    if r.cmd.Read? {
      var old', block := disk[r.from + lo * FRAGMENT..r.from + hi * FRAGMENT], BlockAt(disk, BlockNo(r, hi) * FRAGMENT);
      assert old' + block == disk[r.from + lo * FRAGMENT..r.from + (hi + 1) * FRAGMENT];
      SpliceTwice(buf, lo * FRAGMENT, old', block);
    }
  }

  lemma AllParts(disk: seq<byte>, r: Request)
    requires Fits(r, |disk|) && r.len % FRAGMENT == 0
    ensures InParts(disk, r, 0, Fragments(r)) && Partly(disk, r, 0, Fragments(r)) == Effect(disk, r)
    ensures r.cmd.Read? ==> forall buf: seq<byte> :: |buf| == r.len ==> Fetched(buf, disk, r, 0, Fragments(r)) == Answer(disk, r)
  {
    assert Fragments(r) * FRAGMENT == r.len && r.data[0..r.len] == r.data;
  }

  // ---------- one fragment, there and back ----------

  function Silent(c: Config): seq<seq<Frame>> {
    seq(c.n, _ => [])
  }

  // Nothing is on its way.
  predicate Tidy(c: Config, s: State) {
    && |s.log| == |s.entries| && s.toDev == Silent(c) && s.fromDev == Silent(c) && s.tasks == [] && s.releasing == multiset{}
    && StorageShape(c, s.storage)
  }

  // Request i is in its Send loop, and what it has sent has been answered and merged.
  predicate Sends(c: Config, s: State, i: nat) {
    && i < |s.log| == |s.entries| && Legal(c, s.log[i]) && Carries(s.log[i].cmd)
    && var r, e := s.log[i], s.entries[i];
    && e.phase.Sending? && e.phase.next <= Fragments(r) && |e.buf| == r.len && (r.cmd.Write? ==> e.buf == r.data)
    && e.count == Fragments(r) - e.phase.next
    && (if e.phase.next < Fragments(r)
        then e.slicerUses == 1 && e.requestUses == 2 && e.uid in s.slicerMap && s.slicerMap[e.uid] == i
        else e.slicerUses == 0 && e.requestUses == 1)
  }

  predicate Sendable1(c: Config, s: State, i: nat) {
    Tidy(c, s) && Sends(c, s, i) && s.entries[i].phase.next < Fragments(s.log[i])
  }

  lemma Place(c: Config, s: State, i: nat)
    requires Sendable1(c, s, i)
    ensures var r, k := s.log[i], s.entries[i].phase.next; var b := BlockNo(r, k);
            && b < c.size / FRAGMENT && Device(b, c.n) < c.n && Offset(b, c.n) + FRAGMENT <= CAPACITY
            && HeaderOf(r, s.entries[i].uid, k, c.n)
               == Header(s.entries[i].uid, k, 0, Offset(b, c.n), if r.cmd.Read? then READ else WRITE, FRAGMENT)
            && k * FRAGMENT + FRAGMENT <= r.len && U32(FRAGMENT * k) == k * FRAGMENT
  {
    var r, k := s.log[i], s.entries[i].phase.next;
    HeaderFields(c, r, s.entries[i].uid, k);
    Blockwise(r, k);
  }

  function Dev(c: Config, s: State, i: nat): (d: nat)
    requires Sendable1(c, s, i)
    ensures d < c.n
  {
    Device(BlockNo(s.log[i], s.entries[i].phase.next), c.n)
  }

  function Sent(c: Config, s: State, i: nat): Frame
    requires Sendable1(c, s, i)
  {
    Place(c, s, i);
    var r, e := s.log[i], s.entries[i];
    Frame(HeaderOf(r, e.uid, e.phase.next, c.n), if r.cmd.Write? then BlockAt(e.buf, e.phase.next * FRAGMENT) else [])
  }

  // The states that follow s when its next fragment is sent, served, received, merged and its slicer let go.
  function S1(c: Config, s: State, i: nat): State
    requires Sendable1(c, s, i)
  {
    var k, d := s.entries[i].phase.next, Dev(c, s, i);
    s.(entries := s.entries[i := s.entries[i].(phase := Sending(k + 1))], toDev := Silent(c)[d := [Sent(c, s, i)]])
  }

  function Stored(c: Config, s: State, i: nat): (storage: seq<seq<byte>>)
    requires Sendable1(c, s, i)
    ensures |storage| == c.n
  {
    Place(c, s, i);
    var r, k := s.log[i], s.entries[i].phase.next;
    var b := BlockNo(r, k);
    var d := Device(b, c.n);
    if r.cmd.Write? then s.storage[d := Splice(s.storage[d], Offset(b, c.n), BlockAt(r.data, k * FRAGMENT))] else s.storage
  }

  function Found(c: Config, s: State, i: nat): (block: seq<byte>)
    requires Sendable1(c, s, i)
    ensures |block| == FRAGMENT
  {
    Place(c, s, i);
    StoredBlock(c, s.storage, BlockNo(s.log[i], s.entries[i].phase.next))
  }

  function S2(c: Config, s: State, i: nat): State
    requires Sendable1(c, s, i)
  {
    var d := Dev(c, s, i);
    S1(c, s, i).(toDev := Silent(c), fromDev := Silent(c)[d := [Reply(c, s, i)]], storage := Stored(c, s, i))
  }

  // A WRITE reply happens to bring what the buffer holds anyway.
  function Brought(c: Config, s: State, i: nat): (block: seq<byte>)
    requires Sendable1(c, s, i)
    ensures |block| == FRAGMENT
  {
    Place(c, s, i);
    if s.log[i].cmd.Read? then Found(c, s, i) else BlockAt(s.entries[i].buf, s.entries[i].phase.next * FRAGMENT)
  }

  function S3(c: Config, s: State, i: nat): State
    requires Sendable1(c, s, i)
  {
    S2(c, s, i).(fromDev := Silent(c), tasks := [Frame(Sent(c, s, i).hdr, Brought(c, s, i))])
  }

  function Merged(c: Config, s: State, i: nat): Entry
    requires Sendable1(c, s, i)
  {
    Place(c, s, i);
    var r, e := s.log[i], s.entries[i];
    var last := e.phase.next + 1 == Fragments(r);
    Entry(Sending(e.phase.next + 1), e.uid, e.count - 1,
          if r.cmd.Read? then Splice(e.buf, e.phase.next * FRAGMENT, Found(c, s, i)) else e.buf,
          if last then 0 else 1, if last then 1 else 2)
  }

  function Delivered(c: Config, s: State, i: nat): State
    requires Sendable1(c, s, i)
  {
    var e := s.entries[i];
    s.(entries := s.entries[i := Merged(c, s, i)], storage := Stored(c, s, i),
       slicerMap := if e.phase.next + 1 == Fragments(s.log[i]) then s.slicerMap - {e.uid} else s.slicerMap)
  }

  function S4(c: Config, s: State, i: nat): State
    requires Sendable1(c, s, i)
  {
    var last := s.entries[i].phase.next + 1 == Fragments(s.log[i]);
    Delivered(c, s, i).(entries := s.entries[i := Merged(c, s, i).(slicerUses := if last then 1 else 2, requestUses := 2)],
                        releasing := multiset{i})
  }

  lemma SentThere(c: Config, s: State, i: nat)
    requires Sendable1(c, s, i)
    ensures Enabled(c, s, SendNext(i)) && Step(c, s, SendNext(i)) == Ok(S1(c, s, i))
  {
    Place(c, s, i);
    hide HeaderOf, BlockAt, Offset, Device, Stored, Found;
    assert [] + [Sent(c, s, i)] == [Sent(c, s, i)];
    SilentAt(c, Dev(c, s, i), []);
  }

  function Reply(c: Config, s: State, i: nat): Frame
    requires Sendable1(c, s, i)
  {
    Frame(Sent(c, s, i).hdr, if s.log[i].cmd.Read? then Found(c, s, i) else [])
  }

  lemma FrameServed(c: Config, s: State, i: nat)
    requires Sendable1(c, s, i)
    ensures ServeFrame(s.storage[Dev(c, s, i)], Sent(c, s, i)) == Served(Stored(c, s, i)[Dev(c, s, i)], [Reply(c, s, i)])
    ensures s.storage[Dev(c, s, i) := Stored(c, s, i)[Dev(c, s, i)]] == Stored(c, s, i)
  {
    Place(c, s, i);
    hide HeaderOf, Offset, Device, Splice;
    CutIsBlock(s.storage[Dev(c, s, i)], Sent(c, s, i).hdr.offset);
  }

  lemma ServedThere(c: Config, s: State, i: nat)
    requires Sendable1(c, s, i)
    ensures var d := Dev(c, s, i);
            Enabled(c, S1(c, s, i), Serve(d)) && Step(c, S1(c, s, i), Serve(d)) == Ok(S2(c, s, i))
  {
    FrameServed(c, s, i);
    hide ServeFrame, Dev, Sent, Stored, Reply, Found, Splice, Silent;
    SilentAt(c, Dev(c, s, i), [Sent(c, s, i)]);
    assert [Sent(c, s, i)][1..] == [] && [] + [Reply(c, s, i)] == [Reply(c, s, i)];
  }

  lemma ReceivedBack(c: Config, s: State, i: nat)
    requires Sendable1(c, s, i)
    ensures var d := Dev(c, s, i);
            && Enabled(c, S2(c, s, i), Receive(d, Brought(c, s, i))) && Step(c, S2(c, s, i), Receive(d, Brought(c, s, i))) == Ok(S3(c, s, i))
  {
    Place(c, s, i);
    hide HeaderOf, Offset, Dev, BlockAt, Splice, Found, Stored, Silent, S1;
    var d := Dev(c, s, i);
    SilentAt(c, d, [Reply(c, s, i)]);
    assert [Reply(c, s, i)][1..] == [] && [] + [Frame(Sent(c, s, i).hdr, Brought(c, s, i))] == [Frame(Sent(c, s, i).hdr, Brought(c, s, i))];
    assert S1(c, s, i).tasks == [];
  }

  lemma SilentAt(c: Config, d: nat, sq: seq<Frame>)
    requires d < c.n
    ensures |Silent(c)| == c.n && Silent(c)[d] == [] && Silent(c)[d := sq][d := []] == Silent(c)
  {
  }

  lemma MergedBack(c: Config, s: State, i: nat)
    requires Sendable1(c, s, i)
    ensures Enabled(c, S3(c, s, i), Merge(0)) && Step(c, S3(c, s, i), Merge(0)) == Ok(S4(c, s, i))
  {
    Place(c, s, i);
    var e, k := s.entries[i], s.entries[i].phase.next;
    SameSplice(e.buf, k * FRAGMENT);
    hide HeaderOf, Offset, Device, BlockAt, Splice, StoredBlock, Stored, Silent;
    assert U64(e.count - 1) == e.count - 1;
    assert S3(c, s, i).tasks[..0] + S3(c, s, i).tasks[1..] == [];
  }

  lemma SameSplice(buf: seq<byte>, at: nat)
    requires at + FRAGMENT <= |buf|
    ensures Splice(buf, at, BlockAt(buf, at)) == buf
  {
  }

  lemma LetGo(c: Config, s: State, i: nat)
    requires Sendable1(c, s, i)
    ensures Enabled(c, S4(c, s, i), DropSlicer(i)) && Step(c, S4(c, s, i), DropSlicer(i)) == Ok(Delivered(c, s, i))
  {
    hide HeaderOf, Offset, Device, BlockAt, Splice, StoredBlock, Stored, Silent, Found;
    assert multiset{i} - multiset{i} == multiset{};
  }

  lemma DeliverNext(c: Config, disk: seq<byte>, s: State, i: nat)
    requires Reached(c, disk, s) && Sendable1(c, s, i)
    ensures Reached(c, disk, Delivered(c, s, i))
  {
    hide Reached, S1, S2, S3, S4, Delivered, Step, Enabled;
    var d := Dev(c, s, i);
    SentThere(c, s, i);
    Then(c, disk, s, SendNext(i), S1(c, s, i));
    ServedThere(c, s, i);
    Then(c, disk, S1(c, s, i), Serve(d), S2(c, s, i));
    ReceivedBack(c, s, i);
    Then(c, disk, S2(c, s, i), Receive(d, Brought(c, s, i)), S3(c, s, i));
    MergedBack(c, s, i);
    Then(c, disk, S3(c, s, i), Merge(0), S4(c, s, i));
    LetGo(c, s, i);
    Then(c, disk, S4(c, s, i), DropSlicer(i), Delivered(c, s, i));
  }
}
