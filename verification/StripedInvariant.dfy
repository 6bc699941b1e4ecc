// Why the striped device works: what every reachable state satisfies. A history records where each fragment is, which
// the states themselves do not.
module StripedInvariant {
  import opened Bytes
  import opened Striping
  import opened FlatDisk
  import opened Atlas
  import opened StripedDisk

  // Where a fragment is: not sent, on the way to its server, on the way back, in a reply task, merged.
  datatype Stage = Unsent | Requested | Answered | Arrived | Merged

  // `owner` maps each block whose stored bytes are out of date to the unserved Write fragment that will renew it.
  datatype History = History(stage: seq<seq<Stage>>, owner: map<nat, (nat, nat)>)

  function Outstanding(st: seq<Stage>): nat {
    if st == [] then 0 else Outstanding(st[..|st| - 1]) + if st[|st| - 1].Merged? then 0 else 1
  }

  lemma {:induction false} OutstandingAfter(st: seq<Stage>, k: nat, to: Stage)
    requires k < |st|
    ensures Outstanding(st[k := to]) == Outstanding(st) - (if st[k].Merged? then 0 else 1) + (if to.Merged? then 0 else 1)
  {
    var last := |st| - 1;
    if k < last {
      OutstandingAfter(st[..last], k, to);
      assert st[k := to][..last] == st[..last][k := to];
    } else {
      assert st[k := to][..last] == st[..last];
    }
  }

  function Unmerged(st: seq<Stage>): set<nat> {
    set k: nat | k < |st| && !st[k].Merged?
  }

  lemma {:induction false} OutstandingCounts(st: seq<Stage>)
    ensures Outstanding(st) == |Unmerged(st)|
  {
    if st != [] {
      var last := |st| - 1;
      OutstandingCounts(st[..last]);
      assert Unmerged(st) == Unmerged(st[..last]) + if st[last].Merged? then {} else {last};
    }
  }

  lemma {:induction false} OutstandingZero(st: seq<Stage>)
    ensures Outstanding(st) == 0 <==> forall k :: 0 <= k < |st| ==> st[k].Merged?
    ensures Outstanding(st) <= |st|
    ensures (forall k :: 0 <= k < |st| ==> !st[k].Merged?) ==> Outstanding(st) == |st|
  {
    if st != [] {
      OutstandingZero(st[..|st| - 1]);
    }
  }

  function AllUnsent(m: nat): (st: seq<Stage>)
    ensures |st| == m && forall k :: 0 <= k < m ==> st[k].Unsent?
  {
    seq(m, _ => Unsent)
  }

  function Put(stage: seq<seq<Stage>>, i: nat, k: nat, to: Stage): (r: seq<seq<Stage>>)
    requires i < |stage| && k < |stage[i]|
    ensures |r| == |stage|
  {
    stage[i := stage[i][k := to]]
  }

  predicate Within(b: nat, low: nat, count: nat) {
    low <= b < low + count
  }

  // The flat blocks the request covers.
  function Blocks(r: Request): set<nat> {
    set b: nat | b < BlockNo(r, Fragments(r)) && Within(b, BlockNo(r, 0), Fragments(r))
  }

  // The blocks of request i, each owned by its fragment.
  function Owners(r: Request, i: nat): (m: map<nat, (nat, nat)>)
    ensures forall b :: b in m <==> r.cmd.Write? && Within(b, BlockNo(r, 0), Fragments(r))
    ensures forall b :: b in m ==> m[b] == (i, b - BlockNo(r, 0))
  {
    if r.cmd.Write? then map b | b in Blocks(r) :: (i, b - BlockNo(r, 0)) else map[]
  }

  function MoveFragment(s: State, h: History, f: Frame, to: Stage): History {
    if f.hdr.uid in s.slicerMap && s.slicerMap[f.hdr.uid] < |h.stage| && f.hdr.frag < |h.stage[s.slicerMap[f.hdr.uid]]|
    then h.(stage := Put(h.stage, s.slicerMap[f.hdr.uid], f.hdr.frag, to))
    else h
  }

  function Track(c: Config, s: State, h: History, a: Action): History
    requires Enabled(c, s, a)
  {
    match a
    case Accept(r) => History(h.stage + [AllUnsent(Fragments(r))], h.owner + Owners(r, |s.log|))
    case SendNext(i) =>
      var k := s.entries[i].phase.next;
      if Carries(s.log[i].cmd) && i < |h.stage| && k < |h.stage[i]|
      then h.(stage := Put(h.stage, i, k, Requested)) else h
    case Serve(d) =>
      var f := s.toDev[d][0];
      var h' := MoveFragment(s, h, f, Answered);
      if f.hdr.kind == WRITE && f.hdr.uid in s.slicerMap && s.slicerMap[f.hdr.uid] < |s.log|
      then h'.(owner := h.owner - {BlockNo(s.log[s.slicerMap[f.hdr.uid]], f.hdr.frag)}) else h'
    case Receive(d, garbage) => MoveFragment(s, h, s.fromDev[d][0], Arrived)
    case Merge(t) => MoveFragment(s, h, s.tasks[t], Merged)
    case _ => h
  }

  // ---------- one request ----------

  function B(b: bool): nat {
    if b then 1 else 0
  }

  // The fragments the Send loop has passed.
  function Passed(phase: Phase, m: nat): nat {
    match phase
    case Queued => 0
    case Sliced => 0
    case Sending(next) => next
    case Released => m
  }

  // Is the request's slicer in the map? It leaves with the last reply, and never when there is no reply to wait for.
  predicate Listed(phase: Phase, st: seq<Stage>) {
    (phase.Sending? || phase.Released?) && (st == [] || Outstanding(st) > 0)
  }

  predicate SendInv(cmd: Command, phase: Phase, st: seq<Stage>) {
    && Passed(phase, |st|) <= |st|
    && forall k :: 0 <= k < |st| ==> (st[k].Unsent? <==> k >= Passed(phase, |st|) || !Carries(cmd))
  }

  predicate BufferInv(r: Request, buf: seq<byte>, st: seq<Stage>, want: seq<byte>)
    requires r.len % FRAGMENT == 0 && |buf| == |r.data| == r.len && |st| == Fragments(r) && (r.cmd.Read? ==> |want| == r.len)
  {
    && (r.cmd.Write? ==> forall k: nat :: k < |st| && st[k].Unsent? ==> BlockAt(buf, k * FRAGMENT) == BlockAt(r.data, k * FRAGMENT))
    && (r.cmd.Read? ==> forall k: nat :: k < |st| && st[k].Merged? ==> BlockAt(buf, k * FRAGMENT) == BlockAt(want, k * FRAGMENT))
  }

  // `held` reply tasks hold the slicer; `want` is what the original program would answer.
  predicate EntryInv(r: Request, e: Entry, st: seq<Stage>, held: nat, want: seq<byte>)
    requires r.len % FRAGMENT == 0 && |r.data| == r.len && (r.cmd.Read? ==> |want| == r.len)
  {
    && |e.buf| == r.len && |st| == Fragments(r)
    && SendInv(r.cmd, e.phase, st)
    && (!e.phase.Queued? ==> e.count == Outstanding(st))
    && (e.phase.Queued? || e.phase.Sliced? ==> held == 0)
    && e.slicerUses == B(e.phase.Sliced?) + B(Listed(e.phase, st)) + held
    && e.requestUses == B(!e.phase.Released?) + B(e.slicerUses > 0)
    && BufferInv(r, e.buf, st, want)
  }

  // ---------- all requests ----------

  predicate LogInv(c: Config, disk: seq<byte>, log: seq<Request>) {
    && |disk| == c.size
    && forall i :: 0 <= i < |log| ==> Legal(c, log[i])
  }

  predicate EntriesInv(c: Config, disk: seq<byte>, log: seq<Request>, entries: seq<Entry>, stage: seq<seq<Stage>>, releasing: multiset<nat>)
    requires LogInv(c, disk, log) && |log| == |entries| == |stage|
  {
    && (forall i :: 0 <= i < |log| ==> EntryInv(log[i], entries[i], stage[i], releasing[i], Want(disk, log, i)))
    && (forall i :: i in releasing ==> i < |log|)
  }

  predicate MapInv(entries: seq<Entry>, stage: seq<seq<Stage>>, slicerMap: map<u32, nat>)
    requires |entries| == |stage|
  {
    && (forall u :: u in slicerMap ==> slicerMap[u] < |entries| && entries[slicerMap[u]].uid == u
                                       && Listed(entries[slicerMap[u]].phase, stage[slicerMap[u]]))
    && (forall i :: 0 <= i < |entries| && Listed(entries[i].phase, stage[i]) ==>
                      entries[i].uid in slicerMap && slicerMap[entries[i].uid] == i)
    && (forall i :: 0 <= i < |entries| && entries[i].phase.Sliced? ==> entries[i].uid !in slicerMap)
    && (forall i, j :: 0 <= i < j < |entries| && entries[i].phase.Sliced? && entries[j].phase.Sliced? ==>
                         entries[i].uid != entries[j].uid)
  }

  predicate DoneInv(c: Config, disk: seq<byte>, log: seq<Request>, entries: seq<Entry>, done: seq<Completion>)
    requires LogInv(c, disk, log) && |entries| == |log|
  {
    && (forall p :: 0 <= p < |done| ==> done[p].index < |log| && entries[done[p].index].requestUses == 0
                                        && done[p].payload == Want(disk, log, done[p].index))
    && (forall p, q :: 0 <= p < q < |done| ==> done[p].index != done[q].index)
    && (forall i :: 0 <= i < |log| && entries[i].requestUses == 0 ==> exists p :: 0 <= p < |done| && done[p].index == i)
  }

  // ---------- messages ----------

  function Key(f: Frame): (u32, nat) {
    (f.hdr.uid, f.hdr.frag)
  }

  function Keys(sq: seq<Frame>): set<(u32, nat)> {
    set p | 0 <= p < |sq| :: Key(sq[p])
  }

  function Uids(entries: seq<Entry>): (u: seq<u32>)
    ensures |u| == |entries| && forall i :: 0 <= i < |entries| ==> u[i] == entries[i].uid
  {
    seq(|entries|, i requires 0 <= i < |entries| => entries[i].uid)
  }

  // Does fragment k travel through the place that belongs to device `dev` (any device if negative)?
  predicate Goes(c: Config, r: Request, k: nat, dev: int) {
    dev < 0 || Device(BlockNo(r, k), c.n) == dev
  }

  // What a message about fragment k of request i carries, by stage.
  predicate PayloadInv(c: Config, disk: seq<byte>, log: seq<Request>, i: nat, k: nat, at: Stage, data: seq<byte>)
    requires LogInv(c, disk, log) && i < |log| && k < Fragments(log[i])
  {
    match at
    case Requested => if log[i].cmd.Write? then data == BlockAt(log[i].data, k * FRAGMENT) else data == []
    case Answered => if log[i].cmd.Read? then data == BlockAt(Want(disk, log, i), k * FRAGMENT) else data == []
    case Arrived => |data| == FRAGMENT && (log[i].cmd.Read? ==> data == BlockAt(Want(disk, log, i), k * FRAGMENT))
    case _ => false
  }

  predicate Located(c: Config, disk: seq<byte>, log: seq<Request>, stage: seq<seq<Stage>>, slicerMap: map<u32, nat>,
                    f: Frame, at: Stage, dev: int)
    requires LogInv(c, disk, log)
  {
    && f.hdr.uid in slicerMap
    && var i, k := slicerMap[f.hdr.uid], f.hdr.frag;
    && i < |log| && i < |stage| && k < |stage[i]| == Fragments(log[i])
    && stage[i][k] == at && Goes(c, log[i], k, dev)
    && f.hdr == HeaderOf(log[i], f.hdr.uid, k, c.n)
    && PayloadInv(c, disk, log, i, k, at, f.data)
  }

  predicate Distinct(sq: seq<Frame>) {
    forall p, q :: 0 <= p < q < |sq| ==> Key(sq[p]) != Key(sq[q])
  }

  // One socket direction, or the task queue: it holds exactly one message for each fragment that is in it.
  predicate Place(c: Config, disk: seq<byte>, log: seq<Request>, uids: seq<u32>, stage: seq<seq<Stage>>, slicerMap: map<u32, nat>,
                  sq: seq<Frame>, at: Stage, dev: int)
    requires LogInv(c, disk, log)
  {
    && |log| == |uids| == |stage|
    && Distinct(sq)
    && (forall p :: 0 <= p < |sq| ==> Located(c, disk, log, stage, slicerMap, sq[p], at, dev))
    && (forall i, k :: 0 <= i < |stage| && 0 <= k < |stage[i]| && stage[i][k] == at && Goes(c, log[i], k, dev) ==>
                         (uids[i], k) in Keys(sq))
  }

  predicate ChannelsInv(c: Config, disk: seq<byte>, log: seq<Request>, uids: seq<u32>, stage: seq<seq<Stage>>, slicerMap: map<u32, nat>,
                        toDev: seq<seq<Frame>>, fromDev: seq<seq<Frame>>, tasks: seq<Frame>)
    requires LogInv(c, disk, log)
  {
    && |toDev| == |fromDev| == c.n
    && (forall d :: 0 <= d < c.n ==> Place(c, disk, log, uids, stage, slicerMap, toDev[d], Requested, d))
    && (forall d :: 0 <= d < c.n ==> Place(c, disk, log, uids, stage, slicerMap, fromDev[d], Answered, d))
    && Place(c, disk, log, uids, stage, slicerMap, tasks, Arrived, -1)
  }

  // ---------- storage ----------

  predicate Unserved(st: Stage) {
    st.Unsent? || st.Requested?
  }

  predicate DiskInv(c: Config, disk: seq<byte>, log: seq<Request>, stage: seq<seq<Stage>>, owner: map<nat, (nat, nat)>, storage: seq<seq<byte>>)
    requires LogInv(c, disk, log)
  {
    && |stage| == |log| && (forall i :: 0 <= i < |log| ==> |stage[i]| == Fragments(log[i]))
    && StorageShape(c, storage)
    && var flat := After(disk, log);
    && (forall b: nat :: b < c.size / FRAGMENT && b !in owner ==> StoredBlock(c, storage, b) == BlockAt(flat, b * FRAGMENT))
    && (forall b :: b in owner ==> OwnerInv(log, stage, b, owner[b]))
    && (forall i, k :: 0 <= i < |log| && 0 <= k < |stage[i]| && Unserved(stage[i][k]) ==>
                         UnservedInv(c, disk, log, owner, flat, i, k))
  }

  predicate OwnerInv(log: seq<Request>, stage: seq<seq<Stage>>, b: nat, id: (nat, nat)) {
    && id.0 < |log| && id.0 < |stage| && id.1 < |stage[id.0]|
    && log[id.0].cmd.Write? && BlockNo(log[id.0], id.1) == b && Unserved(stage[id.0][id.1])
  }

  predicate UnservedInv(c: Config, disk: seq<byte>, log: seq<Request>, owner: map<nat, (nat, nat)>, flat: seq<byte>, i: nat, k: nat)
    requires LogInv(c, disk, log) && i < |log| && k < Fragments(log[i]) && |flat| == c.size
  {
    var b := BlockNo(log[i], k);
    && (log[i].cmd.Write? ==> b in owner && owner[b] == (i, k)
                              && BlockAt(flat, b * FRAGMENT) == BlockAt(log[i].data, k * FRAGMENT))
    && (log[i].cmd.Read? ==> b !in owner && BlockAt(flat, b * FRAGMENT) == BlockAt(Want(disk, log, i), k * FRAGMENT))
  }

  predicate Inv(c: Config, disk: seq<byte>, s: State, h: History) {
    && LogInv(c, disk, s.log)
    && |s.log| == |s.entries| == |h.stage|
    && EntriesInv(c, disk, s.log, s.entries, h.stage, s.releasing)
    && MapInv(s.entries, h.stage, s.slicerMap)
    && DoneInv(c, disk, s.log, s.entries, s.done)
    && ChannelsInv(c, disk, s.log, Uids(s.entries), h.stage, s.slicerMap, s.toDev, s.fromDev, s.tasks)
    && DiskInv(c, disk, s.log, h.stage, h.owner, s.storage)
  }

  lemma InitInv(c: Config, disk: seq<byte>, s: State)
    requires Init(c, disk, s)
    ensures Inv(c, disk, s, History([], map[]))
  {
  }
}
