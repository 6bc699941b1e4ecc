// The daemon, its sockets and the IoT servers as one transition system. An action is one critical section, or one
// system call, of one thread; any interleaving of actions is a run.
module StripedDisk {
  import opened Bytes
  import opened Striping
  import opened FlatDisk
  import opened Atlas

  datatype Layout = Layout(n: nat, size: nat)

  // n IoT servers behind a device of `size` bytes, which the daemon opens with at most CAPACITY.
  type Config = c: Layout | c.n >= 1 && c.size % FRAGMENT == 0 && c.size <= CAPACITY witness Layout(1, 0)

  // How far the task that serves a request has come: fetched and in the pool's queue; sliced; registered and in the
  // Send loop with `next` fragments behind it; destroyed by its worker.
  datatype Phase = Queued | Sliced | Sending(next: nat) | Released

  // A request with its Slicer and its use counts: `slicerUses` of the shared_ptr<Slicer> (the local of
  // Splicer::Request, the map, the local of each Reply), `requestUses` of the shared_ptr<Request> (the task, the slicer).
  datatype Entry = Entry(phase: Phase, uid: u32, count: nat, buf: seq<byte>, slicerUses: nat, requestUses: nat)

  // What NbdRequestDone wrote to the kernel: the reply header of request `index`, then `payload`.
  datatype Completion = Completion(index: nat, payload: seq<byte>)

  datatype State = State(
    log: seq<Request>,            // the requests in the order the daemon fetched them
    entries: seq<Entry>,          // ... and where each of them is now
    counter: nat,                 // the slicer's request_counter
    slicerMap: map<u32, nat>,     // uid to request
    toDev: seq<seq<Frame>>,       // on the socket to each server, oldest first
    fromDev: seq<seq<Frame>>,     // on the socket from each server, oldest first
    tasks: seq<Frame>,            // reply tasks in the pool's queue, which may start in any order
    releasing: multiset<nat>,     // reply tasks that are past the lock and still hold their slicer
    storage: seq<seq<byte>>,      // one per server
    done: seq<Completion>)        // completions in the order they were written

  datatype Action =
    | Accept(r: Request)
    | Slice(i: nat)
    | Register(i: nat)
    | SendNext(i: nat)
    | Release(i: nat)
    | Serve(d: nat)
    | Receive(d: nat, garbage: seq<byte>)
    | Merge(t: nat)
    | DropSlicer(i: nat)

  // Broken: the C++ code would dereference a null slicer, overrun a buffer, use one that is already freed, or
  // overwrite a live slicer in the map.
  datatype Outcome = Ok(s: State) | Broken

  predicate Carries(cmd: Command) {
    cmd.Read? || cmd.Write?
  }

  // What the daemon is assumed to be asked: whole aligned fragments of the device.
  predicate Legal(c: Config, r: Request) {
    Fits(r, c.size) && r.from % FRAGMENT == 0 && r.len % FRAGMENT == 0
  }

  predicate Conflict(a: Request, b: Request) {
    && Carries(a.cmd) && Carries(b.cmd) && (a.cmd.Write? || b.cmd.Write?)
    && a.from < b.from + b.len && b.from < a.from + a.len
  }

  predicate InFlight(s: State, j: nat) {
    j < |s.entries| && s.entries[j].requestUses > 0
  }

  // No request in flight overlaps r with one of the two a Write.
  predicate Compatible(s: State, r: Request) {
    forall j :: 0 <= j < |s.log| && InFlight(s, j) ==> !Conflict(s.log[j], r)
  }

  // No slicer that is, or is about to be, in the map has this uid.
  predicate UidFree(s: State, uid: u32) {
    && uid !in s.slicerMap
    && forall j :: 0 <= j < |s.entries| && s.entries[j].phase.Sliced? ==> s.entries[j].uid != uid
  }

  predicate Enabled(c: Config, s: State, a: Action) {
    match a
    case Accept(r) => Legal(c, r)
    case Slice(i) => i < |s.entries| && s.entries[i].phase.Queued? && UidFree(s, U32(s.counter))
    case Register(i) => i < |s.entries| && s.entries[i].phase.Sliced?
    case SendNext(i) => i < |s.entries| && i < |s.log| && s.entries[i].phase.Sending? && s.entries[i].phase.next < Fragments(s.log[i])
    case Release(i) => i < |s.entries| && i < |s.log| && s.entries[i].phase == Sending(Fragments(s.log[i]))
    case Serve(d) => d < |s.toDev| && s.toDev[d] != []
    case Receive(d, garbage) => d < |s.fromDev| && s.fromDev[d] != [] && |garbage| == s.fromDev[d][0].hdr.dataLen
    case Merge(t) => t < |s.tasks|
    case DropSlicer(i) => i in s.releasing
  }

  // What the kernel is assumed to keep to: it hands over no request that conflicts with one in flight.
  predicate Allowed(c: Config, s: State, a: Action) {
    Enabled(c, s, a) && (a.Accept? ==> Compatible(s, a.r))
  }

  function Step(c: Config, s: State, a: Action): Outcome
    requires Enabled(c, s, a)
  {
    match a
    case Accept(r) => Ok(s.(log := s.log + [r], entries := s.entries + [Entry(Queued, 0, 0, r.data, 0, 1)]))
    case Slice(i) => SliceStep(s, i)
    case Register(i) => RegisterStep(s, i)
    case SendNext(i) => SendStep(c, s, i)
    case Release(i) => DropRequest(s.(entries := s.entries[i := s.entries[i].(phase := Released)]), i)
    case Serve(d) => ServeStep(s, d)
    case Receive(d, garbage) => Ok(ReceiveStep(s, d, garbage))
    case Merge(t) => MergeStep(s, t)
    case DropSlicer(i) => DropSlicerStep(s, i)
  }

  // Slicer::Slice: take the next uid, count the fragments; the new slicer shares the request.
  function SliceStep(s: State, i: nat): Outcome
    requires i < |s.entries|
  {
    if i >= |s.log| then Broken else
    var e := s.entries[i];
    var e' := e.(phase := Sliced, uid := U32(s.counter), count := Fragments(s.log[i]), slicerUses := 1,
                 requestUses := e.requestUses + 1);
    Ok(s.(entries := s.entries[i := e'], counter := U64(s.counter + 1)))
  }

  // Splicer::Request: the map takes over the use that the local variable gives up.
  function RegisterStep(s: State, i: nat): Outcome
    requires i < |s.entries|
  {
    var e := s.entries[i];
    if e.uid in s.slicerMap then Broken
    else Ok(s.(entries := s.entries[i := e.(phase := Sending(0))], slicerMap := s.slicerMap[e.uid := i]))
  }

  // One Sender: it prints the frame of a Read or a Write on the socket of its device and ignores other types.
  function SendStep(c: Config, s: State, i: nat): Outcome
    requires i < |s.entries| && i < |s.log| && s.entries[i].phase.Sending?
  {
    var r, e := s.log[i], s.entries[i];
    var k := e.phase.next;
    var d := Device(BlockNo(r, k), c.n);
    var s' := s.(entries := s.entries[i := e.(phase := Sending(k + 1))]);
    if !Carries(r.cmd) then Ok(s')
    else if e.requestUses == 0 || k * FRAGMENT + FRAGMENT > |e.buf| || d >= |s.toDev| then Broken
    else
      var data := if r.cmd.Write? then BlockAt(e.buf, k * FRAGMENT) else [];
      Ok(s'.(toDev := s.toDev[d := s.toDev[d] + [Frame(HeaderOf(r, e.uid, k, c.n), data)]]))
  }

  // A server takes the oldest frame off its socket.
  function ServeStep(s: State, d: nat): Outcome
    requires d < |s.toDev| && s.toDev[d] != []
  {
    if d >= |s.storage| || d >= |s.fromDev| then Broken else
    match ServeFrame(s.storage[d], s.toDev[d][0])
    case Fault => Broken
    case Served(storage, reply) =>
      Ok(s.(toDev := s.toDev[d := s.toDev[d][1..]],
            fromDev := s.fromDev[d := s.fromDev[d] + reply],
            storage := s.storage[d := storage]))
  }

  // ManageReplies: a Read's data comes from the socket; otherwise the new buffer keeps whatever bytes it has.
  function ReceiveStep(s: State, d: nat, garbage: seq<byte>): State
    requires d < |s.fromDev| && s.fromDev[d] != []
  {
    var f := s.fromDev[d][0];
    var data := if f.hdr.kind == READ then f.data else garbage;
    s.(fromDev := s.fromDev[d := s.fromDev[d][1..]], tasks := s.tasks + [Frame(f.hdr, data)])
  }

  // Splicer::Reply up to the end of its critical section: copy, count down, forget the slicer on the last reply.
  function MergeStep(s: State, t: nat): Outcome
    requires t < |s.tasks|
  {
    var f := s.tasks[t];
    if f.hdr.uid !in s.slicerMap then Broken else
    var i := s.slicerMap[f.hdr.uid];
    if i >= |s.entries| then Broken else
    var e := s.entries[i];
    var at := U32(f.hdr.dataLen * f.hdr.frag);
    if e.requestUses == 0 || |f.data| != f.hdr.dataLen || at + |f.data| > |e.buf| then Broken else
    var count := U64(e.count - 1);
    var kept := if count == 0 then e.slicerUses else e.slicerUses + 1;
    Ok(s.(entries := s.entries[i := e.(buf := Splice(e.buf, at, f.data), count := count, slicerUses := kept)],
          slicerMap := if count == 0 then s.slicerMap - {f.hdr.uid} else s.slicerMap,
          tasks := s.tasks[..t] + s.tasks[t + 1..],
          releasing := s.releasing + multiset{i}))
  }

  // The end of Splicer::Reply: its slicer_ptr is destroyed, and the slicer's share of the request with the last of them.
  function DropSlicerStep(s: State, i: nat): Outcome
    requires i in s.releasing
  {
    if i >= |s.entries| || s.entries[i].slicerUses == 0 then Broken else
    var e := s.entries[i].(slicerUses := s.entries[i].slicerUses - 1);
    var s' := s.(entries := s.entries[i := e], releasing := s.releasing - multiset{i});
    if e.slicerUses > 0 then Ok(s') else DropRequest(s', i)
  }

  // A shared_ptr<Request> is destroyed; the last one runs the deleter, which completes the request and frees it.
  function DropRequest(s: State, i: nat): Outcome
    requires i < |s.entries|
  {
    var e := s.entries[i];
    if e.requestUses == 0 || i >= |s.log| then Broken else
    var s' := s.(entries := s.entries[i := e.(requestUses := e.requestUses - 1)]);
    if e.requestUses > 1 then Ok(s')
    else Ok(s'.(done := s.done + [Completion(i, if s.log[i].cmd.Read? then e.buf else [])]))
  }

  // The fragment of the flat device that the servers hold between them for this block.
  function StoredBlock(c: Config, storage: seq<seq<byte>>, block: nat): seq<byte>
    requires |storage| == c.n && (forall d :: 0 <= d < c.n ==> |storage[d]| == CAPACITY)
    requires block < c.size / FRAGMENT
  {
    Footprint(c.size / FRAGMENT, block, c.n);
    BlockAt(storage[Device(block, c.n)], Offset(block, c.n))
  }

  predicate StorageShape(c: Config, storage: seq<seq<byte>>) {
    |storage| == c.n && forall d :: 0 <= d < c.n ==> |storage[d]| == CAPACITY
  }

  // The servers hold between them exactly the bytes of this flat disk.
  predicate Shows(c: Config, storage: seq<seq<byte>>, disk: seq<byte>) {
    && StorageShape(c, storage) && |disk| == c.size
    && forall b: nat :: b < c.size / FRAGMENT ==> StoredBlock(c, storage, b) == BlockAt(disk, b * FRAGMENT)
  }

  predicate Init(c: Config, disk: seq<byte>, s: State) {
    && s.log == [] && s.entries == [] && s.counter == 0 && s.slicerMap == map[] && s.tasks == [] && s.releasing == multiset{} && s.done == []
    && s.toDev == seq(c.n, _ => []) && s.fromDev == seq(c.n, _ => [])
    && Shows(c, s.storage, disk)
  }

  // A run: every state follows from the one before it by an allowed action.
  predicate IsRun(c: Config, disk: seq<byte>, states: seq<State>, acts: seq<Action>) {
    && |states| == |acts| + 1
    && Init(c, disk, states[0])
    && forall j :: 0 <= j < |acts| ==> Allowed(c, states[j], acts[j]) && Step(c, states[j], acts[j]) == Ok(states[j + 1])
  }
}
