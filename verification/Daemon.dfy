// The daemon's objects: Slicer, Splicer and Sender, with their fields updated in place. Each method does what the
// matching action of StripedDisk does.
module Daemon {
  import opened Bytes
  import opened Striping
  import opened FlatDisk
  import opened Atlas
  import opened Wire

  // NBDCommunication::Request
  class NbdRequest {
    const cmd: Command
    const from: nat
    const len: nat
    const data: array<byte>

    constructor (cmd: Command, from: nat, data: array<byte>)
      ensures this.cmd == cmd && this.from == from && this.len == data.Length && this.data == data
    {
      this.cmd, this.from, this.len, this.data := cmd, from, data.Length, data;
    }

    function View(): Request
      reads data
    {
      Request(cmd, from, len, data[..])
    }
  }

  // The function-static request_counter of Slice.
  class RequestCounter {
    var next: nat

    constructor ()
      ensures next == 0
    {
      next := 0;
    }
  }

  // m_data points `at` bytes into the request's buffer.
  datatype DeviceRequest = DeviceRequest(hdr: Header, fd: int, at: nat)

  // Fragment k as the slicer hands it to a Sender.
  function PartOf(r: Request, uid: u32, fds: seq<int>, k: nat): DeviceRequest
    requires fds != []
  {
    DeviceRequest(HeaderOf(r, uid, k, |fds|), fds[Device(BlockNo(r, k), |fds|)], k * FRAGMENT)
  }

  function Parts(r: Request, uid: u32, fds: seq<int>): (parts: seq<DeviceRequest>)
    requires fds != []
    ensures |parts| == Fragments(r)
  {
    seq(Fragments(r), k requires 0 <= k => PartOf(r, uid, fds, k))
  }

  // The closed form of the striping.
  predicate PlacedAt(part: DeviceRequest, uid: u32, fds: seq<int>, kind: u32, block: nat, k: nat)
    requires fds != []
  {
    && part.fd == fds[block % |fds|] && part.at == k * 1024
    && part.hdr == Header(uid, k % 0x1_0000_0000, 0, block / |fds| * 1024 % 0x1_0000_0000, kind, 1024)
  }

  lemma ClosedForm(r: Request, uid: u32, fds: seq<int>, k: nat)
    requires fds != []
    ensures PlacedAt(PartOf(r, uid, fds, k), uid, fds, Kind(r.cmd), r.from / 1024 + k, k)
  {
  }

  class Slicer {
    const fds: seq<int>
    const request: NbdRequest
    var countSlices: nat
    var requestUid: u32

    constructor (fds: seq<int>, request: NbdRequest)
      ensures this.fds == fds && this.request == request
    {
      this.fds, this.request := fds, request;
    }

    // Deals the fragments round-robin: it never divides after the first fragment, and still places fragment k where the
    // closed form of the striping does.
    method Slice(counter: RequestCounter) returns (parts: seq<DeviceRequest>)
      requires fds != []
      modifies this, counter
      ensures requestUid == U32(old(counter.next)) && counter.next == U64(old(counter.next) + 1)
      ensures old(counter.next) < 0xFFFF_FFFF_FFFF_FFFF ==> counter.next == old(counter.next) + 1
      ensures old(counter.next) == 0xFFFF_FFFF_FFFF_FFFF ==> counter.next == 0
      ensures parts == Parts(request.View(), requestUid, fds)
      ensures countSlices == |parts| == request.len / 1024
      ensures forall k :: 0 <= k < |parts| ==>
                var block := request.from / 1024 + k;
                && parts[k].fd == fds[block % |fds|] && parts[k].at == k * 1024
                && parts[k].hdr == Header(requestUid, k % 0x1_0000_0000, 0, block / |fds| * 1024 % 0x1_0000_0000, Kind(request.cmd), 1024)
    {
      requestUid := U32(counter.next);
      counter.next := U64(counter.next + 1);

      var numOfFragments := request.len / FRAGMENT;
      var numOfIots := |fds|;
      var firstFragIdx := request.from / FRAGMENT;
      var currIot := firstFragIdx % numOfIots;
      var startingOffset := firstFragIdx / numOfIots * FRAGMENT;

      assert currIot == Device(firstFragIdx, numOfIots) && startingOffset == Offset(firstFragIdx, numOfIots);
      hide Device, Offset, Kind;
      parts := [];
      var fragmentCounter := 0;
      while fragmentCounter < numOfFragments
        invariant requestUid == U32(old(counter.next)) && counter.next == U64(old(counter.next) + 1)
        invariant fragmentCounter == |parts| <= numOfFragments
        invariant currIot == Device(firstFragIdx + fragmentCounter, numOfIots)
        invariant startingOffset == Offset(firstFragIdx + fragmentCounter, numOfIots)
        invariant forall k :: 0 <= k < |parts| ==> parts[k] == PartOf(request.View(), requestUid, fds, k)
      {
        var hdr := Header(requestUid, U32(fragmentCounter), 0, U32(startingOffset), Kind(request.cmd), U32(FRAGMENT));
        parts := parts + [DeviceRequest(hdr, fds[currIot], fragmentCounter * FRAGMENT)];
        NextBlock(firstFragIdx + fragmentCounter, numOfIots);
        currIot := (currIot + 1) % numOfIots;
        if currIot == 0 {
          startingOffset := startingOffset + FRAGMENT;
        }
        fragmentCounter := fragmentCounter + 1;
      }
      countSlices := fragmentCounter;
      forall k | 0 <= k < |parts| ensures PlacedAt(parts[k], requestUid, fds, Kind(request.cmd), request.from / 1024 + k, k) {
        ClosedForm(request.View(), requestUid, fds, k);
      }
    }

    // Counts one reply down, with the wrap-around of size_t.
    method IsReplyReady() returns (ready: bool)
      modifies this`countSlices
      ensures countSlices == U64(old(countSlices) - 1)
      ensures old(countSlices) == 0 ==> countSlices == 0xFFFF_FFFF_FFFF_FFFF
      ensures 0 < old(countSlices) <= 0xFFFF_FFFF_FFFF_FFFF ==> countSlices == old(countSlices) - 1
      ensures ready <==> countSlices == 0
    {
      countSlices := U64(countSlices - 1);
      ready := countSlices == 0;
    }
  }

  class Splicer {
    const fds: seq<int>
    var slicerMap: map<u32, Slicer>

    constructor (fds: seq<int>)
      ensures this.fds == fds && slicerMap == map[]
    {
      this.fds, slicerMap := fds, map[];
    }

    // Slices the request and registers its slicer before anything of it is sent.
    method Request(request: NbdRequest, counter: RequestCounter) returns (message: seq<DeviceRequest>)
      requires fds != []
      modifies this, counter
      ensures var uid := U32(old(counter.next));
              && counter.next == U64(old(counter.next) + 1)
              && message == Parts(request.View(), uid, fds)
              && slicerMap.Keys == old(slicerMap.Keys) + {uid}
              && fresh(slicerMap[uid]) && slicerMap[uid].request == request
              && slicerMap[uid].requestUid == uid && slicerMap[uid].countSlices == |message|
              && forall u :: u in old(slicerMap) && u != uid ==> slicerMap[u] == old(slicerMap)[u]
    {
      var slicer := new Slicer(fds, request);
      message := slicer.Slice(counter);
      slicerMap := slicerMap[slicer.requestUid := slicer];
    }

    // Copies one fragment of a reply into the request's buffer and forgets the slicer with the last one. The
    // product of the two 32-bit fields is a 32-bit product.
    method Reply(atlas: Header, data: seq<byte>)
      requires atlas.uid in slicerMap && |data| == atlas.dataLen
      requires U32(atlas.dataLen * atlas.frag) + atlas.dataLen <= slicerMap[atlas.uid].request.data.Length
      modifies this, slicerMap[atlas.uid], slicerMap[atlas.uid].request.data
      ensures var slicer := old(slicerMap[atlas.uid]);
              && slicer.request.data[..] == Splice(old(slicer.request.data[..]), U32(atlas.dataLen * atlas.frag), data)
              && slicer.countSlices == U64(old(slicer.countSlices) - 1) && slicer.requestUid == old(slicer.requestUid)
              && slicerMap == if slicer.countSlices == 0 then old(slicerMap) - {atlas.uid} else old(slicerMap)
    {
      var slicer := slicerMap[atlas.uid];
      Copy(slicer.request.data, U32(atlas.dataLen * atlas.frag), data);
      var ready := slicer.IsReplyReady();
      if ready {
        slicerMap := slicerMap - {atlas.uid};
      }
    }
  }

  // ---------- sending ----------

  // The bytes one Sender prints for a part of a request whose buffer holds `buf`.
  function PartBytes(part: DeviceRequest, buf: seq<byte>): seq<byte>
    requires part.hdr.kind == WRITE ==> part.at + part.hdr.dataLen <= |buf|
  {
    SenderBytes(Frame(part.hdr, if part.hdr.kind == WRITE then buf[part.at..part.at + part.hdr.dataLen] else []))
  }

  predicate InBuffer(parts: seq<DeviceRequest>, buf: seq<byte>) {
    forall k :: 0 <= k < |parts| && parts[k].hdr.kind == WRITE ==> parts[k].at + parts[k].hdr.dataLen <= |buf|
  }

  // What the Senders of a message leave on the socket with this descriptor.
  function Routed(parts: seq<DeviceRequest>, buf: seq<byte>, fd: int): seq<byte>
    requires InBuffer(parts, buf)
  {
    if parts == [] then []
    else
      var last := |parts| - 1;
      Routed(parts[..last], buf, fd) + if parts[last].fd == fd then PartBytes(parts[last], buf) else []
  }

  // The constructor of Sender does all its work.
  method Sender(part: DeviceRequest, buf: array<byte>, sock: Socket)
    requires part.hdr.kind == WRITE ==> part.at + part.hdr.dataLen <= buf.Length
    modifies sock`output
    ensures sock.output == old(sock.output) + PartBytes(part, buf[..])
  {
    match part.hdr.kind {
      case 0 =>
        sock.Send(HeaderBytes(part.hdr));
      case 1 =>
        sock.Send(HeaderBytes(part.hdr));
        sock.Send(buf[part.at..part.at + part.hdr.dataLen]);
      case _ =>
    }
  }

  // RequestSender::Send: every part goes to the socket of its device, in order.
  method Send(parts: seq<DeviceRequest>, buf: array<byte>, sockets: map<int, Socket>)
    requires InBuffer(parts, buf[..])
    requires forall k :: 0 <= k < |parts| ==> parts[k].fd in sockets
    requires forall a, b :: a in sockets && b in sockets && a != b ==> sockets[a] != sockets[b]
    modifies sockets.Values
    ensures forall fd :: fd in sockets ==> sockets[fd].output == old(sockets[fd].output) + Routed(parts, buf[..], fd)
    ensures forall fd :: fd in sockets ==> sockets[fd].input == old(sockets[fd].input)
  {
    hide PartBytes;
    for i := 0 to |parts|
      invariant InBuffer(parts[..i], buf[..]) && buf[..] == old(buf[..])
      invariant forall fd :: fd in sockets ==> sockets[fd].output == old(sockets[fd].output) + Routed(parts[..i], buf[..], fd)
      invariant forall fd :: fd in sockets ==> sockets[fd].input == old(sockets[fd].input)
    {
      assert parts[..i + 1][..i] == parts[..i];
      Sender(parts[i], buf, sockets[parts[i].fd]);
    }
    assert parts[..|parts|] == parts;
  }

  // The fragments below m that are dealt to server d, in ascending order.
  function Dealt(r: Request, n: nat, d: nat, m: nat): (ks: seq<nat>)
    requires n > 0
    ensures forall k: nat :: k in ks <==> k < m && Device(BlockNo(r, k), n) == d
    ensures forall i, j :: 0 <= i < j < |ks| ==> ks[i] < ks[j]
  {
    if m == 0 then []
    else
      var before := Dealt(r, n, d, m - 1);
      assert forall i :: 0 <= i < |before| ==> before[i] in before;
      before + if Device(BlockNo(r, m - 1), n) == d then [m - 1] else []
  }

  predicate AllBelow(ks: seq<nat>, r: Request) {
    forall i :: 0 <= i < |ks| ==> ks[i] < Fragments(r)
  }

  // The frames of these fragments of a request whose buffer holds `buf`.
  function FramesOf(r: Request, uid: u32, n: nat, ks: seq<nat>): (frames: seq<Frame>)
    requires n > 0 && |r.data| == r.len && AllBelow(ks, r)
    ensures |frames| == |ks|
    ensures forall i :: 0 <= i < |ks| ==>
              ks[i] * 1024 + 1024 <= |r.data|
              && frames[i] == Frame(HeaderOf(r, uid, ks[i], n), if r.cmd.Write? then r.data[ks[i] * 1024..ks[i] * 1024 + 1024] else [])
  {
    seq(|ks|, i requires 0 <= i < |ks| =>
      assert ks[i] * FRAGMENT + FRAGMENT <= r.len;
      Frame(HeaderOf(r, uid, ks[i], n), if r.cmd.Write? then BlockAt(r.data, ks[i] * FRAGMENT) else []))
  }

  lemma PartsInBuffer(r: Request, uid: u32, fds: seq<int>)
    requires fds != [] && |r.data| == r.len
    ensures InBuffer(Parts(r, uid, fds), r.data)
  {
  }

  lemma DealtBelow(r: Request, n: nat, d: nat, m: nat)
    requires n > 0 && m <= Fragments(r)
    ensures AllBelow(Dealt(r, n, d, m), r)
  {
    var ks := Dealt(r, n, d, m);
    assert forall i :: 0 <= i < |ks| ==> ks[i] in ks;
  }

  lemma OneMoreDealt(r: Request, uid: u32, n: nat, d: nat, m: nat)
    requires n > 0 && |r.data| == r.len && m < Fragments(r) && Device(BlockNo(r, m), n) == d
    requires AllBelow(Dealt(r, n, d, m), r) && AllBelow(Dealt(r, n, d, m + 1), r)
    ensures m * FRAGMENT + FRAGMENT <= r.len
    ensures RequestStream(FramesOf(r, uid, n, Dealt(r, n, d, m + 1)))
            == RequestStream(FramesOf(r, uid, n, Dealt(r, n, d, m)))
               + SenderBytes(Frame(HeaderOf(r, uid, m, n), if r.cmd.Write? then BlockAt(r.data, m * FRAGMENT) else []))
  {
    hide Device, HeaderOf, SenderBytes;
    var before, f := Dealt(r, n, d, m), Frame(HeaderOf(r, uid, m, n), if r.cmd.Write? then BlockAt(r.data, m * FRAGMENT) else []);
    assert FramesOf(r, uid, n, before + [m]) == FramesOf(r, uid, n, before) + [f];
    RequestStreamAppend(FramesOf(r, uid, n, before), f);
  }

  lemma PartIsFrame(r: Request, uid: u32, fds: seq<int>, k: nat)
    requires fds != [] && |r.data| == r.len && k < Fragments(r)
    ensures var part := PartOf(r, uid, fds, k);
            && k * FRAGMENT + FRAGMENT <= r.len && (part.hdr.kind == WRITE ==> part.at + part.hdr.dataLen <= r.len)
            && PartBytes(part, r.data)
               == SenderBytes(Frame(HeaderOf(r, uid, k, |fds|), if r.cmd.Write? then BlockAt(r.data, k * FRAGMENT) else []))
  {
    hide Device, Offset;
  }

  // Routing the parts of a request sends each server the frames of its fragments, in ascending order, and nothing else.
  lemma {:induction false} RoutedIsDealt(r: Request, uid: u32, fds: seq<int>, d: nat, m: nat)
    requires |r.data| == r.len && d < |fds| && m <= Fragments(r)
    requires forall i, j :: 0 <= i < j < |fds| ==> fds[i] != fds[j]
    ensures InBuffer(Parts(r, uid, fds), r.data) && AllBelow(Dealt(r, |fds|, d, m), r)
    ensures Routed(Parts(r, uid, fds)[..m], r.data, fds[d]) == RequestStream(FramesOf(r, uid, |fds|, Dealt(r, |fds|, d, m)))
  {
    hide Device, Offset, SenderBytes, PartBytes, InBuffer, FramesOf, RequestStream, Routed, Dealt, Parts;
    var parts := Parts(r, uid, fds);
    PartsInBuffer(r, uid, fds);
    DealtBelow(r, |fds|, d, m);
    PrefixInBuffer(parts, r.data, m);
    if m > 0 {
      RoutedIsDealt(r, uid, fds, d, m - 1);
      PrefixInBuffer(parts, r.data, m - 1);
      DealtBelow(r, |fds|, d, m - 1);
      PartIs(r, uid, fds, m - 1);
      PartIsFrame(r, uid, fds, m - 1);
      RoutedMore(parts, r.data, fds[d], m - 1);
      if Device(BlockNo(r, m - 1), |fds|) == d {
        OneMoreDealt(r, uid, |fds|, d, m - 1);
      } else {
        NotDealt(r, |fds|, d, m - 1);
      }
    } else {
      NoFrames(r, uid, fds, d);
    }
  }

  lemma PartIs(r: Request, uid: u32, fds: seq<int>, k: nat)
    requires fds != [] && k < Fragments(r)
    ensures Parts(r, uid, fds)[k] == PartOf(r, uid, fds, k) && PartOf(r, uid, fds, k).fd == fds[Device(BlockNo(r, k), |fds|)]
  {
  }

  lemma RoutedMore(parts: seq<DeviceRequest>, buf: seq<byte>, fd: int, m: nat)
    requires m < |parts| && InBuffer(parts, buf) && InBuffer(parts[..m], buf) && InBuffer(parts[..m + 1], buf)
    ensures parts[m].hdr.kind == WRITE ==> parts[m].at + parts[m].hdr.dataLen <= |buf|
    ensures Routed(parts[..m + 1], buf, fd) == if parts[m].fd == fd then Routed(parts[..m], buf, fd) + PartBytes(parts[m], buf) else Routed(parts[..m], buf, fd)
  {
    hide PartBytes;
    assert parts[..m + 1][..m] == parts[..m] && parts[..m + 1][m] == parts[m];
  }

  lemma NotDealt(r: Request, n: nat, d: nat, m: nat)
    requires n > 0 && Device(BlockNo(r, m), n) != d
    ensures Dealt(r, n, d, m + 1) == Dealt(r, n, d, m)
  {
    hide Device;
  }

  lemma PrefixInBuffer(parts: seq<DeviceRequest>, buf: seq<byte>, m: nat)
    requires InBuffer(parts, buf) && m <= |parts|
    ensures InBuffer(parts[..m], buf)
  {
  }

  lemma NoFrames(r: Request, uid: u32, fds: seq<int>, d: nat)
    requires d < |fds| && |r.data| == r.len && InBuffer(Parts(r, uid, fds)[..0], r.data)
    ensures AllBelow(Dealt(r, |fds|, d, 0), r)
    ensures Routed(Parts(r, uid, fds)[..0], r.data, fds[d]) == RequestStream(FramesOf(r, uid, |fds|, Dealt(r, |fds|, d, 0))) == []
  {
  }

  class CommunicationManager {
    const splicer: Splicer
    const sockets: map<int, Socket>

    constructor (splicer: Splicer, sockets: map<int, Socket>)
      ensures this.splicer == splicer && this.sockets == sockets
    {
      this.splicer, this.sockets := splicer, sockets;
    }

    // CommunicationManager::Request: register, then send. Server d receives the frames of exactly the fragments that are
    // dealt to it, in ascending order.
    method Request(request: NbdRequest, counter: RequestCounter)
      requires splicer.fds != [] && request.len == request.data.Length
      requires forall i, j :: 0 <= i < j < |splicer.fds| ==> splicer.fds[i] != splicer.fds[j]
      requires forall i :: 0 <= i < |splicer.fds| ==> splicer.fds[i] in sockets
      requires forall a, b :: a in sockets && b in sockets && a != b ==> sockets[a] != sockets[b]
      modifies splicer, counter, sockets.Values
      ensures counter.next == U64(old(counter.next) + 1)
      ensures splicer.slicerMap.Keys == old(splicer.slicerMap.Keys) + {U32(old(counter.next))}
      ensures forall d: nat :: d < |splicer.fds| ==>
                var r, n := request.View(), |splicer.fds|;
                AllBelow(Dealt(r, n, d, r.len / 1024), r)
                && sockets[splicer.fds[d]].output
                   == old(sockets[splicer.fds[d]].output) + RequestStream(FramesOf(r, U32(old(counter.next)), n, Dealt(r, n, d, r.len / 1024)))
      ensures forall fd :: fd in sockets && fd !in splicer.fds ==> sockets[fd].output == old(sockets[fd].output)
    {
      hide Device, Offset, RequestStream, Routed;
      ghost var r, uid, fds := request.View(), U32(counter.next), splicer.fds;
      var message := splicer.Request(request, counter);
      RoutedIsDealt(r, uid, fds, 0, 0);
      Send(message, request.data, sockets);
      forall d: nat | d < |fds|
        ensures AllBelow(Dealt(r, |fds|, d, r.len / 1024), r)
                && Routed(message, r.data, fds[d]) == RequestStream(FramesOf(r, uid, |fds|, Dealt(r, |fds|, d, r.len / 1024)))
      {
        RoutedIsDealt(r, uid, fds, d, Fragments(r));
        assert message[..|message|] == message;
      }
      forall fd | fd in sockets && fd !in fds ensures Routed(message, r.data, fd) == [] {
        NotRouted(r, uid, fds, fd, Fragments(r));
        assert message[..|message|] == message;
      }
    }
  }

  lemma {:induction false} NotRouted(r: Request, uid: u32, fds: seq<int>, fd: int, m: nat)
    requires fds != [] && |r.data| == r.len && m <= Fragments(r) && fd !in fds && InBuffer(Parts(r, uid, fds), r.data)
    ensures Routed(Parts(r, uid, fds)[..m], r.data, fd) == []
  {
    hide Device, Offset;
    if m > 0 {
      NotRouted(r, uid, fds, fd, m - 1);
      assert Parts(r, uid, fds)[..m][..m - 1] == Parts(r, uid, fds)[..m - 1];
      assert Parts(r, uid, fds)[..m][m - 1] == PartOf(r, uid, fds, m - 1);
      assert PartOf(r, uid, fds, m - 1).fd in fds;
    }
  }

  // ---------- merging ----------

  predicate Inside(order: seq<nat>, size: nat) {
    forall m :: 0 <= m < |order| ==> order[m] * FRAGMENT + FRAGMENT <= size
  }

  // The buffer after the replies to these fragments, in this order.
  function MergeAll(buf: seq<byte>, order: seq<nat>, answer: seq<byte>): (r: seq<byte>)
    requires |answer| == |buf| && Inside(order, |buf|)
    ensures |r| == |buf|
  {
    if order == [] then buf
    else
      var last := |order| - 1;
      Splice(MergeAll(buf, order[..last], answer), order[last] * FRAGMENT, BlockAt(answer, order[last] * FRAGMENT))
  }

  lemma MergeOne(buf: seq<byte>, answer: seq<byte>, m: nat, k: nat)
    requires |answer| == |buf| && m * FRAGMENT + FRAGMENT <= |buf| && k * FRAGMENT + FRAGMENT <= |buf|
    ensures BlockAt(Splice(buf, m * FRAGMENT, BlockAt(answer, m * FRAGMENT)), k * FRAGMENT)
            == BlockAt(if m == k then answer else buf, k * FRAGMENT)
  {
    SpliceBlocks(buf, m * FRAGMENT, BlockAt(answer, m * FRAGMENT), k * FRAGMENT);
  }

  lemma {:induction false} MergedBlocks(buf: seq<byte>, order: seq<nat>, answer: seq<byte>, k: nat)
    requires |answer| == |buf| && k * FRAGMENT + FRAGMENT <= |buf|
    requires Inside(order, |buf|)
    ensures BlockAt(MergeAll(buf, order, answer), k * FRAGMENT) == BlockAt(if k in order then answer else buf, k * FRAGMENT)
  {
    hide Splice, BlockAt;
    if order != [] {
      var last := |order| - 1;
      MergedBlocks(buf, order[..last], answer, k);
      MergeOne(MergeAll(buf, order[..last], answer), answer, order[last], k);
      assert k in order <==> k in order[..last] || k == order[last];
    }
  }

  // Whatever order the replies are merged in, the buffer becomes the whole answer exactly when every fragment whose
  // bytes differ has been merged.
  lemma MergeInAnyOrder(buf: seq<byte>, order: seq<nat>, answer: seq<byte>)
    requires |answer| == |buf| && |buf| % FRAGMENT == 0
    requires Inside(order, |buf|)
    ensures MergeAll(buf, order, answer) == answer
            <==> forall k: nat :: k < |buf| / FRAGMENT && k !in order ==>
                   k * FRAGMENT + FRAGMENT <= |buf| && BlockAt(buf, k * FRAGMENT) == BlockAt(answer, k * FRAGMENT)
  {
    forall k: nat | k < |buf| / FRAGMENT
      ensures k * FRAGMENT + FRAGMENT <= |buf|
              && BlockAt(MergeAll(buf, order, answer), k * FRAGMENT) == BlockAt(if k in order then answer else buf, k * FRAGMENT)
    {
      MergedBlocks(buf, order, answer, k);
    }
    if forall k: nat :: k < |buf| / FRAGMENT && k !in order ==> BlockAt(buf, k * FRAGMENT) == BlockAt(answer, k * FRAGMENT) {
      BlocksDetermine(MergeAll(buf, order, answer), answer);
    }
  }

  // The offset Reply multiplies out is the one the slicer took the fragment from, and it fits 32 bits for every length
  // an int32_t can hold.
  lemma MergeOffsetAgrees(r: Request, uid: u32, fds: seq<int>, k: nat)
    requires fds != [] && k < Fragments(r) && r.len < 0x8000_0000
    ensures var part := PartOf(r, uid, fds, k);
            U32(part.hdr.dataLen * part.hdr.frag) == part.hdr.dataLen * part.hdr.frag == part.at && part.at + part.hdr.dataLen <= r.len
  {
  }
}
