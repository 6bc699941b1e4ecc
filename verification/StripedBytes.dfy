// The striped device on real sockets: the frames of every run go over byte streams unchanged, and the daemon's Sender
// and the servers' loop do with bytes what the actions do with frames.
module StripedBytes {
  import opened Bytes
  import opened Striping
  import opened FlatDisk
  import opened Atlas
  import opened Wire
  import opened Daemon
  import opened StripedDisk
  import opened StripedInvariant
  import opened StripedSteps
  import opened StripedMessages
  import opened StripedTheorems

  // A server can act on this frame without leaving its storage.
  predicate InStorage(f: Frame) {
    Sendable(f) && f.hdr.offset + f.hdr.dataLen <= CAPACITY
  }

  lemma BlockData(r: Request, k: nat)
    requires |r.data| == r.len && r.len % FRAGMENT == 0 && k < Fragments(r)
    ensures k * FRAGMENT + FRAGMENT <= |r.data| && |BlockAt(r.data, k * FRAGMENT)| == FRAGMENT
  {
  }

  lemma RequestFrame(c: Config, disk: seq<byte>, s: State, h: History, d: nat, p: nat)
    requires Inv(c, disk, s, h) && d < c.n && p < |s.toDev[d]|
    ensures InStorage(s.toDev[d][p])
  {
    hide EntriesInv, MapInv, DoneInv, DiskInv, LogInv, Place, Want, After, Offset, Device, BlockAt;
    var f := s.toDev[d][p];
    Message(c, disk, s, h, s.toDev[d], Requested, d, p);
    var r := s.log[s.slicerMap[f.hdr.uid]];
    HeaderFields(c, r, f.hdr.uid, f.hdr.frag);
    BlockData(r, f.hdr.frag);
  }

  lemma ReplyFrame(c: Config, disk: seq<byte>, s: State, h: History, d: nat, p: nat)
    requires Inv(c, disk, s, h) && d < c.n && p < |s.fromDev[d]|
    ensures Answerable(s.fromDev[d][p])
  {
    hide EntriesInv, MapInv, DoneInv, DiskInv, LogInv, Place, Want, After, Offset, Device, BlockAt;
    var f := s.fromDev[d][p];
    Message(c, disk, s, h, s.fromDev[d], Answered, d, p);
    var r := s.log[s.slicerMap[f.hdr.uid]];
    HeaderFields(c, r, f.hdr.uid, f.hdr.frag);
    BlockData(r, f.hdr.frag);
  }

  lemma {:induction false} AllAreServed(storage: seq<byte>, frames: seq<Frame>)
    requires |storage| == CAPACITY && forall f :: f in frames ==> InStorage(f)
    ensures ServeFrames(storage, frames).Service?
    decreases |frames|
  {
    if frames != [] {
      assert frames[0] in frames && forall f :: f in frames[1..] ==> f in frames;
      AllAreServed(ServeFrame(storage, frames[0]).storage, frames[1..]);
    }
  }

  // In every run, what is on the way to a server can be printed and parsed without loss, so a server that is given only
  // the bytes serves exactly those frames; and what is on the way back parses into exactly its replies.
  lemma SocketsCarryEveryRun(c: Config, disk: seq<byte>, states: seq<State>, acts: seq<Action>, d: nat)
    requires IsRun(c, disk, states, acts) && d < c.n
    ensures var s := states[|acts|];
            && d < |s.toDev| && d < |s.fromDev| && d < |s.storage|
            && ServeFrames(s.storage[d], s.toDev[d]).Service?
            && ServeBytes(s.storage[d], RequestStream(s.toDev[d])) == InBytes(ServeFrames(s.storage[d], s.toDev[d]))
            && ParseReplies(ReplyStream(s.fromDev[d])) == s.fromDev[d]
  {
    hide Init, Step, Enabled, EntriesInv, MapInv, DoneInv, DiskInv, LogInv, Place, ServeFrame, ServeFrames, ServeBytes,
         ParseReplies, InBytes, Sendable, Answerable;
    var s := states[|acts|];
    var h := RunHistory(c, disk, states, acts);
    DiskShape(c, disk, s.log, h.stage, h.owner, s.storage);
    forall f | f in s.toDev[d] ensures InStorage(f) {
      var p :| 0 <= p < |s.toDev[d]| && s.toDev[d][p] == f;
      RequestFrame(c, disk, s, h, d, p);
    }
    forall f | f in s.fromDev[d] ensures Answerable(f) {
      var p :| 0 <= p < |s.fromDev[d]| && s.fromDev[d][p] == f;
      ReplyFrame(c, disk, s, h, d, p);
    }
    AllAreServed(s.storage[d], s.toDev[d]);
    ServerRecoversFrames(s.storage[d], s.toDev[d]);
    DaemonRecoversReplies(s.fromDev[d]);
  }

  // m turns of server d, one after the other.
  function Turns(s: State, d: nat, m: nat): Outcome
    requires d < |s.toDev| && m <= |s.toDev[d]|
    decreases m
  {
    if m == 0 then Ok(s)
    else
      match ServeStep(s, d)
      case Broken => Broken
      case Ok(s') => Turns(s', d, m - 1)
  }

  // A server's turns in the machine are its loop over the frames, and so, by the lemma above, over the bytes.
  lemma {:induction false} TurnsServeTheFrames(s: State, d: nat)
    requires d < |s.toDev| && d < |s.fromDev| && d < |s.storage| && ServeFrames(s.storage[d], s.toDev[d]).Service?
    ensures var served := ServeFrames(s.storage[d], s.toDev[d]);
            Turns(s, d, |s.toDev[d]|)
            == Ok(s.(toDev := s.toDev[d := []], fromDev := s.fromDev[d := s.fromDev[d] + served.replies],
                     storage := s.storage[d := served.storage]))
    decreases |s.toDev[d]|
  {
    hide ServeFrame;
    if s.toDev[d] == [] {
      assert s.fromDev[d] + [] == s.fromDev[d];
      assert s.toDev[d := []] == s.toDev && s.fromDev[d := s.fromDev[d]] == s.fromDev && s.storage[d := s.storage[d]] == s.storage;
    } else {
      var s', served := ServeStep(s, d).s, ServeFrames(s.storage[d], s.toDev[d]);
      TurnsServeTheFrames(s', d);
      var reply, later := ServeFrame(s.storage[d], s.toDev[d][0]).reply, ServeFrames(s'.storage[d], s'.toDev[d]).replies;
      assert s'.fromDev[d] + later == s.fromDev[d] + (reply + later);
      assert s'.toDev[d := []] == s.toDev[d := []];
      assert s'.fromDev[d := s.fromDev[d] + served.replies] == s.fromDev[d := s.fromDev[d] + served.replies];
      assert s'.storage[d := served.storage] == s.storage[d := served.storage];
    }
  }

  lemma PartOfFragment(c: Config, r: Request, uid: u32, fds: seq<int>, k: nat)
    requires |fds| == c.n && Legal(c, r) && k < Fragments(r)
    ensures var part := PartOf(r, uid, fds, k);
            && part in Parts(r, uid, fds) && part.fd == fds[Device(BlockNo(r, k), c.n)]
            && part.at == k * FRAGMENT && part.at + part.hdr.dataLen == k * FRAGMENT + FRAGMENT <= r.len
            && (part.hdr.kind == WRITE <==> r.cmd.Write?) && (part.hdr.kind == READ <==> r.cmd.Read?)
  {
    hide Device, Offset;
    assert Parts(r, uid, fds)[k] == PartOf(r, uid, fds, k);
    Blockwise(r, k);
  }

  lemma SendNextFacts(c: Config, disk: seq<byte>, s: State, h: History, i: nat)
    requires Inv(c, disk, s, h) && Enabled(c, s, SendNext(i))
    ensures Step(c, s, SendNext(i)).Ok? && Legal(c, s.log[i]) && |s.entries[i].buf| == s.log[i].len
    ensures |s.toDev| == c.n
  {
    hide EntriesInv, MapInv, DoneInv, DiskInv, Place, Want, After, Step, Enabled;
    assert i < |s.log| by { assert Enabled(c, s, SendNext(i)); SendNextIndex(c, s, i); }
    EntryFacts(c, disk, s, h, i);
    StepKeeps(c, disk, s, h, SendNext(i));
  }

  lemma SendNextIndex(c: Config, s: State, i: nat)
    requires Enabled(c, s, SendNext(i))
    ensures i < |s.log|
  {
  }

  // SendNext puts on the socket exactly the bytes that Sender prints for the part that Slice made of this fragment.
  lemma SendersPrintTheFrames(c: Config, disk: seq<byte>, states: seq<State>, acts: seq<Action>, i: nat, fds: seq<int>)
    requires IsRun(c, disk, states, acts) && Enabled(c, states[|acts|], SendNext(i)) && |fds| == c.n
    ensures var s := states[|acts|]; var r, e, k := s.log[i], s.entries[i], s.entries[i].phase.next;
            var part, d := PartOf(r, e.uid, fds, k), Device(BlockNo(r, k), c.n);
            && part in Parts(r, e.uid, fds) && part.fd == fds[d] && d < |s.toDev|
            && (part.hdr.kind == WRITE ==> part.at + part.hdr.dataLen <= |e.buf|)
            && Step(c, s, SendNext(i)).Ok? && d < |Step(c, s, SendNext(i)).s.toDev|
            && RequestStream(Step(c, s, SendNext(i)).s.toDev[d]) == RequestStream(s.toDev[d]) + PartBytes(part, e.buf)
  {
    hide Init, Inv, RequestStream, HeaderBytes, Offset, Device, ServeStep, MergeStep, DropRequest;
    var s := states[|acts|];
    var h := RunHistory(c, disk, states, acts);
    SendNextFacts(c, disk, s, h, i);
    var r, e, k := s.log[i], s.entries[i], s.entries[i].phase.next;
    PartOfFragment(c, r, e.uid, fds, k);
    var data := if r.cmd.Write? then BlockAt(e.buf, k * FRAGMENT) else [];
    var frame := Frame(HeaderOf(r, e.uid, k, c.n), data);
    assert SenderBytes(frame) == PartBytes(PartOf(r, e.uid, fds, k), e.buf);
    assert !Carries(r.cmd) ==> SenderBytes(frame) == [];
    RequestStreamAppend(s.toDev[Device(BlockNo(r, k), c.n)], frame);
  }

  // The task meets what Splicer.Reply asks for, and Merge does to buffer, counter and map what Reply does.
  predicate MergesLikeReply(s: State, t: nat)
    requires t < |s.tasks|
  {
    var f := s.tasks[t];
    && f.hdr.uid in s.slicerMap && s.slicerMap[f.hdr.uid] < |s.entries| && |f.data| == f.hdr.dataLen
    && var i, at := s.slicerMap[f.hdr.uid], U32(f.hdr.dataLen * f.hdr.frag);
    && at + f.hdr.dataLen <= |s.entries[i].buf| && MergeStep(s, t).Ok?
    && var s' := MergeStep(s, t).s;
    && |s'.entries| == |s.entries| && s'.entries[i].buf == Splice(s.entries[i].buf, at, f.data)
    && s'.entries[i].count == U64(s.entries[i].count - 1)
    && s'.slicerMap == if s'.entries[i].count == 0 then s.slicerMap - {f.hdr.uid} else s.slicerMap
  }

  lemma SoundMerge(s: State, t: nat)
    requires t < |s.tasks| && MergeStep(s, t).Ok?
    ensures MergesLikeReply(s, t)
  {
    hide Splice, U32, U64;
  }

  lemma RepliesMeetTheSplicer(c: Config, disk: seq<byte>, states: seq<State>, acts: seq<Action>, t: nat)
    requires IsRun(c, disk, states, acts) && t < |states[|acts|].tasks|
    ensures MergesLikeReply(states[|acts|], t)
  {
    hide Init, MergeStep, MergesLikeReply;
    NothingBreaks(c, disk, states, acts, Merge(t));
    SoundMerge(states[|acts|], t);
  }
}
