// The byte streams between the daemon and a server: what Senders print, what a server makes of it, what it prints back,
// and what the daemon makes of that, with recv free to split the stream anywhere.
module Wire {
  import opened Bytes
  import opened Atlas

  const HEADER: nat := 24

  // A uint32_t in memory, least significant byte first, as both ends of the loopback connection store it.
  function Word(x: u32): (w: seq<byte>)
    ensures |w| == 4
  {
    [x % 256, x / 256 % 256, x / 65536 % 256, x / 16777216]
  }

  function Value(w: seq<byte>): u32
    requires |w| == 4
  {
    w[0] as int + 256 * (w[1] as int) + 65536 * (w[2] as int) + 16777216 * (w[3] as int)
  }

  lemma ValueRoundTrip(w: seq<byte>)
    requires |w| == 4
    ensures Word(Value(w)) == w
  {
    var x := Value(w);
    assert x / 256 == w[1] as int + 256 * (w[2] as int) + 65536 * (w[3] as int);
    assert x / 65536 == w[2] as int + 256 * (w[3] as int);
  }

  lemma WordRoundTrip(x: u32)
    ensures Value(Word(x)) == x
  {
    assert x == x % 256 + 256 * (x / 256);
    assert x / 256 == x / 256 % 256 + 256 * (x / 65536);
    assert x / 65536 == x / 65536 % 256 + 256 * (x / 16777216);
  }

  function HeaderBytes(h: Header): (b: seq<byte>)
    ensures |b| == HEADER
  {
    Word(h.uid) + Word(h.frag) + Word(h.alarm) + Word(h.offset) + Word(h.kind) + Word(h.dataLen)
  }

  lemma WordBytes(x: u32)
    ensures var w := Word(x); x == (w[0] as int) + 0x100 * (w[1] as int) + 0x1_0000 * (w[2] as int) + 0x100_0000 * (w[3] as int)
  {
    WordRoundTrip(x);
  }

  // The fields in the order of struct AtlasHeader, least significant byte first.
  lemma HeaderLayout(h: Header)
    ensures var b := HeaderBytes(h);
            && h.uid == (b[0] as int) + 0x100 * (b[1] as int) + 0x1_0000 * (b[2] as int) + 0x100_0000 * (b[3] as int)
            && h.frag == (b[4] as int) + 0x100 * (b[5] as int) + 0x1_0000 * (b[6] as int) + 0x100_0000 * (b[7] as int)
            && h.alarm == (b[8] as int) + 0x100 * (b[9] as int) + 0x1_0000 * (b[10] as int) + 0x100_0000 * (b[11] as int)
            && h.offset == (b[12] as int) + 0x100 * (b[13] as int) + 0x1_0000 * (b[14] as int) + 0x100_0000 * (b[15] as int)
            && h.kind == (b[16] as int) + 0x100 * (b[17] as int) + 0x1_0000 * (b[18] as int) + 0x100_0000 * (b[19] as int)
            && h.dataLen == (b[20] as int) + 0x100 * (b[21] as int) + 0x1_0000 * (b[22] as int) + 0x100_0000 * (b[23] as int)
  {
    hide Word;
    WordBytes(h.uid);
    WordBytes(h.frag);
    WordBytes(h.alarm);
    WordBytes(h.offset);
    WordBytes(h.kind);
    WordBytes(h.dataLen);
  }

  function HeaderFrom(b: seq<byte>): Header
    requires |b| == HEADER
  {
    Header(Value(b[0..4]), Value(b[4..8]), Value(b[8..12]), Value(b[12..16]), Value(b[16..20]), Value(b[20..24]))
  }

  lemma HeaderRoundTrip(h: Header)
    ensures HeaderFrom(HeaderBytes(h)) == h
  {
    var b := HeaderBytes(h);
    assert b[0..4] == Word(h.uid) && b[4..8] == Word(h.frag) && b[8..12] == Word(h.alarm);
    assert b[12..16] == Word(h.offset) && b[16..20] == Word(h.kind) && b[20..24] == Word(h.dataLen);
    WordRoundTrip(h.uid);
    WordRoundTrip(h.frag);
    WordRoundTrip(h.alarm);
    WordRoundTrip(h.offset);
    WordRoundTrip(h.kind);
    WordRoundTrip(h.dataLen);
  }

  // A frame the daemon can send: a Read without data, or a Write with the announced data.
  predicate Sendable(f: Frame) {
    (f.hdr.kind == READ && f.data == []) || (f.hdr.kind == WRITE && |f.data| == f.hdr.dataLen)
  }

  // What one Sender prints on the socket.
  function SenderBytes(f: Frame): seq<byte> {
    if f.hdr.kind == READ then HeaderBytes(f.hdr)
    else if f.hdr.kind == WRITE then HeaderBytes(f.hdr) + f.data
    else []
  }

  function RequestStream(frames: seq<Frame>): seq<byte> {
    if frames == [] then [] else SenderBytes(frames[0]) + RequestStream(frames[1..])
  }

  lemma {:induction false} RequestStreamAppend(frames: seq<Frame>, f: Frame)
    ensures RequestStream(frames + [f]) == RequestStream(frames) + SenderBytes(f)
    decreases |frames|
  {
    hide SenderBytes;
    if frames == [] {
      assert [f][1..] == [];
    } else {
      RequestStreamAppend(frames[1..], f);
      assert (frames + [f])[0] == frames[0] && (frames + [f])[1..] == frames[1..] + [f];
      Regroup(SenderBytes(frames[0]), RequestStream(frames[1..]), SenderBytes(f));
    }
  }

  // A server's reply: the header, and the data of a Read.
  predicate Answerable(f: Frame) {
    if f.hdr.kind == READ then |f.data| == f.hdr.dataLen else f.data == []
  }

  function ReplyStream(replies: seq<Frame>): seq<byte> {
    if replies == [] then [] else HeaderBytes(replies[0].hdr) + replies[0].data + ReplyStream(replies[1..])
  }

  lemma {:induction false} ReplyStreamAppend(a: seq<Frame>, b: seq<Frame>)
    ensures ReplyStream(a + b) == ReplyStream(a) + ReplyStream(b)
  {
    hide HeaderBytes;
    if a == [] {
      assert a + b == b;
    } else {
      ReplyStreamAppend(a[1..], b);
      assert (a + b)[0] == a[0] && (a + b)[1..] == a[1..] + b;
      Regroup(HeaderBytes(a[0].hdr) + a[0].data, ReplyStream(a[1..]), ReplyStream(b));
    }
  }

  lemma Regroup(x: seq<byte>, y: seq<byte>, z: seq<byte>)
    ensures x + (y + z) == x + y + z
  {
  }

  // ---------- message level ----------

  // A server that takes whole frames. Overrun: some frame would leave its storage.
  datatype Service = Service(storage: seq<byte>, replies: seq<Frame>) | Overrun

  function ServeFrames(storage: seq<byte>, frames: seq<Frame>): Service
    decreases |frames|
  {
    if frames == [] then Service(storage, [])
    else match ServeFrame(storage, frames[0])
         case Fault => Overrun
         case Served(storage', reply) =>
           match ServeFrames(storage', frames[1..])
           case Overrun => Overrun
           case Service(last, replies) => Service(last, reply + replies)
  }

  // ---------- byte level ----------

  datatype ByteService = ByteService(storage: seq<byte>, output: seq<byte>) | ByteOverrun

  // The server's loop over everything it will ever receive. It stops at the end of the stream; a Write whose data is
  // cut short stores what there is and is not answered.
  function ServeBytes(storage: seq<byte>, input: seq<byte>): ByteService
    decreases |input|
  {
    if |input| < HEADER then ByteService(storage, [])
    else
      var hdr, rest := HeaderFrom(input[..HEADER]), input[HEADER..];
      if hdr.kind == WRITE && |rest| < hdr.dataLen then
        if hdr.offset + |rest| <= |storage| then ByteService(Splice(storage, hdr.offset, rest), []) else ByteOverrun
      else
        var size := if hdr.kind == WRITE then hdr.dataLen else 0;
        match ServeFrame(storage, Frame(hdr, rest[..size]))
        case Fault => ByteOverrun
        case Served(storage', reply) =>
          Prepend(reply, ServeBytes(storage', rest[size..]))
  }

  function Prepend(reply: seq<Frame>, later: ByteService): ByteService {
    if later.ByteService? then ByteService(later.storage, ReplyStream(reply) + later.output) else ByteOverrun
  }

  lemma CutFront(f: Frame, rest: seq<byte>)
    ensures var s := HeaderBytes(f.hdr) + f.data + rest;
            && s[..HEADER] == HeaderBytes(f.hdr) && s[HEADER..] == f.data + rest
            && s[HEADER..][..|f.data|] == f.data && s[HEADER..][|f.data|..] == rest
  {
    hide HeaderBytes;
    var s := HeaderBytes(f.hdr) + f.data + rest;
    assert s == HeaderBytes(f.hdr) + (f.data + rest);
    assert s[HEADER..] == f.data + rest;
  }

  lemma ServeFirst(storage: seq<byte>, f: Frame, rest: seq<byte>)
    requires Sendable(f)
    ensures SenderBytes(f) == HeaderBytes(f.hdr) + f.data
    ensures ServeFrame(storage, f).Fault? ==> ServeBytes(storage, SenderBytes(f) + rest) == ByteOverrun
    ensures ServeFrame(storage, f).Served? ==>
              ServeBytes(storage, SenderBytes(f) + rest)
              == Prepend(ServeFrame(storage, f).reply, ServeBytes(ServeFrame(storage, f).storage, rest))
  {
    hide HeaderBytes, HeaderFrom, ServeFrame, ReplyStream;
    assert SenderBytes(f) == HeaderBytes(f.hdr) + f.data;
    HeaderRoundTrip(f.hdr);
    CutFront(f, rest);
    assert Frame(f.hdr, f.data) == f;
  }

  function InBytes(s: Service): ByteService {
    if s.Service? then ByteService(s.storage, ReplyStream(s.replies)) else ByteOverrun
  }

  // Serving the bytes of a list of frames is serving the frames: the server finds every boundary the Senders made.
  lemma {:induction false} ServerRecoversFrames(storage: seq<byte>, frames: seq<Frame>)
    requires forall f :: f in frames ==> Sendable(f)
    ensures ServeBytes(storage, RequestStream(frames)) == InBytes(ServeFrames(storage, frames))
    decreases |frames|
  {
    hide SenderBytes, ServeFrame, Sendable, HeaderFrom;
    if frames != [] {
      assert frames[0] in frames && forall g :: g in frames[1..] ==> g in frames;
      ServeFirst(storage, frames[0], RequestStream(frames[1..]));
      match ServeFrame(storage, frames[0]) {
        case Fault =>
        case Served(storage', reply) =>
          ServerRecoversFrames(storage', frames[1..]);
          if ServeFrames(storage', frames[1..]).Service? {
            ReplyStreamAppend(reply, ServeFrames(storage', frames[1..]).replies);
          }
      }
    }
  }

  // The daemon's reading of the replies, one ManageReplies after the other.
  function ParseReplies(input: seq<byte>): seq<Frame>
    decreases |input|
  {
    if |input| < HEADER then []
    else
      var hdr, rest := HeaderFrom(input[..HEADER]), input[HEADER..];
      var size := if hdr.kind == READ then hdr.dataLen else 0;
      if |rest| < size then [] else [Frame(hdr, rest[..size])] + ParseReplies(rest[size..])
  }

  lemma {:induction false} DaemonRecoversReplies(replies: seq<Frame>)
    requires forall f :: f in replies ==> Answerable(f)
    ensures ParseReplies(ReplyStream(replies)) == replies
  {
    hide HeaderBytes, HeaderFrom;
    if replies != [] {
      var f, rest := replies[0], ReplyStream(replies[1..]);
      assert f in replies && forall g :: g in replies[1..] ==> g in replies;
      HeaderRoundTrip(f.hdr);
      CutFront(f, rest);
      DaemonRecoversReplies(replies[1..]);
      assert ParseReplies(ReplyStream(replies)) == [Frame(f.hdr, f.data)] + ParseReplies(rest);
    }
  }

  lemma {:induction false} RepliesAreAnswerable(storage: seq<byte>, frames: seq<Frame>)
    requires ServeFrames(storage, frames).Service?
    ensures forall f :: f in ServeFrames(storage, frames).replies ==> Answerable(f)
    decreases |frames|
  {
    if frames != [] {
      RepliesAreAnswerable(ServeFrame(storage, frames[0]).storage, frames[1..]);
    }
  }

  // End to end: frames printed by Senders, served from bytes and read back from bytes give the replies, and the
  // storage, of a server that is handed the frames themselves.
  lemma BytesCarryTheProtocol(storage: seq<byte>, frames: seq<Frame>)
    requires forall f :: f in frames ==> Sendable(f)
    requires ServeFrames(storage, frames).Service?
    ensures ServeBytes(storage, RequestStream(frames)).ByteService?
    ensures ServeBytes(storage, RequestStream(frames)).storage == ServeFrames(storage, frames).storage
    ensures ParseReplies(ServeBytes(storage, RequestStream(frames)).output) == ServeFrames(storage, frames).replies
  {
    ServerRecoversFrames(storage, frames);
    RepliesAreAnswerable(storage, frames);
    DaemonRecoversReplies(ServeFrames(storage, frames).replies);
  }

  // ---------- sockets ----------

  // One end of a connection: what it has yet to receive and what it has sent. The peer closes after `input`.
  class Socket {
    var input: seq<byte>
    var output: seq<byte>
    ghost var history: seq<(nat, nat)>     // what each recv was asked for, and what it gave

    constructor (input: seq<byte>)
      ensures this.input == input && output == [] && history == []
    {
      this.input, output, history := input, [], [];
    }

    // recv: some bytes of the stream, at least one unless the peer has closed.
    method Recv(max: nat) returns (got: seq<byte>)
      requires max > 0
      modifies this`input, this`history
      ensures got + input == old(input) && |got| <= max && history == old(history) + [(max, |got|)]
      ensures got == [] <==> old(input) == []
    {
      var count: nat :| count <= max && count <= |input| && (count == 0 <==> input == []);
      got, input := input[..count], input[count..];
      history := history + [(max, |got|)];
    }

    // write: some of the bytes, at least one unless there are none.
    method Write(data: seq<byte>) returns (count: nat)
      modifies this`output
      ensures count <= |data| && (count == 0 <==> data == [])
      ensures output == old(output) + data[..count]
    {
      count :| count <= |data| && (count == 0 <==> data == []);
      output := output + data[..count];
    }

    // send: everything, as the callers assume.
    method Send(data: seq<byte>)
      modifies this`output
      ensures output == old(output) + data
    {
      output := output + data;
    }
  }

  lemma SpliceTwice(s: seq<byte>, at: nat, a: seq<byte>, b: seq<byte>)
    requires at + |a| + |b| <= |s|
    ensures Splice(Splice(s, at, a), at + |a|, b) == Splice(s, at, a + b)
  {
  }

  // ReadAll: recv until `count` bytes are in the buffer or the peer has closed. However the stream is split, the buffer
  // ends up with the first `count` bytes of it, or with all there were.
  method ReadAll(sock: Socket, buf: array<byte>, at: nat, count: nat) returns (r: int)
    requires at + (if count <= |sock.input| then count else |sock.input|) <= buf.Length
    modifies sock`input, sock`history, buf
    ensures count <= |old(sock.input)| ==>
              r == 0 && sock.input == old(sock.input)[count..] && buf[..] == Splice(old(buf[..]), at, old(sock.input)[..count])
    ensures count > |old(sock.input)| ==>
              r == -1 && sock.input == [] && buf[..] == Splice(old(buf[..]), at, old(sock.input))
  {
    var left := count;
    ghost var stream, start := sock.input, buf[..];
    ghost var got: seq<byte> := [];
    while left > 0
      invariant 0 <= left && got + sock.input == stream && |got| + left == count
      invariant at + |got| <= buf.Length && buf[..] == Splice(start, at, got)
      decreases left
    {
      var bytes := sock.Recv(left);
      if bytes == [] {
        assert got == stream;
        return -1;
      }
      SpliceTwice(start, at, got, bytes);
      Copy(buf, at + (count - left), bytes);
      got := got + bytes;
      left := left - |bytes|;
    }
    assert got == stream[..count] && sock.input == stream[count..];
    r := 0;
  }

  // WriteAll: write until everything is written.
  method WriteAll(sock: Socket, data: seq<byte>)
    modifies sock`output
    ensures sock.output == old(sock.output) + data
  {
    var rest := data;
    while rest != []
      invariant sock.output + rest == old(sock.output) + data
      decreases |rest|
    {
      var count := sock.Write(rest);
      rest := rest[count..];
    }
  }

  // The rest of a server's turn, once it has read a header: it acts on the type.
  method ServeOne(sock: Socket, storage: array<byte>, hdr: Header)
    requires hdr.kind == READ ==> hdr.offset + hdr.dataLen <= storage.Length
    requires hdr.kind == WRITE ==> hdr.offset + (if hdr.dataLen <= |sock.input| then hdr.dataLen else |sock.input|) <= storage.Length
    modifies sock, storage
    ensures var size := if hdr.kind == WRITE then hdr.dataLen else 0;
            size <= |old(sock.input)| ==>
              var served := ServeFrame(old(storage[..]), Frame(hdr, old(sock.input)[..size]));
              && served.Served? && storage[..] == served.storage
              && sock.output == old(sock.output) + ReplyStream(served.reply) && sock.input == old(sock.input)[size..]
    ensures hdr.kind == WRITE && hdr.dataLen > |old(sock.input)| ==>
              storage[..] == Splice(old(storage[..]), hdr.offset, old(sock.input)) && sock.output == old(sock.output) && sock.input == []
  {
    hide HeaderBytes, Splice;
    ghost var before, sent := storage[..], sock.output;
    match hdr.kind {
      case 0 =>
        sock.Send(HeaderBytes(hdr));
        sock.Send(storage[hdr.offset..hdr.offset + hdr.dataLen]);
        OneReply(Frame(hdr, before[hdr.offset..hdr.offset + hdr.dataLen]), sent);
      case 1 =>
        var r := ReadAll(sock, storage, hdr.offset, hdr.dataLen);
        if r == 0 {
          sock.Send(HeaderBytes(hdr));
          OneReply(Frame(hdr, []), sent);
        }
      case _ =>
    }
  }

  lemma OneReply(f: Frame, sent: seq<byte>)
    ensures sent + HeaderBytes(f.hdr) + f.data == sent + ReplyStream([f])
  {
  }

  // The server: turn after turn until the stream ends.
  method Serve(sock: Socket, storage: array<byte>)
    requires ServeBytes(storage[..], sock.input).ByteService?
    modifies sock, storage
    ensures storage[..] == ServeBytes(old(storage[..]), old(sock.input)).storage
    ensures sock.output == old(sock.output) + ServeBytes(old(storage[..]), old(sock.input)).output
  {
    hide HeaderBytes, HeaderFrom, ServeFrame, Splice, ReplyStream;
    ghost var all, sent := ServeBytes(storage[..], sock.input), sock.output;
    var atlas := new byte[HEADER];
    while true
      invariant fresh(atlas) && atlas.Length == HEADER
      invariant ServeBytes(storage[..], sock.input).ByteService?
      invariant all.storage == ServeBytes(storage[..], sock.input).storage
      invariant sent + all.output == sock.output + ServeBytes(storage[..], sock.input).output
      decreases |sock.input|
    {
      ghost var stream := sock.input;
      var r := ReadAll(sock, atlas, 0, HEADER);
      if r == -1 { break; }
      assert atlas[..] == stream[..HEADER] by { WholeSplice(stream[..HEADER]); }
      ServableHeader(storage[..], stream);
      ServeOne(sock, storage, HeaderFrom(atlas[..]));
    }
  }

  lemma ServableHeader(storage: seq<byte>, input: seq<byte>)
    requires |input| >= HEADER && ServeBytes(storage, input).ByteService?
    ensures var hdr, left := HeaderFrom(input[..HEADER]), |input| - HEADER;
            && (hdr.kind == READ ==> hdr.offset + hdr.dataLen <= |storage|)
            && (hdr.kind == WRITE ==> hdr.offset + (if hdr.dataLen <= left then hdr.dataLen else left) <= |storage|)
  {
    hide HeaderFrom;
  }

  lemma WholeSplice(data: seq<byte>)
    ensures forall s: seq<byte> :: |s| == |data| ==> Splice(s, 0, data) == data
  {
  }

  // ManageReplies: one header, and the data of a Read; for other types the task gets an uninitialised buffer of the
  // announced length. It does not look at what ReadAll returns, so at the end of the stream it makes a task of what there is.
  method ManageReplies(sock: Socket) returns (task: Frame)
    modifies sock`input, sock`history
    ensures |task.data| == task.hdr.dataLen
    ensures ParseReplies(old(sock.input)) != [] ==>
              ParseReplies(old(sock.input)) == [Frame(task.hdr, if task.hdr.kind == READ then task.data else [])] + ParseReplies(sock.input)
    ensures ParseReplies(old(sock.input)) == [] ==> sock.input == []
    ensures ParseReplies(old(sock.input)) == [] && |old(sock.input)| >= HEADER ==>
              task.hdr == HeaderFrom(old(sock.input)[..HEADER]) && task.hdr.kind == READ && old(sock.input)[HEADER..] <= task.data
  {
    hide HeaderFrom, HeaderBytes, Splice;
    ghost var stream := sock.input;
    var atlas := new byte[HEADER];
    var r := ReadAll(sock, atlas, 0, HEADER);
    var hdr := HeaderFrom(atlas[..]);
    assert |stream| >= HEADER ==> atlas[..] == stream[..HEADER] by { if |stream| >= HEADER { WholeSplice(stream[..HEADER]); } }
    var data := new byte[hdr.dataLen];
    if hdr.kind == READ {
      ghost var left, unset := sock.input, data[..];
      r := ReadAll(sock, data, 0, hdr.dataLen);
      if hdr.dataLen <= |left| {
        WholeSplice(left[..hdr.dataLen]);
      } else {
        SpliceStarts(unset, left);
      }
    }
    task := Frame(hdr, data[..]);
  }

  lemma SpliceStarts(s: seq<byte>, data: seq<byte>)
    requires |data| <= |s|
    ensures data <= Splice(s, 0, data)
  {
  }
}
