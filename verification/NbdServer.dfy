// The two in-memory servers of the kernel's requests: BUSE's serve_nbd over the backend of busexmp.c, and the request
// interface of buse.c under the loop of buse_test.c. Both leave a replay of the requests on the socket.
module NbdServer {
  import opened Bytes
  import opened FlatDisk
  import opened Wire
  import opened NbdWire

  // The request as the backend sees it: only Reads and Writes look at their range.
  function View(c: Call): Request {
    match c.cmd
    case Read => Request(Read, c.from, c.len, seq(c.len, _ => 0))
    case Write => Request(Write, c.from, c.len, c.data)
    case _ => Request(c.cmd, 0, 0, [])
  }

  function Views(calls: seq<Call>): (log: seq<Request>)
    ensures |log| == |calls| && forall i :: 0 <= i < |calls| ==> log[i] == View(calls[i])
  {
    seq(|calls|, i requires 0 <= i < |calls| => View(calls[i]))
  }

  // What the kernel promises: whole requests, inside the device.
  predicate Servable(calls: seq<Call>, size: nat) {
    forall i :: 0 <= i < |calls| ==> WellFormed(calls[i]) && Fits(View(calls[i]), size)
  }

  function CallStream(calls: seq<Call>): seq<byte>
    requires forall i :: 0 <= i < |calls| ==> WellFormed(calls[i])
  {
    if calls == [] then [] else HeaderOfCall(calls[0]) + calls[0].data + CallStream(calls[1..])
  }

  // The data of every reply, in order.
  function Wants(disk: seq<byte>, calls: seq<Call>): (answers: seq<seq<byte>>)
    requires Servable(calls, |disk|)
    ensures |answers| == |calls|
    ensures forall i :: 0 <= i < |calls| ==> answers[i] == Want(disk, Views(calls), i)
  {
    seq(|calls|, i requires 0 <= i < |calls| => Want(disk, Views(calls), i))
  }

  // One simple reply after the other, each with the handle of its request.
  function Replies(calls: seq<Call>, answers: seq<seq<byte>>): seq<byte>
    requires |answers| == |calls| && forall i :: 0 <= i < |calls| ==> WellFormed(calls[i])
  {
    if calls == [] then []
    else
      assert WellFormed(calls[0]);
      ReplyHeader(calls[0].handle) + answers[0] + Replies(calls[1..], answers[1..])
  }

  lemma {:induction false} OneMoreReply(calls: seq<Call>, answers: seq<seq<byte>>, c: Call, answer: seq<byte>)
    requires |answers| == |calls| && WellFormed(c) && forall i :: 0 <= i < |calls| ==> WellFormed(calls[i])
    ensures Replies(calls + [c], answers + [answer]) == Replies(calls, answers) + ReplyHeader(c.handle) + answer
  {
    hide ReplyHeader;
    if calls != [] {
      OneMoreReply(calls[1..], answers[1..], c, answer);
      assert (calls + [c])[0] == calls[0] && (calls + [c])[1..] == calls[1..] + [c];
      assert (answers + [answer])[0] == answers[0] && (answers + [answer])[1..] == answers[1..] + [answer];
      var head, tail := ReplyHeader(calls[0].handle) + answers[0], Replies(calls[1..], answers[1..]);
      Regroup(head, tail + ReplyHeader(c.handle), answer);
      Regroup(head, tail, ReplyHeader(c.handle));
    } else {
      assert [c][1..] == [] && [answer][1..] == [];
    }
  }

  // The disk, and what is on the socket, after the first k calls.
  function DiskAfter(disk: seq<byte>, calls: seq<Call>, k: nat): (after: seq<byte>)
    requires Servable(calls, |disk|) && k <= |calls|
    ensures |after| == |disk|
  {
    After(disk, Views(calls[..k]))
  }

  function SentAfter(disk: seq<byte>, calls: seq<Call>, k: nat): seq<byte>
    requires Servable(calls, |disk|) && k <= |calls|
  {
    Replies(calls[..k], Wants(disk, calls[..k]))
  }

  lemma OneMoreView(calls: seq<Call>, k: nat)
    requires k < |calls|
    ensures Views(calls[..k + 1]) == Views(calls[..k]) + [View(calls[k])]
  {
  }

  lemma OneMoreWant(disk: seq<byte>, calls: seq<Call>, k: nat)
    requires Servable(calls, |disk|) && k < |calls|
    ensures Wants(disk, calls[..k + 1]) == Wants(disk, calls[..k]) + [Answer(DiskAfter(disk, calls, k), View(calls[k]))]
  {
    hide View, Answer, After;
    forall i: nat | i <= k
      ensures Views(calls[..k + 1])[..i] == Views(calls[..i])
      ensures i < k ==> Views(calls[..k])[..i] == Views(calls[..i])
    {
    }
  }

  // Serving one more call replays one more request.
  lemma OneMoreCall(disk: seq<byte>, calls: seq<Call>, k: nat)
    requires Servable(calls, |disk|) && k < |calls|
    ensures var now, request := DiskAfter(disk, calls, k), View(calls[k]);
            && DiskAfter(disk, calls, k + 1) == Effect(now, request)
            && SentAfter(disk, calls, k + 1) == SentAfter(disk, calls, k) + ReplyHeader(calls[k].handle) + Answer(now, request)
  {
    hide View, Effect, Answer, ReplyHeader, Wants, After, Replies;
    OneMoreView(calls, k);
    AfterOneMore(disk, Views(calls[..k]), View(calls[k]));
    OneMoreWant(disk, calls, k);
    assert calls[..k + 1] == calls[..k] + [calls[k]];
    OneMoreReply(calls[..k], Wants(disk, calls[..k]), calls[k], Answer(DiskAfter(disk, calls, k), View(calls[k])));
  }

  lemma NoCallYet(disk: seq<byte>, calls: seq<Call>)
    requires Servable(calls, |disk|)
    ensures DiskAfter(disk, calls, 0) == disk && SentAfter(disk, calls, 0) == []
  {
  }

  lemma NextCall(calls: seq<Call>, k: nat)
    requires k <= |calls| && forall i :: 0 <= i < |calls| ==> WellFormed(calls[i])
    ensures k == |calls| ==> CallStream(calls[k..]) == []
    ensures k < |calls| ==> CallStream(calls[k..]) == HeaderOfCall(calls[k]) + (calls[k].data + CallStream(calls[k + 1..]))
  {
    if k < |calls| {
      assert calls[k..][1..] == calls[k + 1..];
      Regroup(HeaderOfCall(calls[k]), calls[k].data, CallStream(calls[k + 1..]));
    }
  }

  // ---------- the kernel's side ----------

  datatype Answered = Answered(handle: seq<byte>, data: seq<byte>)

  function Awaiting(waiting: map<seq<byte>, Call>, calls: seq<Call>): map<seq<byte>, Call>
    decreases |calls|
  {
    if calls == [] then waiting else Awaiting(waiting[calls[0].handle := calls[0]], calls[1..])
  }

  // The kernel takes one reply off the stream for every batch: it issues the batch, and then looks the handle of the reply up
  // among the requests it is waiting for.
  function Receive(waiting: map<seq<byte>, Call>, batches: seq<seq<Call>>, stream: seq<byte>): seq<Answered>
    decreases |batches|
  {
    if batches == [] then []
    else
      var now := Awaiting(waiting, batches[0]);
      if |stream| < REPLY || stream[..8] != Network(REPLY_MAGIC) + Network(0) || stream[8..16] !in now then []
      else
        var handle, rest := stream[8..16], stream[REPLY..];
        var size := if now[handle].cmd.Read? then now[handle].len else 0;
        if |rest| < size then [] else [Answered(handle, rest[..size])] + Receive(now - {handle}, batches[1..], rest[size..])
  }

  predicate DistinctHandles(calls: seq<Call>) {
    forall i, j :: 0 <= i < j < |calls| ==> calls[i].handle != calls[j].handle
  }

  // No handle is used again before its reply; `due` lists what is waited for, oldest first.
  predicate Careful(due: seq<Call>, batches: seq<seq<Call>>)
    decreases |batches|
  {
    batches == []
    || var now := due + batches[0];
       now != [] && DistinctHandles(now) && Careful(now[1..], batches[1..])
  }

  function Issued(due: seq<Call>, batches: seq<seq<Call>>): seq<Call>
    decreases |batches|
  {
    if batches == [] then due else Issued(due + batches[0], batches[1..])
  }

  predicate Waits(waiting: map<seq<byte>, Call>, due: seq<Call>) {
    forall i :: 0 <= i < |due| ==> due[i].handle in waiting && waiting[due[i].handle] == due[i]
  }

  lemma {:induction false} AwaitingAll(waiting: map<seq<byte>, Call>, due: seq<Call>, calls: seq<Call>)
    requires Waits(waiting, due) && DistinctHandles(due + calls)
    ensures Waits(Awaiting(waiting, calls), due + calls)
    decreases |calls|
  {
    if calls == [] {
      assert due + calls == due;
    } else {
      var next := waiting[calls[0].handle := calls[0]];
      assert (due + [calls[0]]) + calls[1..] == due + calls;
      forall i | 0 <= i < |due + [calls[0]]|
        ensures (due + [calls[0]])[i].handle in next && next[(due + [calls[0]])[i].handle] == (due + [calls[0]])[i]
      {
        assert (due + calls)[|due|] == calls[0];
        assert i < |due| ==> (due + calls)[i] == due[i];
      }
      AwaitingAll(next, due + [calls[0]], calls[1..]);
    }
  }

  // The oldest request stays the first of those issued.
  lemma {:induction false} IssuedTail(due: seq<Call>, batches: seq<seq<Call>>)
    requires due != []
    ensures Issued(due, batches) != [] && Issued(due, batches)[0] == due[0] && Issued(due[1..], batches) == Issued(due, batches)[1..]
    decreases |batches|
  {
    if batches != [] {
      assert (due + batches[0])[1..] == due[1..] + batches[0];
      IssuedTail(due + batches[0], batches[1..]);
    }
  }

  predicate AllWellFormed(calls: seq<Call>) {
    forall i :: 0 <= i < |calls| ==> WellFormed(calls[i])
  }

  predicate Sized(calls: seq<Call>, answers: seq<seq<byte>>) {
    |answers| == |calls| && forall i :: 0 <= i < |calls| ==> |answers[i]| == if calls[i].cmd.Read? then calls[i].len else 0
  }

  lemma CutReply(handle: seq<byte>, data: seq<byte>, rest: seq<byte>)
    requires |handle| == 8
    ensures var s := ReplyHeader(handle) + data + rest;
            && |s| >= REPLY && s[..8] == Network(REPLY_MAGIC) + Network(0) && s[8..16] == handle
            && s[REPLY..] == data + rest && (data + rest)[..|data|] == data && (data + rest)[|data|..] == rest
  {
    hide Network;
    var magic, s := Network(REPLY_MAGIC) + Network(0), ReplyHeader(handle) + data + rest;
    assert s == magic + (handle + (data + rest));
    assert s[8..] == handle + (data + rest);
  }

  predicate Starts(calls: seq<Call>, issued: seq<Call>) {
    |calls| <= |issued| && issued[..|calls|] == calls
  }

  // The kernel recovers every answer, in order and under the right handle, from the bytes alone.
  lemma {:induction false} KernelRecoversAnswers(waiting: map<seq<byte>, Call>, due: seq<Call>, batches: seq<seq<Call>>,
                                                 calls: seq<Call>, answers: seq<seq<byte>>)
    requires Waits(waiting, due) && Careful(due, batches)
    requires AllWellFormed(calls) && |calls| == |batches| && Starts(calls, Issued(due, batches)) && Sized(calls, answers)
    ensures var got := Receive(waiting, batches, Replies(calls, answers));
            |got| == |calls| && forall i :: 0 <= i < |calls| ==> got[i] == Answered(calls[i].handle, answers[i])
    decreases |batches|
  {
    hide ReplyHeader, Network;
    if batches != [] {
      var now, c, rest := due + batches[0], calls[0], Replies(calls[1..], answers[1..]);
      AwaitingAll(waiting, due, batches[0]);
      IssuedTail(now, batches[1..]);
      CutReply(c.handle, answers[0], rest);
      var left := Awaiting(waiting, batches[0]) - {c.handle};
      assert Waits(left, now[1..]);
      KernelRecoversAnswers(left, now[1..], batches[1..], calls[1..], answers[1..]);
      assert Receive(waiting, batches, Replies(calls, answers)) == [Answered(c.handle, answers[0])] + Receive(left, batches[1..], rest);
    }
  }

  // The kernel issues these calls in these batches, and waits for a reply to each.
  predicate Asks(calls: seq<Call>, batches: seq<seq<Call>>) {
    |batches| == |calls| && Careful([], batches) && Starts(calls, Issued([], batches))
  }

  // From this stream it gets the replay of the calls.
  predicate Replayed(disk: seq<byte>, calls: seq<Call>, batches: seq<seq<Call>>, stream: seq<byte>)
    requires Servable(calls, |disk|)
  {
    var got := Receive(map[], batches, stream);
    |got| == |calls| && forall i :: 0 <= i < |calls| ==> got[i] == Answered(calls[i].handle, Wants(disk, calls)[i])
  }

  // Whatever the pace of the kernel, the stream is to it the replay of the calls.
  ghost predicate KernelSees(disk: seq<byte>, calls: seq<Call>, stream: seq<byte>)
    requires Servable(calls, |disk|)
  {
    forall batches: seq<seq<Call>> :: Asks(calls, batches) ==> Replayed(disk, calls, batches, stream)
  }

  lemma WantsAreSized(disk: seq<byte>, calls: seq<Call>)
    requires Servable(calls, |disk|)
    ensures Sized(calls, Wants(disk, calls))
  {
    hide After;
    forall i | 0 <= i < |calls| ensures |Wants(disk, calls)[i]| == if calls[i].cmd.Read? then calls[i].len else 0 {
      assert Views(calls)[i] == View(calls[i]);
    }
  }

  lemma KernelGetsTheReplay(disk: seq<byte>, calls: seq<Call>, served: nat)
    requires Servable(calls, |disk|) && served <= |calls|
    ensures KernelSees(disk, calls[..served], SentAfter(disk, calls, served))
  {
    hide Wants, Replies;
    forall batches: seq<seq<Call>> | Asks(calls[..served], batches)
      ensures Replayed(disk, calls[..served], batches, SentAfter(disk, calls, served))
    {
      WantsAreSized(disk, calls[..served]);
      KernelRecoversAnswers(map[], [], batches, calls[..served], Wants(disk, calls[..served]));
    }
  }

  lemma WantOfRead(disk: seq<byte>, calls: seq<Call>, i: nat)
    requires Servable(calls, |disk|) && i < |calls| && calls[i].cmd.Read?
    ensures calls[i].from + calls[i].len <= |disk|
    ensures Wants(disk, calls)[i] == DiskAfter(disk, calls, i)[calls[i].from..calls[i].from + calls[i].len]
  {
    hide After;
    assert Views(calls)[..i] == Views(calls[..i]);
  }

  // The last writer among the views, if there is one, is a call; and a call that stores the byte is its view's writer.
  lemma WriterIsCall(calls: seq<Call>, k: nat, w: nat, at: nat)
    requires k <= |calls| && forall i :: 0 <= i < |calls| ==> WellFormed(calls[i])
    ensures w < k && calls[w].cmd.Write? && calls[w].from <= at < calls[w].from + calls[w].len
            && (forall v: nat :: w < v < k && calls[v].cmd.Write? ==> !(calls[v].from <= at < calls[v].from + calls[v].len))
            <==> LastWriter(Views(calls[..k]), w, at)
    ensures w < k && calls[w].cmd.Write? ==> Views(calls[..k])[w] == Request(Write, calls[w].from, calls[w].len, calls[w].data)
  {
    var log := Views(calls[..k]);
    assert forall v: nat :: v < k ==> log[v] == View(calls[v]);
    assert forall v: nat :: v < k ==> (Touches(log[v], at) <==> calls[v].cmd.Write? && calls[v].from <= at < calls[v].from + calls[v].len);
  }

  // Each byte of the device was stored by the last WRITE call that covers it, call w, ...
  lemma DiskReplaysTheWrites(disk: seq<byte>, calls: seq<Call>, k: nat, at: nat, w: nat)
    requires Servable(calls, |disk|) && k <= |calls| && at < |disk|
    requires w < k && calls[w].cmd.Write? && calls[w].from <= at < calls[w].from + calls[w].len
    requires forall v :: w < v < k && calls[v].cmd.Write? ==> !(calls[v].from <= at < calls[v].from + calls[v].len)
    ensures at - calls[w].from < |calls[w].data| && DiskAfter(disk, calls, k)[at] == calls[w].data[at - calls[w].from]
  {
    hide After, View, Views, LastWriter;
    ByteHistory(disk, Views(calls[..k]), at);
    WriterIsCall(calls, k, w, at);
  }

  // ... or, if no WRITE covers it, has been there from the start.
  lemma DiskKeepsTheRest(disk: seq<byte>, calls: seq<Call>, k: nat, at: nat)
    requires Servable(calls, |disk|) && k <= |calls| && at < |disk|
    requires forall w :: 0 <= w < k && calls[w].cmd.Write? ==> !(calls[w].from <= at < calls[w].from + calls[w].len)
    ensures DiskAfter(disk, calls, k)[at] == disk[at]
  {
    hide After, View, Views, LastWriter;
    ByteHistory(disk, Views(calls[..k]), at);
    forall w: nat ensures !LastWriter(Views(calls[..k]), w, at) {
      WriterIsCall(calls, k, w, at);
    }
  }

  // So byte j of the answer to READ i comes from the last earlier WRITE call that covers it, call w, ...
  lemma AnswersReplayTheWrites(disk: seq<byte>, calls: seq<Call>, i: nat, j: nat, w: nat)
    requires Servable(calls, |disk|) && i < |calls| && calls[i].cmd.Read? && j < calls[i].len
    requires w < i && calls[w].cmd.Write? && calls[w].from <= calls[i].from + j < calls[w].from + calls[w].len
    requires forall v :: w < v < i && calls[v].cmd.Write? ==> !(calls[v].from <= calls[i].from + j < calls[v].from + calls[v].len)
    ensures |Wants(disk, calls)[i]| == calls[i].len && calls[i].from + j - calls[w].from < |calls[w].data|
    ensures Wants(disk, calls)[i][j] == calls[w].data[calls[i].from + j - calls[w].from]
  {
    hide DiskAfter, View, Wants, Views;
    WantOfRead(disk, calls, i);
    DiskReplaysTheWrites(disk, calls, i, calls[i].from + j, w);
  }

  // ... or from the start.
  lemma AnswersKeepTheRest(disk: seq<byte>, calls: seq<Call>, i: nat, j: nat)
    requires Servable(calls, |disk|) && i < |calls| && calls[i].cmd.Read? && j < calls[i].len
    requires forall w :: 0 <= w < i && calls[w].cmd.Write? ==> !(calls[w].from <= calls[i].from + j < calls[w].from + calls[w].len)
    ensures |Wants(disk, calls)[i]| == calls[i].len && calls[i].from + j < |disk|
    ensures Wants(disk, calls)[i][j] == disk[calls[i].from + j]
  {
    hide DiskAfter, View, Wants, Views;
    WantOfRead(disk, calls, i);
    DiskKeepsTheRest(disk, calls, i, calls[i].from + j);
  }

  // A request other than a READ is answered without data.
  lemma OnlyReadsHaveData(disk: seq<byte>, calls: seq<Call>, i: nat)
    requires Servable(calls, |disk|) && i < |calls| && !calls[i].cmd.Read?
    ensures Wants(disk, calls)[i] == []
  {
    WantsAreSized(disk, calls);
  }

  // Nothing else is asked of the kernel: READs and WRITEs inside the device, WRITEs with their data.
  lemma CallsInTheDeviceAreServable(calls: seq<Call>, size: nat)
    requires forall i :: 0 <= i < |calls| ==>
               && |calls[i].handle| == 8 && |calls[i].data| == (if calls[i].cmd.Write? then calls[i].len else 0)
               && (calls[i].cmd.Read? || calls[i].cmd.Write? ==> calls[i].from + calls[i].len <= size)
    ensures Servable(calls, size)
  {
  }

  lemma {:induction false} StreamGrows(calls: seq<Call>, c: Call)
    requires AllWellFormed(calls) && WellFormed(c)
    ensures CallStream(calls + [c]) == CallStream(calls) + (HeaderOfCall(c) + c.data)
    decreases |calls|
  {
    hide HeaderOfCall;
    if calls == [] {
      assert calls + [c] == [c] && [c][1..] == [];
    } else {
      assert WellFormed(calls[0]);
      StreamGrows(calls[1..], c);
      assert (calls + [c])[0] == calls[0] && (calls + [c])[1..] == calls[1..] + [c];
      Regroup(HeaderOfCall(calls[0]) + calls[0].data, CallStream(calls[1..]), HeaderOfCall(c) + c.data);
    }
  }

  lemma EachServable(calls: seq<Call>, size: nat)
    requires Servable(calls, size)
    ensures forall i :: 0 <= i < |calls| ==> WellFormed(calls[i]) && Fits(View(calls[i]), size)
  {
  }

  lemma StreamOfNone()
    ensures CallStream([]) == []
  {
  }

  // A kernel that issues one request at a time is one of those that `KernelSees` speaks of, for any requests ...
  function OneByOne(calls: seq<Call>): (batches: seq<seq<Call>>)
    ensures |batches| == |calls| && forall i :: 0 <= i < |calls| ==> batches[i] == [calls[i]]
  {
    seq(|calls|, i requires 0 <= i < |calls| => [calls[i]])
  }

  lemma {:induction false} PatientKernelAsks(calls: seq<Call>)
    ensures Careful([], OneByOne(calls)) && Issued([], OneByOne(calls)) == calls
    ensures Asks(calls, OneByOne(calls))
    decreases |calls|
  {
    if calls != [] {
      PatientKernelAsks(calls[1..]);
      assert OneByOne(calls)[1..] == OneByOne(calls[1..]);
      assert [] + OneByOne(calls)[0] == [calls[0]] && [calls[0]][1..] == [];
      IssuedTail([calls[0]], OneByOne(calls[1..]));
      assert Issued([calls[0]], OneByOne(calls[1..])) == [calls[0]] + calls[1..];
    }
  }

  // ... and so is one that issues all at once, under handles of their own.
  function AtOnce(calls: seq<Call>): (batches: seq<seq<Call>>)
    ensures |batches| == |calls| && forall i :: 0 <= i < |calls| ==> batches[i] == if i == 0 then calls else []
  {
    seq(|calls|, i => if i == 0 then calls else [])
  }

  lemma {:induction false} NothingMore(due: seq<Call>, batches: seq<seq<Call>>)
    requires |batches| == |due| && DistinctHandles(due) && forall i :: 0 <= i < |batches| ==> batches[i] == []
    ensures Careful(due, batches) && Issued(due, batches) == due
    decreases |batches|
  {
    if batches != [] {
      assert due + [] == due;
      NothingMore(due[1..], batches[1..]);
      IssuedTail(due, batches[1..]);
    }
  }

  lemma HastyKernelAsks(calls: seq<Call>)
    requires forall i, j :: 0 <= i < j < |calls| ==> calls[i].handle != calls[j].handle
    ensures Asks(calls, AtOnce(calls))
  {
    if calls != [] {
      var batches := AtOnce(calls);
      assert [] + batches[0] == calls;
      NothingMore(calls[1..], batches[1..]);
      IssuedTail(calls, batches[1..]);
    }
  }

  // ---------- BUSE ----------

  // How many calls come before the first disconnect.
  function UpToDisc(calls: seq<Call>): (n: nat)
    ensures n <= |calls| && forall i :: 0 <= i < n ==> !calls[i].cmd.Disc?
    ensures n < |calls| ==> calls[n].cmd.Disc?
  {
    if calls == [] || calls[0].cmd.Disc? then 0 else 1 + UpToDisc(calls[1..])
  }

  // xmp_read: memcpy(buf, data + offset, len)
  method XmpRead(data: array<byte>, len: nat, offset: nat) returns (buf: seq<byte>)
    requires offset + len <= data.Length
    ensures buf == data[offset..offset + len]
  {
    buf := data[offset..offset + len];
  }

  // Aborted: an assertion of the C code failed.
  datatype Exit = Success | Aborted

  // The body of serve_nbd's loop, once it has a header. It goes on unless it was told to disconnect.
  method ServeCall(sk: Socket, data: array<byte>, request: seq<byte>, ghost c: Call, ghost rest: seq<byte>) returns (more: bool)
    requires WellFormed(c) && Fits(View(c), data.Length)
    requires request == HeaderOfCall(c) && sk.input == c.data + rest
    modifies sk, data
    ensures more <==> !c.cmd.Disc?
    ensures sk.input == rest
    ensures data[..] == Effect(old(data[..]), View(c))
    ensures sk.output == old(sk.output) + if more then ReplyHeader(c.handle) + Answer(old(data[..]), View(c)) else []
  {
    hide HeaderOfCall, ReplyHeader, Splice, MagicIn, TypeIn, HandleIn, FromIn, LenIn;
    FieldsComeBack(c);
    CommandComesBack(c.cmd);
    var reply := ReplyHeader(HandleIn(request));
    var len, from := LenIn(request), FromIn(request);
    match CommandOf(TypeIn(request)) {
      case Read =>
        var chunk := XmpRead(data, len, from);
        WriteAll(sk, reply);
        WriteAll(sk, chunk);
      case Write =>
        var chunk := new byte[len];
        var r := ReadAll(sk, chunk, 0, len);
        assert chunk[..] == c.data by { WholeSplice(c.data); }
        Copy(data, from, chunk[..]);
        WriteAll(sk, reply);
      case Disc =>
        return false;
      case _ =>
        WriteAll(sk, reply);
    }
    more := true;
  }

  // serve_nbd. It asks for a request header with a single read, so a short read aborts it; what it has answered until
  // then is still a replay.
  method ServeNbd(sk: Socket, data: array<byte>, ghost calls: seq<Call>) returns (exit: Exit, ghost served: nat)
    requires Servable(calls, data.Length) && sk.input == CallStream(calls)
    modifies sk, data
    ensures served <= UpToDisc(calls)
    ensures data[..] == DiskAfter(old(data[..]), calls, served)
    ensures sk.output == old(sk.output) + SentAfter(old(data[..]), calls, served)
    ensures old(sk.output) == [] ==> KernelSees(old(data[..]), calls[..served], sk.output)
    ensures exit.Success? ==>
              served == UpToDisc(calls) && sk.input == if served < |calls| then CallStream(calls[served + 1..]) else []
    ensures exit.Aborted? ==> served < |calls| && sk.history != [] && var (asked, got) := sk.history[|sk.history| - 1]; asked == 28 && 0 < got < 28
  {
    hide HeaderOfCall, ReplyHeader, Splice, DiskAfter, SentAfter, CallStream, View, Effect, Answer, KernelSees;
    ghost var start, sent := data[..], sk.output;
    served := 0;
    NoCallYet(start, calls);
    assert calls[0..] == calls;
    KernelGetsTheReplay(start, calls, 0);
    while true
      invariant served <= UpToDisc(calls)
      invariant sk.input == CallStream(calls[served..])
      invariant data[..] == DiskAfter(start, calls, served)
      invariant sk.output == sent + SentAfter(start, calls, served)
      invariant KernelSees(start, calls[..served], SentAfter(start, calls, served)) && (sent == [] ==> sk.output == SentAfter(start, calls, served))
      decreases |calls| - served
    {
      NextCall(calls, served);
      var request := sk.Recv(REQUEST);
      if request == [] {
        return Success, served;
      }
      if |request| != REQUEST {
        return Aborted, served;
      }
      ghost var c, rest := calls[served], CallStream(calls[served + 1..]);
      TakenHeader(request, sk.input, c, rest);
      OneMoreCall(start, calls, served);
      var more := ServeCall(sk, data, request, c, rest);
      if !more {
        DiscChangesNothing(DiskAfter(start, calls, served), c);
        return Success, served;
      }
      served := served + 1;
      KernelGetsTheReplay(start, calls, served);
    }
  }

  lemma DiscChangesNothing(disk: seq<byte>, c: Call)
    requires c.cmd.Disc? && Fits(View(c), |disk|)
    ensures Effect(disk, View(c)) == disk
  {
  }

  lemma TakenHeader(got: seq<byte>, input: seq<byte>, c: Call, rest: seq<byte>)
    requires WellFormed(c) && |got| == REQUEST && got + input == HeaderOfCall(c) + (c.data + rest)
    ensures got == HeaderOfCall(c) && input == c.data + rest
  {
    hide HeaderOfCall;
    var all := HeaderOfCall(c) + (c.data + rest);
    assert got == all[..REQUEST] && input == all[REQUEST..];
  }

  // ---------- buse.c ----------

  // ReadRequest and ReadData: however the stream is split, exactly `len` bytes of it. At the end of the stream read returns 0
  // for ever, and so the C loop never leaves.
  method ReadData(nbd: Socket, data: array<byte>, len: nat) returns (spins: bool)
    requires len == data.Length
    modifies nbd`input, nbd`history, data
    ensures spins <==> len > |old(nbd.input)|
    ensures !spins ==> data[..] == old(nbd.input)[..len] && nbd.input == old(nbd.input)[len..]
    ensures spins ==> data[..] == Splice(old(data[..]), 0, old(nbd.input)) && nbd.input == []
  {
    ghost var stream, start := nbd.input, data[..];
    ghost var got: seq<byte> := [];
    var at := 0;
    while at < len
      invariant got + nbd.input == stream && |got| == at <= len
      invariant data[..] == Splice(start, 0, got)
      decreases len - at
    {
      var bytes := nbd.Recv(len - at);
      if bytes == [] {
        assert got == stream;
        return true;
      }
      SpliceTwice(start, 0, got, bytes);
      Copy(data, at, bytes);
      at := at + |bytes|;
      got := got + bytes;
    }
    WholeSplice(got);
    spins := false;
  }

  // daemon_request_t: the request, the reply prepared for it, and the data behind them.
  class DaemonRequest {
    const cmd: Command
    const from: nat
    const len: nat
    const reply: seq<byte>
    const data: array<byte>

    constructor (cmd: Command, from: nat, len: nat, reply: seq<byte>)
      ensures this.cmd == cmd && this.from == from && this.len == len && this.reply == reply
      ensures fresh(data) && data.Length == len
    {
      this.cmd, this.from, this.len, this.reply := cmd, from, len, reply;
      data := new byte[len];
    }
  }

  // The lengths are counted in int32_t: that of a WRITE's data, and of a READ's reply header and data together. One that
  // turns negative becomes a huge size_t.
  predicate Countable(cmd: Command, len: nat) {
    (cmd.Write? ==> len < 0x8000_0000) && (cmd.Read? ==> len + REPLY < 0x8000_0000)
  }

  // One turn of the loop: it answers the request, or waits for the rest of it and never sees it, or leaves the buffer.
  datatype Turn = Answers | Spins | Overruns

  function TurnOn(c: Call, available: nat): Turn {
    if available < REQUEST then Spins
    else if !Countable(c.cmd, c.len) then Overruns
    else if available < REQUEST + |c.data| then Spins
    else Answers
  }

  // The loop leaves a buffer exactly for a WRITE longer than an int32_t can say, and for a READ whose reply is.
  lemma OverrunsIff(c: Call, available: nat)
    requires WellFormed(c)
    ensures TurnOn(c, available).Overruns?
            <==> available >= 28 && ((c.cmd.Write? && c.len > 0x7FFF_FFFF) || (c.cmd.Read? && c.len + 16 > 0x7FFF_FFFF))
  {
  }

  datatype Fetch = Got(request: DaemonRequest) | Nothing(why: Turn)

  // The stream holds this request, or the beginning of it.
  method NbdGetRequest(nbd: Socket, ghost c: Call, ghost rest: seq<byte>) returns (fetch: Fetch)
    requires WellFormed(c) && nbd.input <= HeaderOfCall(c) + (c.data + rest)
    modifies nbd`input, nbd`history
    ensures fetch.Got? <==> TurnOn(c, |old(nbd.input)|).Answers? || (c.cmd.Read? && TurnOn(c, |old(nbd.input)|).Overruns?)
    ensures fetch.Nothing? ==> fetch.why == TurnOn(c, |old(nbd.input)|)
    ensures fetch.Got? ==>
              var request := fetch.request;
              && fresh(request) && fresh(request.data) && request.data.Length == request.len
              && request.cmd == c.cmd && request.from == c.from && request.len == c.len && request.reply == ReplyHeader(c.handle)
              && (c.cmd.Write? ==> request.data[..] == c.data)
              && nbd.input == old(nbd.input)[REQUEST + |c.data|..] && nbd.input <= rest
  {
    hide HeaderOfCall, ReplyHeader, MagicIn, TypeIn, HandleIn, FromIn, LenIn;
    ghost var stream := nbd.input;
    var header := new byte[REQUEST];
    var spins := ReadData(nbd, header, REQUEST);
    if spins {
      return Nothing(Spins);
    }
    CutHeader(stream, c, rest);
    FieldsComeBack(c);
    CommandComesBack(c.cmd);
    var request := new DaemonRequest(CommandOf(TypeIn(header[..])), FromIn(header[..]), LenIn(header[..]), ReplyHeader(HandleIn(header[..])));
    if request.cmd.Write? {
      if !Countable(request.cmd, request.len) {
        return Nothing(Overruns);
      }
      spins := ReadData(nbd, request.data, request.len);
      if spins {
        return Nothing(Spins);
      }
    }
    CutData(stream, c, rest);
    fetch := Got(request);
  }

  lemma CutHeader(input: seq<byte>, c: Call, rest: seq<byte>)
    requires WellFormed(c) && |input| >= REQUEST && input <= HeaderOfCall(c) + (c.data + rest)
    ensures input[..REQUEST] == HeaderOfCall(c) && input[REQUEST..] <= c.data + rest
  {
    hide HeaderOfCall;
    var all := HeaderOfCall(c) + (c.data + rest);
    assert input == all[..|input|];
    assert input[..REQUEST] == all[..REQUEST] && input[REQUEST..] == all[REQUEST..|input|] == (c.data + rest)[..|input| - REQUEST];
  }

  lemma CutData(input: seq<byte>, c: Call, rest: seq<byte>)
    requires WellFormed(c) && |input| >= REQUEST + |c.data| && input <= HeaderOfCall(c) + (c.data + rest)
    ensures input[REQUEST..][..|c.data|] == c.data
    ensures input[REQUEST..][|c.data|..] == input[REQUEST + |c.data|..] <= rest
  {
    hide HeaderOfCall;
    CutHeader(input, c, rest);
    var tail, all := input[REQUEST..], c.data + rest;
    assert tail == all[..|tail|];
    assert tail[..|c.data|] == all[..|c.data|] && tail[|c.data|..] == rest[..|tail| - |c.data|];
  }

  method NbdRequestDone(nbd: Socket, request: DaemonRequest) returns (overruns: bool)
    modifies nbd`output
    ensures overruns <==> request.cmd.Read? && !Countable(request.cmd, request.len)
    ensures nbd.output == old(nbd.output) + if overruns then [] else request.reply + if request.cmd.Read? then request.data[..] else []
  {
    overruns := request.cmd.Read? && !Countable(request.cmd, request.len);
    if !overruns {
      WriteAll(nbd, request.reply + if request.cmd.Read? then request.data[..] else []);
    }
  }

  // The body of buse_test.c's loop. It answers a disconnect like any other request.
  method ServeRequest(nbd: Socket, buffer: array<byte>, ghost c: Call, ghost rest: seq<byte>) returns (turn: Turn)
    requires WellFormed(c) && Fits(View(c), buffer.Length)
    requires nbd.input <= HeaderOfCall(c) + (c.data + rest)
    modifies nbd, buffer
    ensures turn == TurnOn(c, |old(nbd.input)|)
    ensures turn.Answers? ==>
              && nbd.input == old(nbd.input)[REQUEST + |c.data|..] && nbd.input <= rest
              && buffer[..] == Effect(old(buffer[..]), View(c))
              && nbd.output == old(nbd.output) + (ReplyHeader(c.handle) + Answer(old(buffer[..]), View(c)))
    ensures !turn.Answers? ==> buffer[..] == old(buffer[..]) && nbd.output == old(nbd.output)
  {
    hide HeaderOfCall, ReplyHeader, Splice;
    var fetch := NbdGetRequest(nbd, c, rest);
    if fetch.Nothing? {
      return fetch.why;
    }
    var request := fetch.request;
    match request.cmd {
      case Read =>
        Copy(request.data, 0, buffer[request.from..request.from + request.len]);
        WholeSplice(buffer[request.from..request.from + request.len]);
      case Write =>
        Copy(buffer, request.from, request.data[..]);
      case _ =>
    }
    var overruns := NbdRequestDone(nbd, request);
    turn := if overruns then Overruns else Answers;
  }

  // How many of the calls the loop answers when so many bytes ever come.
  function HowMany(calls: seq<Call>, available: nat): (n: nat)
    ensures n <= |calls|
    decreases |calls|
  {
    if calls == [] || !TurnOn(calls[0], available).Answers? then 0 else 1 + HowMany(calls[1..], available - REQUEST - |calls[0].data|)
  }

  // All of them, exactly when all of them come and can be counted.
  lemma {:induction false} AllAnsweredIff(calls: seq<Call>, available: nat)
    requires AllWellFormed(calls) && available <= |CallStream(calls)|
    ensures HowMany(calls, available) == |calls|
            <==> available == |CallStream(calls)| && forall i :: 0 <= i < |calls| ==> Countable(calls[i].cmd, calls[i].len)
    decreases |calls|
  {
    hide HeaderOfCall;
    if calls != [] {
      assert WellFormed(calls[0]);
      StreamSize(calls);
      if TurnOn(calls[0], available).Answers? {
        AllAnsweredIff(calls[1..], available - REQUEST - |calls[0].data|);
        assert forall i :: 0 < i < |calls| ==> calls[i] == calls[1..][i - 1];
      }
    }
  }

  lemma StreamSize(calls: seq<Call>)
    requires AllWellFormed(calls) && calls != []
    ensures |CallStream(calls)| == REQUEST + |calls[0].data| + |CallStream(calls[1..])|
  {
    hide HeaderOfCall;
    assert WellFormed(calls[0]);
    assert |HeaderOfCall(calls[0])| == REQUEST;
  }

  // One more turn, in the number of calls answered and in the bytes they took.
  lemma TurnCounts(calls: seq<Call>, k: nat, available: nat)
    requires AllWellFormed(calls) && k < |calls|
    ensures var turn := TurnOn(calls[k], available);
            && (turn.Answers? ==> available >= REQUEST + |calls[k].data|
                                  && HowMany(calls[k..], available) == 1 + HowMany(calls[k + 1..], available - REQUEST - |calls[k].data|))
            && (!turn.Answers? ==> HowMany(calls[k..], available) == 0)
    ensures |CallStream(calls[..k + 1])| == |CallStream(calls[..k])| + REQUEST + |calls[k].data|
  {
    hide HeaderOfCall;
    assert calls[k..][0] == calls[k] && calls[k..][1..] == calls[k + 1..];
    assert calls[..k + 1] == calls[..k] + [calls[k]];
    StreamGrows(calls[..k], calls[k]);
  }

  lemma NothingCounts(calls: seq<Call>, k: nat)
    requires k <= |calls|
    ensures HowMany(calls[k..], 0) == 0
    ensures k < |calls| ==> TurnOn(calls[k], 0) == Spins
  {
  }

  // The loop of buse_test.c on a stream of calls that may end anywhere.
  method ServeBuse(nbd: Socket, buffer: array<byte>, ghost calls: seq<Call>) returns (turn: Turn, ghost served: nat)
    requires Servable(calls, buffer.Length) && nbd.input <= CallStream(calls)
    modifies nbd, buffer
    ensures served == HowMany(calls, |old(nbd.input)|)
    ensures buffer[..] == DiskAfter(old(buffer[..]), calls, served)
    ensures nbd.output == old(nbd.output) + SentAfter(old(buffer[..]), calls, served)
    ensures |CallStream(calls[..served])| <= |old(nbd.input)|
    ensures turn == if served < |calls| then TurnOn(calls[served], |old(nbd.input)| - |CallStream(calls[..served])|) else Spins
  {
    hide HeaderOfCall, ReplyHeader, Splice, DiskAfter, SentAfter, CallStream, View, Effect, Answer, Servable, TurnOn, HowMany;
    EachServable(calls, buffer.Length);
    ghost var start, sent := buffer[..], nbd.output;
    served := 0;
    NoCallYet(start, calls);
    assert calls[0..] == calls;
    StreamOfNone();
    while true
      invariant served <= |calls| && nbd.input <= CallStream(calls[served..])
      invariant HowMany(calls, |old(nbd.input)|) == served + HowMany(calls[served..], |nbd.input|)
      invariant |old(nbd.input)| == |CallStream(calls[..served])| + |nbd.input|
      invariant buffer[..] == DiskAfter(start, calls, served)
      invariant nbd.output == sent + SentAfter(start, calls, served)
      decreases |calls| - served
    {
      NextCall(calls, served);
      if nbd.input == [] {
        NothingCounts(calls, served);
        return Spins, served;
      }
      OneMoreCall(start, calls, served);
      TurnCounts(calls, served, |nbd.input|);
      turn := ServeRequest(nbd, buffer, calls[served], CallStream(calls[served + 1..]));
      if !turn.Answers? {
        return turn, served;
      }
      served := served + 1;
    }
  }
}
