// The reference device: one flat buffer that serves block requests one after the other.
module FlatDisk {
  import opened Bytes

  // buse_command_t and NBDCommunication::Command
  datatype Command = Read | Write | Disc | Flush | Trim

  // A request of the kernel. `data` is the buffer allocated with it: what to store for a Write, unspecified bytes
  // otherwise.
  datatype Request = Request(cmd: Command, from: nat, len: nat, data: seq<byte>)

  predicate Fits(r: Request, size: nat) {
    |r.data| == r.len && r.from + r.len <= size
  }

  predicate AllFit(log: seq<Request>, size: nat) {
    forall i :: 0 <= i < |log| ==> Fits(log[i], size)
  }

  function Effect(disk: seq<byte>, r: Request): (after: seq<byte>)
    requires Fits(r, |disk|)
    ensures |after| == |disk|
  {
    if r.cmd.Write? then Splice(disk, r.from, r.data) else disk
  }

  // The bytes that follow the reply header.
  function Answer(disk: seq<byte>, r: Request): seq<byte>
    requires Fits(r, |disk|)
  {
    if r.cmd.Read? then disk[r.from..r.from + r.len] else []
  }

  // The disk once the whole log has been served.
  function After(disk: seq<byte>, log: seq<Request>): (after: seq<byte>)
    requires AllFit(log, |disk|)
    ensures |after| == |disk|
  {
    if log == [] then disk
    else Effect(After(disk, log[..|log| - 1]), log[|log| - 1])
  }

  lemma AfterOneMore(disk: seq<byte>, log: seq<Request>, r: Request)
    requires AllFit(log, |disk|) && Fits(r, |disk|)
    ensures AllFit(log + [r], |disk|)
    ensures After(disk, log + [r]) == Effect(After(disk, log), r)
  {
    assert (log + [r])[..|log|] == log;
  }

  // What the original program answers to request i of the log.
  function Want(disk: seq<byte>, log: seq<Request>, i: nat): (answer: seq<byte>)
    requires AllFit(log, |disk|) && i < |log|
    ensures log[i].cmd.Read? ==> |answer| == log[i].len
  {
    Answer(After(disk, log[..i]), log[i])
  }

  // Request i is the last Write of the log to touch byte j.
  predicate LastWriter(log: seq<Request>, i: nat, j: nat) {
    && i < |log| && Touches(log[i], j)
    && forall later :: i < later < |log| ==> !Touches(log[later], j)
  }

  predicate Touches(r: Request, j: nat) {
    r.cmd.Write? && r.from <= j < r.from + r.len
  }

  lemma EffectOnByte(disk: seq<byte>, r: Request, j: nat)
    requires Fits(r, |disk|) && j < |disk|
    ensures Effect(disk, r)[j] == if Touches(r, j) then r.data[j - r.from] else disk[j]
  {
    if Touches(r, j) {
      var now := Effect(disk, r);
      assert now[j] == now[r.from..r.from + |r.data|][j - r.from];
    }
  }

  lemma LastWriterOfMore(log: seq<Request>, r: Request, i: nat, j: nat)
    ensures Touches(r, j) ==> (LastWriter(log + [r], i, j) <==> i == |log|)
    ensures !Touches(r, j) ==> (LastWriter(log + [r], i, j) <==> LastWriter(log, i, j))
    ensures LastWriter(log, i, j) ==> i < |log| && (log + [r])[i] == log[i]
  {
    var more := log + [r];
    assert more[|log|] == r;
    assert forall k :: 0 <= k < |log| ==> more[k] == log[k];
  }

  // Every byte is the one the last Write to it stored there, or an initial byte that no Write has touched.
  lemma {:induction false} ByteHistory(disk: seq<byte>, log: seq<Request>, j: nat)
    requires AllFit(log, |disk|) && j < |disk|
    ensures forall i: nat :: LastWriter(log, i, j) ==> After(disk, log)[j] == log[i].data[j - log[i].from]
    ensures (forall i: nat :: !LastWriter(log, i, j)) ==> After(disk, log)[j] == disk[j]
    ensures (forall i: nat :: !LastWriter(log, i, j)) ==> forall i :: 0 <= i < |log| ==> !Touches(log[i], j)
  {
    hide Effect;
    if log != [] {
      var before, r := log[..|log| - 1], log[|log| - 1];
      assert log == before + [r];
      ByteHistory(disk, before, j);
      EffectOnByte(After(disk, before), r, j);
      assert log[..|log| - 1] == before;
      var was := After(disk, before);
      assert After(disk, log) == Effect(was, r);
      forall i: nat
        ensures LastWriter(log, i, j) ==> After(disk, log)[j] == log[i].data[j - log[i].from]
        ensures Touches(r, j) ==> (LastWriter(log, i, j) <==> i == |before|)
        ensures !Touches(r, j) ==> (LastWriter(log, i, j) <==> LastWriter(before, i, j))
      {
        LastWriterOfMore(before, r, i, j);
      }
      if Touches(r, j) {
        assert LastWriter(log, |before|, j);
      }
    }
  }

  // The service loop: each request is answered from, or stored into, the one buffer before the next is fetched.
  method ServeAll(buffer: array<byte>, requests: seq<Request>) returns (answers: seq<seq<byte>>)
    requires AllFit(requests, buffer.Length)
    modifies buffer
    ensures buffer[..] == After(old(buffer[..]), requests)
    ensures |answers| == |requests|
    ensures forall i :: 0 <= i < |requests| ==> answers[i] == Want(old(buffer[..]), requests, i)
  {
    answers := [];
    ghost var start := buffer[..];
    for at := 0 to |requests|
      invariant AllFit(requests[..at], buffer.Length)
      invariant buffer[..] == After(start, requests[..at])
      invariant |answers| == at
      invariant forall i :: 0 <= i < at ==> answers[i] == Want(start, requests, i)
    {
      var r := requests[at];
      AfterOneMore(start, requests[..at], r);
      assert requests[..at] + [r] == requests[..at + 1];
      match r.cmd {
        case Read =>
          answers := answers + [buffer[r.from..r.from + r.len]];
        case Write =>
          Copy(buffer, r.from, r.data);
          answers := answers + [[]];
        case _ =>
          answers := answers + [[]];
      }
    }
    assert requests[..|requests|] == requests;
  }
}
