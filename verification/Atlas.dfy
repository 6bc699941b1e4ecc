// The protocol between the daemon and the IoT servers: headers, frames, and what a server does with one frame.
module Atlas {
  import opened Bytes
  import opened FlatDisk
  import opened Striping

  // AtlasHeader: six uint32_t fields.
  datatype Header = Header(uid: u32, frag: u32, alarm: u32, offset: u32, kind: u32, dataLen: u32)

  datatype Frame = Frame(hdr: Header, data: seq<byte>)

  const READ: u32 := 0
  const WRITE: u32 := 1

  function Kind(cmd: Command): u32 {
    match cmd
    case Read => READ
    case Write => WRITE
    case Disc => 2
    case Flush => 3
    case Trim => 4
  }

  function Fragments(r: Request): nat {
    r.len / FRAGMENT
  }

  // The flat block that fragment k of the request carries.
  function BlockNo(r: Request, k: nat): nat {
    r.from / FRAGMENT + k
  }

  // The header the slicer fills in for fragment k.
  function HeaderOf(r: Request, uid: u32, k: nat, n: nat): Header
    requires n > 0
  {
    Header(uid, U32(k), 0, U32(Offset(BlockNo(r, k), n)), Kind(r.cmd), FRAGMENT)
  }

  // One turn of a server's loop. Fault: the C code would run over its storage.
  datatype Served = Served(storage: seq<byte>, reply: seq<Frame>) | Fault

  function ServeFrame(storage: seq<byte>, f: Frame): (r: Served)
    ensures r.Served? ==> |r.storage| == |storage|
  {
    var at, len := f.hdr.offset, f.hdr.dataLen;
    if f.hdr.kind == READ then
      if at + len <= |storage| then Served(storage, [Frame(f.hdr, storage[at..at + len])]) else Fault
    else if f.hdr.kind == WRITE then
      if at + len <= |storage| && |f.data| == len then Served(Splice(storage, at, f.data), [Frame(f.hdr, [])]) else Fault
    else
      Served(storage, [])
  }

  // Byte by byte: a READ (type 0) is answered with what is stored, a WRITE (type 1) stores its data and is acknowledged, any
  // other type is ignored; and only a READ or WRITE beyond the storage runs over it.
  lemma WhatAServerDoes(storage: seq<byte>, f: Frame)
    requires f.hdr.kind == 1 ==> |f.data| == f.hdr.dataLen
    ensures var at, len, served := f.hdr.offset, f.hdr.dataLen, ServeFrame(storage, f);
            && (served.Fault? <==> f.hdr.kind <= 1 && at + len > |storage|)
            && (served.Served? && f.hdr.kind == 0 ==>
                  served.storage == storage && |served.reply| == 1 && served.reply[0].hdr == f.hdr && |served.reply[0].data| == len
                  && forall j :: 0 <= j < len ==> served.reply[0].data[j] == storage[at + j])
            && (served.Served? && f.hdr.kind == 1 ==>
                  served.reply == [Frame(f.hdr, [])] && |served.storage| == |storage|
                  && forall j :: 0 <= j < |storage| ==> served.storage[j] == if at <= j < at + len then f.data[j - at] else storage[j])
            && (served.Served? && f.hdr.kind > 1 ==> served == Served(storage, []))
  {
    var at, len := f.hdr.offset, f.hdr.dataLen;
    if f.hdr.kind == 1 && at + len <= |storage| {
      var now := Splice(storage, at, f.data);
      assert forall j :: at <= j < at + len ==> now[j] == now[at..at + len][j - at];
    }
  }
}
