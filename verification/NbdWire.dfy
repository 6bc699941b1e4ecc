// The NBD requests and simple replies of the kernel, and how the C code takes their fields out of memory.
module NbdWire {
  import opened Bytes
  import opened FlatDisk
  import opened Wire
  import opened Atlas

  type u64 = x: int | 0 <= x < 0x1_0000_0000_0000_0000

  const REQUEST: nat := 28
  const REPLY: nat := 16
  const REQUEST_MAGIC: u32 := 0x25609513
  const REPLY_MAGIC: u32 := 0x67446698

  function Reverse(b: seq<byte>): (r: seq<byte>)
    ensures |r| == |b| && forall i :: 0 <= i < |b| ==> r[i] == b[|b| - 1 - i]
  {
    if b == [] then [] else [b[|b| - 1]] + Reverse(b[..|b| - 1])
  }

  // ntohl and htonl on a little-endian machine.
  function Ntohl(x: u32): u32 {
    Value(Reverse(Word(x)))
  }

  // ntohll of buse.c: swap the halves and the bytes in them.
  function Ntohll(a: u64): u64 {
    var lo, hi := Ntohl(a % 0x1_0000_0000), Ntohl(a / 0x1_0000_0000);
    lo * 0x1_0000_0000 + hi
  }

  // A u_int64_t in memory.
  function Word64(a: u64): (w: seq<byte>)
    ensures |w| == 8
  {
    Word(a % 0x1_0000_0000) + Word(a / 0x1_0000_0000)
  }

  function Value64(w: seq<byte>): u64
    requires |w| == 8
  {
    var lo, hi := Value(w[..4]), Value(w[4..]);
    lo + hi * 0x1_0000_0000
  }

  lemma Word64RoundTrip(a: u64)
    ensures Value64(Word64(a)) == a
  {
    var w := Word64(a);
    assert w[..4] == Word(a % 0x1_0000_0000) && w[4..] == Word(a / 0x1_0000_0000);
    WordRoundTrip(a % 0x1_0000_0000);
    WordRoundTrip(a / 0x1_0000_0000);
  }

  lemma NtohlReverses(x: u32)
    ensures Word(Ntohl(x)) == Reverse(Word(x)) && Ntohl(Ntohl(x)) == x
  {
    ValueRoundTrip(Reverse(Word(x)));
    assert Reverse(Reverse(Word(x))) == Word(x);
    WordRoundTrip(x);
  }

  lemma Halves(hi: u32, lo: u32)
    ensures (lo + hi * 0x1_0000_0000) % 0x1_0000_0000 == lo && (lo + hi * 0x1_0000_0000) / 0x1_0000_0000 == hi
  {
  }

  // ntohll is a full reversal of the eight bytes, and its own inverse.
  lemma NtohllReverses(a: u64)
    ensures Word64(Ntohll(a)) == Reverse(Word64(a))
    ensures Ntohll(Ntohll(a)) == a
  {
    hide Ntohl, Word;
    var lo, hi := a % 0x1_0000_0000, a / 0x1_0000_0000;
    NtohlReverses(lo);
    NtohlReverses(hi);
    Halves(Ntohl(lo), Ntohl(hi));
    assert Word64(Ntohll(a)) == Reverse(Word(hi)) + Reverse(Word(lo));
    assert Reverse(Word(hi)) + Reverse(Word(lo)) == Reverse(Word(lo) + Word(hi));
  }

  // What the kernel sends: the fields in network byte order, most significant byte first.
  datatype Call = Call(cmd: Command, handle: seq<byte>, from: u64, len: u32, data: seq<byte>)

  predicate WellFormed(c: Call) {
    |c.handle| == 8 && |c.data| == if c.cmd.Write? then c.len else 0
  }

  function Network(x: u32): (w: seq<byte>)
    ensures |w| == 4
  {
    Reverse(Word(x))
  }

  function HeaderOfCall(c: Call): (b: seq<byte>)
    requires WellFormed(c)
    ensures |b| == REQUEST
  {
    Network(REQUEST_MAGIC) + Network(Kind(c.cmd)) + c.handle + Reverse(Word64(c.from)) + Network(c.len)
  }

  // The simple reply message: magic, error 0, the handle of the request.
  function ReplyHeader(handle: seq<byte>): (b: seq<byte>)
    requires |handle| == 8
    ensures |b| == REPLY
  {
    Network(REPLY_MAGIC) + Network(0) + handle
  }

  // The bytes on the wire, most significant first.
  lemma NetworkBytes(x: u32)
    ensures var w := Network(x); x == 0x100_0000 * (w[0] as int) + 0x1_0000 * (w[1] as int) + 0x100 * (w[2] as int) + (w[3] as int)
  {
    hide Word;
    WordBytes(x);
  }

  lemma NetworkBytes64(a: u64)
    ensures var w := Reverse(Word64(a));
            a == 0x100_0000_0000_0000 * (w[0] as int) + 0x1_0000_0000_0000 * (w[1] as int) + 0x100_0000_0000 * (w[2] as int) + 0x1_0000_0000 * (w[3] as int)
                 + 0x100_0000 * (w[4] as int) + 0x1_0000 * (w[5] as int) + 0x100 * (w[6] as int) + (w[7] as int)
  {
    hide Word;
    WordBytes(a % 0x1_0000_0000);
    WordBytes(a / 0x1_0000_0000);
    assert a == a / 0x1_0000_0000 * 0x1_0000_0000 + a % 0x1_0000_0000;
  }

  // struct nbd_request, as linux/nbd.h fixes it: magic, type, handle, from, len.
  lemma RequestLayout(c: Call)
    requires WellFormed(c)
    ensures var b := HeaderOfCall(c);
            && b[0..8] == [0x25, 0x60, 0x95, 0x13, 0, 0, 0, CommandNumber(c.cmd)] && b[8..16] == c.handle
            && c.from == 0x100_0000_0000_0000 * (b[16] as int) + 0x1_0000_0000_0000 * (b[17] as int) + 0x100_0000_0000 * (b[18] as int) + 0x1_0000_0000 * (b[19] as int)
                         + 0x100_0000 * (b[20] as int) + 0x1_0000 * (b[21] as int) + 0x100 * (b[22] as int) + (b[23] as int)
            && c.len == 0x100_0000 * (b[24] as int) + 0x1_0000 * (b[25] as int) + 0x100 * (b[26] as int) + (b[27] as int)
  {
    hide Network, Reverse, Word64;
    var b := HeaderOfCall(c);
    NetworkBytes(REQUEST_MAGIC);
    NetworkBytes(Kind(c.cmd));
    NetworkBytes(c.len);
    NetworkBytes64(c.from);
    assert Kind(c.cmd) == CommandNumber(c.cmd);
    assert b[0..4] == Network(REQUEST_MAGIC) && b[4..8] == Network(Kind(c.cmd));
    assert b[16..24] == Reverse(Word64(c.from)) && b[24..28] == Network(c.len);
    assert b[0..8] == b[0..4] + b[4..8];
  }

  // NBD_CMD_READ, WRITE, DISC, FLUSH, TRIM
  function CommandNumber(cmd: Command): byte {
    if cmd == Read then 0 else if cmd == Write then 1 else if cmd == Disc then 2 else if cmd == Flush then 3 else 4
  }

  // struct nbd_reply: magic, error 0, handle.
  lemma ReplyLayout(handle: seq<byte>)
    requires |handle| == 8
    ensures ReplyHeader(handle) == [0x67, 0x44, 0x66, 0x98, 0, 0, 0, 0] + handle
  {
    hide Network;
    NetworkBytes(REPLY_MAGIC);
    NetworkBytes(0);
  }

  // The fields as the C code sees them.
  function MagicIn(b: seq<byte>): u32 requires |b| == REQUEST { Ntohl(Value(b[0..4])) }
  function TypeIn(b: seq<byte>): u32 requires |b| == REQUEST { Ntohl(Value(b[4..8])) }
  function HandleIn(b: seq<byte>): seq<byte> requires |b| == REQUEST { b[8..16] }
  function FromIn(b: seq<byte>): u64 requires |b| == REQUEST { Ntohll(Value64(b[16..24])) }
  function LenIn(b: seq<byte>): u32 requires |b| == REQUEST { Ntohl(Value(b[24..28])) }

  lemma NetworkField(x: u32)
    ensures Ntohl(Value(Network(x))) == x
  {
    NtohlReverses(x);
    ValueRoundTrip(Network(x));
    WordRoundTrip(Ntohl(x));
  }

  lemma NetworkField64(a: u64)
    ensures Ntohll(Value64(Reverse(Word64(a)))) == a
  {
    NtohllReverses(a);
    Word64RoundTrip(Ntohll(a));
  }

  // The daemon takes out exactly the fields the kernel put in.
  lemma FieldsComeBack(c: Call)
    requires WellFormed(c)
    ensures var b := HeaderOfCall(c);
            MagicIn(b) == REQUEST_MAGIC && TypeIn(b) == Kind(c.cmd) && HandleIn(b) == c.handle && FromIn(b) == c.from && LenIn(b) == c.len
  {
    hide Ntohl, Ntohll, Value, Value64, Word, Word64, Network, Reverse;
    var b := HeaderOfCall(c);
    assert b[0..4] == Network(REQUEST_MAGIC) && b[4..8] == Network(Kind(c.cmd)) && b[8..16] == c.handle;
    assert b[16..24] == Reverse(Word64(c.from)) && b[24..28] == Network(c.len);
    NetworkField(REQUEST_MAGIC);
    NetworkField(Kind(c.cmd));
    NetworkField(c.len);
    NetworkField64(c.from);
  }

  function CommandOf(kind: u32): Command
    requires kind < 5
  {
    match kind
    case 0 => Read
    case 1 => Write
    case 2 => Disc
    case 3 => Flush
    case _ => Trim
  }

  lemma CommandComesBack(cmd: Command)
    ensures Kind(cmd) < 5 && CommandOf(Kind(cmd)) == cmd
  {
  }
}
