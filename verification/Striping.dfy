// Where the slicer puts the flat device: 1 KiB blocks dealt round-robin over n IoT servers.
module Striping {
  import opened Bytes

  // What every IoT server callocs, and the size the daemon opens the device with.
  const CAPACITY: nat := 512 * 1024 * 1024

  function Device(block: nat, n: nat): (d: nat)
    requires n > 0
    ensures d < n
  {
    block % n
  }

  function Offset(block: nat, n: nat): nat
    requires n > 0
  {
    block / n * FRAGMENT
  }

  // The inverse of striping.
  function BlockOf(device: nat, offset: nat, n: nat): nat {
    offset / FRAGMENT * n + device
  }

  function CeilDiv(a: nat, n: nat): nat
    requires n > 0
  {
    (a + n - 1) / n
  }

  lemma TimesKeepsOrder(a: int, b: int, n: nat)
    ensures a <= b ==> a * n <= b * n
  {
    if a <= b {
      assert (b - a) * n >= 0;
    }
  }

  lemma DivMod(q: nat, r: nat, n: nat)
    requires r < n
    ensures (q * n + r) / n == q && (q * n + r) % n == r
  {
    var x := q * n + r;
    assert x == x / n * n + x % n;
    TimesKeepsOrder(x / n + 1, q, n);
    TimesKeepsOrder(q + 1, x / n, n);
  }

  lemma DivMonotone(a: nat, b: nat, n: nat)
    requires n > 0 && a <= b
    ensures a / n <= b / n
  {
    assert b == b / n * n + b % n && a == a / n * n + a % n;
    TimesKeepsOrder(b / n + 1, a / n, n);
  }

  // Striping loses no block and never puts two of them in one place.
  lemma StripingIsInvertible(block: nat, n: nat)
    requires n > 0
    ensures BlockOf(Device(block, n), Offset(block, n), n) == block
  {
    assert Offset(block, n) / FRAGMENT == block / n;
    assert block == block / n * n + block % n;
  }

  // ... and every whole fragment of every device is the place of some block.
  lemma StripingIsOnto(device: nat, offset: nat, n: nat)
    requires device < n && offset % FRAGMENT == 0
    ensures Device(BlockOf(device, offset, n), n) == device
    ensures Offset(BlockOf(device, offset, n), n) == offset
  {
    DivMod(offset / FRAGMENT, device, n);
  }

  // Fragments meet on a device, that is, share a byte of its storage, exactly when they carry the same flat block.
  lemma FragmentsMeet(a: nat, b: nat, n: nat)
    requires n > 0
    ensures (Device(a, n) == Device(b, n) && Offset(a, n) < Offset(b, n) + FRAGMENT && Offset(b, n) < Offset(a, n) + FRAGMENT)
            <==> a == b
  {
    if Device(a, n) == Device(b, n) && Offset(a, n) < Offset(b, n) + FRAGMENT && Offset(b, n) < Offset(a, n) + FRAGMENT {
      assert a / n == b / n;
      StripingIsInvertible(a, n);
      StripingIsInvertible(b, n);
    }
  }

  // A device holds at most ceil(blocks / n) fragments of a flat device of that many blocks, and device 0 holds
  // exactly that many; so a device the daemon can open fits the storage and the 32-bit offset field.
  lemma Footprint(blocks: nat, block: nat, n: nat)
    requires n > 0 && block < blocks
    ensures Offset(block, n) + FRAGMENT <= CeilDiv(blocks, n) * FRAGMENT
    ensures exists top: nat :: top < blocks && Device(top, n) == 0 && Offset(top, n) + FRAGMENT == CeilDiv(blocks, n) * FRAGMENT
    ensures blocks * FRAGMENT <= CAPACITY ==> CeilDiv(blocks, n) * FRAGMENT <= CAPACITY
    ensures blocks * FRAGMENT <= CAPACITY ==> U32(Offset(block, n)) == Offset(block, n)
  {
    var last := (blocks - 1) / n;
    CeilIsLastRow(blocks, n);
    DivMonotone(block, blocks - 1, n);
    LastRow(blocks, n);
    var top := last * n;
    assert Device(top, n) == 0 && Offset(top, n) == last * FRAGMENT;
  }

  lemma LastRow(blocks: nat, n: nat)
    requires n > 0 && blocks > 0
    ensures var last := (blocks - 1) / n; last <= last * n < blocks && last * n / n == last && last * n % n == 0
  {
    var last := (blocks - 1) / n;
    DivMod(last, 0, n);
    assert blocks - 1 == last * n + (blocks - 1) % n;
    TimesKeepsOrder(1, n, last);
  }

  lemma CeilIsLastRow(blocks: nat, n: nat)
    requires n > 0 && blocks > 0
    ensures CeilDiv(blocks, n) == (blocks - 1) / n + 1
  {
    var q, r := (blocks - 1) / n, (blocks - 1) % n;
    assert blocks - 1 == q * n + r;
    assert blocks + n - 1 == (q + 1) * n + r;
    DivMod(q + 1, r, n);
  }

  // One turn of the slicer's loop: the device index wraps exactly when the next row begins.
  lemma NextBlock(block: nat, n: nat)
    requires n > 0
    ensures Device(block + 1, n) == (Device(block, n) + 1) % n
    ensures Offset(block + 1, n) == Offset(block, n) + if (Device(block, n) + 1) % n == 0 then FRAGMENT else 0
  {
    var q, r := block / n, block % n;
    assert block + 1 == q * n + (r + 1);
    if r + 1 < n {
      DivMod(q, r + 1, n);
      DivMod(0, r + 1, n);
    } else {
      assert block + 1 == (q + 1) * n + 0;
      DivMod(q + 1, 0, n);
      DivMod(1, 0, n);
    }
  }

  // Byte x of the flat device is in the block of fragment k of the request.
  predicate CarriedBy(from: nat, len: nat, k: nat, x: int) {
    && k < len / FRAGMENT
    && (from / FRAGMENT + k) * FRAGMENT <= x < (from / FRAGMENT + k + 1) * FRAGMENT
  }

  predicate Carried(from: nat, len: nat, x: int) {
    exists k: nat :: k < len / FRAGMENT && CarriedBy(from, len, k, x)
  }

  lemma CarriedRange(from: nat, len: nat, x: int)
    ensures Carried(from, len, x)
            <==> from / FRAGMENT * FRAGMENT <= x < (from / FRAGMENT + len / FRAGMENT) * FRAGMENT
  {
    if from / FRAGMENT * FRAGMENT <= x < (from / FRAGMENT + len / FRAGMENT) * FRAGMENT {
      var k: nat := x / FRAGMENT - from / FRAGMENT;
      assert CarriedBy(from, len, k, x);
    }
  }

  // The slicer drops the remainders of both divisions, so its fragments carry exactly the bytes of the request if
  // and only if the length is whole and, unless there is nothing to carry, the start is aligned.
  lemma SlicesCoverTheRequest(from: nat, len: nat)
    ensures (forall x: int :: Carried(from, len, x) <==> from <= x < from + len)
            <==> len % FRAGMENT == 0 && (len == 0 || from % FRAGMENT == 0)
  {
    forall x: int ensures Carried(from, len, x)
                          <==> from / FRAGMENT * FRAGMENT <= x < (from / FRAGMENT + len / FRAGMENT) * FRAGMENT
    {
      CarriedRange(from, len, x);
    }
    if len % FRAGMENT == 0 && from % FRAGMENT == 0 {
      assert from / FRAGMENT * FRAGMENT == from;
    } else if len != 0 {
      if from % FRAGMENT != 0 && len / FRAGMENT != 0 {
        assert Carried(from, len, from - 1);
      } else {
        assert !Carried(from, len, from + len - 1);
      }
    }
  }

  // A 1.5 KiB request is the smallest kind of failure: its last 512 bytes are in no fragment.
  lemma ShortTailIsDropped()
    ensures !Carried(0, 1536, 1535)
  {
    CarriedRange(0, 1536, 1535);
  }
}
