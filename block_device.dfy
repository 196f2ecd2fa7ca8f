/** The RAM-backed block device of the armv7m-mpu-littlefs example: a fixed
    byte array with bounds-checked block reads and writes. */
module BlockDevice {
  import opened Common

  const BdSize: nat := 0x4000
  const BdBlockSize: nat := 512
  /** The `EINVAL` error code of the box runtime's error enum. */
  const EINVAL: int := 22

  type byte = x: int | 0 <= x < 256

  /** `bd_block_count` */
  function BlockCount(): (r: uint32)
    ensures r * BdBlockSize == BdSize
  {
    BdSize / BdBlockSize
  }

  /** `bd_block_size` */
  function BlockSize(): (r: uint32)
    ensures r == BdBlockSize && BlockCount() * r == BdSize
  {
    BdBlockSize
  }

  /** The first byte of (block, off) in the array. */
  function Start(block: uint32, off: uint32): nat {
    block * BdBlockSize + off
  }

  //// the bounds check ////

  /** The bounds check as the C code computes it: the sum is formed in
      32-bit unsigned arithmetic, so it wraps before the comparison. */
  predicate InRangeAsWritten(block: uint32, off: uint32, size: uint32) {
    WrapU32(WrapU32(WrapU32(block * BdBlockSize) + off) + size) <= BdSize
  }

  /** The bounds check as intended: the range lies inside the array. */
  predicate InRange(block: uint32, off: uint32, size: uint32) {
    Start(block, off) + size <= BdSize
  }

  /** The wrapped check lets through a one-byte access starting at offset
      0xFFFFFFFF, and the copy would then touch byte 0xFFFFFFFF of a
      0x4000-byte array. */
  lemma AsWrittenAdmitsOutOfBounds()
    ensures InRangeAsWritten(0, 0xFFFF_FFFF, 1)
    ensures !InRange(0, 0xFFFF_FFFF, 1)
    ensures WrapU32(0 * BdBlockSize + 0xFFFF_FFFF) >= BdSize
  {
    assert WrapU32(WrapU32(WrapU32(0) + 0xFFFF_FFFF) + 1) == 0;
  }

  /** Every byte a range that passes the corrected check covers is a byte
      of the array. */
  lemma InRangeInBounds(block: uint32, off: uint32, size: uint32, i: nat)
    requires InRange(block, off, size) && i < size
    ensures Start(block, off) + i < BdSize
  {
  }

  /** The two checks agree whenever the sum does not wrap, which is every
      call the C code gets right; the corrected one never admits more. */
  lemma ChecksAgreeWithoutWrap(block: uint32, off: uint32, size: uint32)
    ensures InRange(block, off, size) ==> InRangeAsWritten(block, off, size)
    ensures Start(block, off) + size < TwoTo32 ==>
      (InRangeAsWritten(block, off, size) <==> InRange(block, off, size))
  {
    var b := block * BdBlockSize;
    if Start(block, off) + size < TwoTo32 {
      assert WrapU32(b) == b;
      assert WrapU32(b + off) == b + off;
      assert WrapU32(b + off + size) == b + off + size;
    }
  }

  //// contents ////

  /** `contents` with `data` copied in at `at`. */
  function WriteAt(contents: seq<byte>, at: nat, data: seq<byte>): (r: seq<byte>)
    requires at + |data| <= |contents|
    ensures |r| == |contents|
    ensures r[at..at + |data|] == data
    ensures forall i :: 0 <= i < |r| && !(at <= i < at + |data|) ==> r[i] == contents[i]
  {
    contents[..at] + data + contents[at + |data|..]
  }

  /** What `bd_read` hands back: the bytes of the range, or nothing when
      the range fails the check. */
  function ReadSpec(contents: seq<byte>, block: uint32, off: uint32, size: uint32): Option<seq<byte>>
    requires |contents| == BdSize
  {
    if InRange(block, off, size) then Some(contents[Start(block, off)..Start(block, off) + size]) else None
  }

  /** What `bd_prog` leaves in the array: `data` at the range, or the old
      contents when the range fails the check. */
  function ProgSpec(contents: seq<byte>, block: uint32, off: uint32, data: seq<byte>): seq<byte>
    requires |contents| == BdSize && |data| < TwoTo32
  {
    if InRange(block, off, |data|) then WriteAt(contents, Start(block, off), data) else contents
  }

  /** Reading back a range just programmed returns the bytes written. */
  lemma ReadAfterProg(contents: seq<byte>, block: uint32, off: uint32, data: seq<byte>)
    requires |contents| == BdSize && |data| < TwoTo32 && InRange(block, off, |data|)
    ensures |ProgSpec(contents, block, off, data)| == BdSize
    ensures ReadSpec(ProgSpec(contents, block, off, data), block, off, |data|) == Some(data)
  {
  }

  /** Programming one range leaves every disjoint range as it was. */
  lemma ProgLeavesOthers(contents: seq<byte>, block: uint32, off: uint32, data: seq<byte>,
                         block2: uint32, off2: uint32, size2: uint32)
    requires |contents| == BdSize && |data| < TwoTo32
    requires Start(block, off) + |data| <= Start(block2, off2) || Start(block2, off2) + size2 <= Start(block, off)
    ensures |ProgSpec(contents, block, off, data)| == BdSize
    ensures ReadSpec(ProgSpec(contents, block, off, data), block2, off2, size2) == ReadSpec(contents, block2, off2, size2)
  {
    var after := ProgSpec(contents, block, off, data);
    if InRange(block2, off2, size2) {
      var s := Start(block2, off2);
      assert after[s..s + size2] == contents[s..s + size2] by {
        forall i | s <= i < s + size2 ensures after[i] == contents[i] { }
      }
    }
  }

  /** The device: `uint8_t bd[BD_SIZE]`. */
  class Device {
    const bd: array<byte>

    ghost predicate Valid()
      reads this
    {
      bd.Length == BdSize
    }

    /** Static storage starts zeroed. */
    constructor ()
      ensures Valid() && fresh(bd)
      ensures forall i :: 0 <= i < bd.Length ==> bd[i] == 0
    {
      bd := new byte[BdSize](_ => 0);
    }

    /** `bd_read`: copy the range into `buffer`, or fail with -EINVAL and
        leave it untouched. */
    method Read(block: uint32, off: uint32, buffer: array<byte>, size: uint32) returns (err: int)
      requires Valid() && buffer != bd
      requires InRange(block, off, size) ==> size <= buffer.Length
      modifies buffer
      ensures ReadSpec(bd[..], block, off, size).None? ==> err == -EINVAL && buffer[..] == old(buffer[..])
      ensures ReadSpec(bd[..], block, off, size).Some? ==>
        && err == 0
        && buffer[..size] == ReadSpec(bd[..], block, off, size).value
        && buffer[size..] == old(buffer[size..])
    {
      if !InRange(block, off, size) {
        return -EINVAL;
      }
      var start := Start(block, off);
      forall i | 0 <= i < size {
        buffer[i] := bd[start + i];
      }
      assert bd[..][start..start + size] == bd[start..start + size];
      return 0;
    }

    /** `bd_prog`: copy `buffer` into the range, or fail with -EINVAL and
        leave the device unchanged. */
    method Prog(block: uint32, off: uint32, buffer: array<byte>, size: uint32) returns (err: int)
      requires Valid() && buffer != bd
      requires InRange(block, off, size) ==> size <= buffer.Length
      modifies bd
      ensures !InRange(block, off, size) ==> err == -EINVAL && bd[..] == old(bd[..])
      ensures InRange(block, off, size) ==> err == 0 && bd[..] == ProgSpec(old(bd[..]), block, off, buffer[..size])
    {
      if !InRange(block, off, size) {
        return -EINVAL;
      }
      var start := Start(block, off);
      forall i | 0 <= i < size {
        bd[start + i] := buffer[i];
      }
      assert bd[..] == WriteAt(old(bd[..]), start, buffer[..size]);
      return 0;
    }

    /** `bd_erase`: a no-op on RAM. */
    method Erase(block: uint32) returns (err: int)
      ensures err == 0
    {
      return 0;
    }

    /** `bd_sync`: a no-op on RAM. */
    method Sync() returns (err: int)
      ensures err == 0
    {
      return 0;
    }

    /** `bd_eraseall`: zero every byte. */
    method EraseAll() returns (err: int)
      requires Valid()
      modifies bd
      ensures err == 0
      ensures forall i :: 0 <= i < bd.Length ==> bd[i] == 0
    {
      forall i | 0 <= i < bd.Length {
        bd[i] := 0;
      }
      return 0;
    }
  }

  /** Programming then reading the same range on a device returns the
      programmed bytes. */
  method ProgThenRead(d: Device, block: uint32, off: uint32, data: array<byte>, size: uint32,
                      out: array<byte>)
    returns (e1: int, e2: int)
    requires d.Valid() && data != d.bd && out != d.bd && out != data
    requires InRange(block, off, size) && size <= data.Length && size <= out.Length
    modifies d.bd, out
    ensures e1 == 0 && e2 == 0
    ensures out[..size] == data[..size]
  {
    e1 := d.Prog(block, off, data, size);
    e2 := d.Read(block, off, out, size);
    ReadAfterProg(old(d.bd[..]), block, off, data[..size]);
  }
}
