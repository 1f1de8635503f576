/** The growable byte buffer with a read and a write position. */
module BitStream {
  import opened Bytes
  import opened ByteOrder

  /** What reading a length-prefixed text takes from the front of the unread bytes. */
  datatype TextRead = TextRead(count: nat, text: Text, rest: seq<byte>)

  function GetText(bs: seq<byte>): (r: TextRead)
    ensures r.count <= |bs| && r.rest == bs[r.count..]
  {
    if |bs| < 2 then TextRead(|bs|, [], [])
    else
      var size := Min(FromBigEndian(bs[..2]), |bs| - 2);
      TextRead(2 + size, bs[2..2 + size], bs[2 + size..])
  }

  lemma OneByte(bs: seq<byte>)
    ensures |bs| > 0 ==> FromBigEndian(bs[..1]) == bs[0]
    ensures Pow256(1) == 256
  {
    assert Pow256(1) == 256 * Pow256(0);
    if |bs| > 0 {
      assert bs[..1][..0] == [];
    }
  }

  class BitStream {
    const host: Host
    var buffer: seq<byte>
    var writePtr: nat
    var readPtr: nat

    ghost predicate Valid()
      reads this
    {
      writePtr <= |buffer| && readPtr <= |buffer|
    }

    /** Where every stream the program builds writes. */
    ghost predicate AtEnd()
      reads this
    {
      writePtr == |buffer|
    }

    /** The bytes still to be read. */
    function Unread(): seq<byte>
      requires Valid()
      reads this
    {
      buffer[readPtr..]
    }

    constructor (host: Host)
      ensures Valid() && buffer == [] && writePtr == readPtr == 0 && this.host == host
    {
      this.host := host;
      buffer, writePtr, readPtr := [], 0, 0;
    }

    /** Bytes are inserted at the write position, not written over what is there. */
    method WriteBytes(data: seq<byte>) returns (count: nat)
      requires Valid()
      modifies this
      ensures Valid()
      ensures buffer == old(buffer[..writePtr]) + data + old(buffer[writePtr..])
      ensures old(AtEnd()) ==> AtEnd() && buffer == old(buffer) + data
      ensures writePtr == old(writePtr) + |data| && readPtr == old(readPtr)
      ensures count == |data|
    {
      buffer := buffer[..writePtr] + data + buffer[writePtr..];
      writePtr := writePtr + |data|;
      return |data|;
    }

    /** Moves up to `size` unread bytes of another stream into this one. */
    method WriteFrom(bs: BitStream, size: nat) returns (count: nat)
      requires Valid() && bs.Valid() && bs != this
      modifies this, bs`readPtr
      ensures Valid() && bs.Valid()
      ensures count == Min(size, |old(bs.Unread())|)
      ensures buffer == old(buffer[..writePtr]) + old(bs.Unread())[..count] + old(buffer[writePtr..])
      ensures writePtr == old(writePtr) + count && readPtr == old(readPtr)
      ensures bs.Unread() == old(bs.Unread())[count..]
    {
      if bs.readPtr >= |bs.buffer| {
        return 0;
      }
      var size := size;
      if bs.readPtr + size > |bs.buffer| {
        size := |bs.buffer| - bs.readPtr;
      }
      count := WriteBytes(bs.buffer[bs.readPtr..bs.readPtr + size]);
      bs.readPtr := bs.readPtr + size;
    }

    method ReadBytes(size: nat) returns (data: seq<byte>)
      requires Valid()
      modifies this`readPtr
      ensures Valid()
      ensures |data| == Min(size, |old(Unread())|)
      ensures data == old(Unread())[..|data|] && Unread() == old(Unread())[|data|..]
      ensures readPtr == old(readPtr) + |data|
    {
      var size := size;
      if readPtr + size > |buffer| {
        size := |buffer| - readPtr;
      }
      data := buffer[readPtr..readPtr + size];
      readPtr := readPtr + size;
    }

    method ResetReadPointer()
      requires Valid()
      modifies this`readPtr
      ensures Valid() && readPtr == 0 && Unread() == buffer
    {
      readPtr := 0;
    }

    method Remove(start: nat, size: nat) returns (count: nat)
      requires Valid()
      modifies this
      ensures Valid()
      ensures count == if start >= |old(buffer)| then 0 else Min(size, |old(buffer)| - start)
      ensures start <= |old(buffer)| ==> buffer == old(buffer)[..start] + old(buffer)[start + count..]
      ensures start > |old(buffer)| ==> buffer == old(buffer)
      ensures readPtr == Min(old(readPtr), |buffer|) && writePtr == Min(old(writePtr), |buffer|)
    {
      if start >= |buffer| {
        return 0;
      }
      var size := size;
      if start + size > |buffer| {
        size := |buffer| - start;
      }
      buffer := buffer[..start] + buffer[start + size..];
      readPtr := Min(readPtr, |buffer|);
      writePtr := Min(writePtr, |buffer|);
      return size;
    }

    /** `Write<T>` for an integer type of `n` bytes. */
    method WriteInt(v: nat, n: nat) returns (count: nat)
      requires Valid()
      modifies this
      ensures Valid()
      ensures buffer == old(buffer[..writePtr]) + BigEndian(v, n) + old(buffer[writePtr..])
      ensures old(AtEnd()) ==> AtEnd() && buffer == old(buffer) + BigEndian(v, n)
      ensures writePtr == old(writePtr) + n && readPtr == old(readPtr)
      ensures count == n
    {
      NetworkOrder(host, v, n);
      var net := Hton(host, InMemory(host, v, n));
      count := WriteBytes(net);
    }

    /** `Read<T>` for an integer type of `n` bytes; a short read leaves the value indeterminate. */
    method ReadInt(n: nat) returns (count: nat, v: nat)
      requires Valid()
      modifies this`readPtr
      ensures Valid()
      ensures count == Min(n, |old(Unread())|)
      ensures Unread() == old(Unread())[count..]
      ensures v < Pow256(n)
      ensures count == n ==> v == FromBigEndian(old(Unread())[..n])
    {
      var data := ReadBytes(n);
      count := |data|;
      if count == n {
        FromBigEndianBound(data);
        HostOrder(host, data);
        v := FromMemory(host, Hton(host, data));
      } else {
        v :| v < Pow256(n);
      }
    }

    /** `Read<uint8_t>`. */
    method ReadByte() returns (count: nat, v: byte)
      requires Valid()
      modifies this`readPtr
      ensures Valid()
      ensures count == Min(1, |old(Unread())|)
      ensures Unread() == old(Unread())[count..]
      ensures count == 1 ==> v == old(Unread())[0]
    {
      OneByte(Unread());
      count, v := ReadInt(1);
    }

    method WriteText(t: Text) returns (count: nat)
      requires Valid()
      modifies this
      ensures Valid()
      ensures buffer == old(buffer[..writePtr]) + Prefixed(t) + old(buffer[writePtr..])
      ensures old(AtEnd()) ==> AtEnd() && buffer == old(buffer) + Prefixed(t)
      ensures writePtr == old(writePtr) + 2 + |t| && readPtr == old(readPtr)
      ensures count == 2 + |t|
    {
      ghost var before, after := buffer[..writePtr], buffer[writePtr..];
      count := WriteInt(|t|, 2);
      assert buffer[..writePtr] == before + BigEndian(|t|, 2) && buffer[writePtr..] == after;
      var more := WriteBytes(t);
      count := count + more;
    }

    /** Reads into a caller's empty string: a missing length leaves it empty, missing bytes cut it. */
    method ReadText() returns (count: nat, t: Text)
      requires Valid()
      modifies this`readPtr
      ensures Valid()
      ensures var r := GetText(old(Unread())); count == r.count && t == r.text && Unread() == r.rest
    {
      t := [];
      var size;
      count, size := ReadInt(2);
      if count != 2 {
        return;
      }
      t := ReadBytes(size);
      count := count + |t|;
    }
  }
}
