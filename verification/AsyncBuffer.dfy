/** The growable byte buffer of the asynchronous logger. */
module AsyncBuffer {
  import opened Arithmetic
  import opened Collections

  const SIZE_MAX := 0xffff_ffff_ffff_ffff

  /** Buffer sizes, as the configuration reader validates them. */
  datatype Config = Config(bufferSize: nat, threshold: nat, linearGrowth: nat)

  predicate ValidConfig(c: Config) {
    0 < c.bufferSize <= c.threshold <= SIZE_MAX && 0 < c.linearGrowth <= SIZE_MAX
  }

  /** Doubling below the threshold, fixed steps above it; straight to the goal when a step would
      leave size_t. */
  function Grown(size: nat, required: nat, c: Config): nat
    requires ValidConfig(c)
    decreases required - size
  {
    if size >= required then size else
    var growth := if size < c.threshold then Max(size, 1) else c.linearGrowth;
    if growth > SIZE_MAX - size then required else Grown(size + growth, required, c)
  }

  /** How far past the request a growth may go. */
  function Slack(required: nat, c: Config): nat
    requires required > 0 && c.threshold > 0
  {
    Max(Min(required - 1, c.threshold - 1), c.linearGrowth)
  }

  lemma {:induction false} GrownIsEnoughAndBounded(size: nat, required: nat, c: Config)
    requires ValidConfig(c) && 0 < size < required <= SIZE_MAX
    ensures required <= Grown(size, required, c) <= SIZE_MAX
    ensures Grown(size, required, c) <= required - 1 + Slack(required, c)
    ensures size < c.threshold && 2 * size <= SIZE_MAX ==> Grown(size, required, c) >= 2 * size
    ensures size >= c.threshold && size + c.linearGrowth <= SIZE_MAX ==> Grown(size, required, c) >= size + c.linearGrowth
    decreases required - size
  {
    var growth := if size < c.threshold then Max(size, 1) else c.linearGrowth;
    if growth <= SIZE_MAX - size && size + growth < required {
      GrownIsEnoughAndBounded(size + growth, required, c);
    }
  }

  /** Capacity after a push of len bytes into a buffer that holds `used` of `capacity`. */
  function CapacityAfter(capacity: nat, used: nat, len: nat, c: Config): nat
    requires ValidConfig(c)
  {
    if len == 0 || used + len <= capacity then capacity else Grown(capacity, used + len, c)
  }

  datatype PushResult = Pushed | NullData | LengthOverflow

  class Buffer {
    const config: Config
    var bytes: array<byte>
    var writePos: nat
    var readPos: nat

    ghost predicate Valid()
      reads this
    {
      && ValidConfig(config)
      && readPos == 0
      && writePos <= bytes.Length <= SIZE_MAX
      && 0 < bytes.Length
    }

    ghost function Contents(): seq<byte>
      reads this, bytes
      requires Valid()
    {
      bytes[readPos..writePos]
    }

    constructor (c: Config)
      requires ValidConfig(c)
      ensures Valid() && fresh(bytes) && config == c
      ensures Contents() == [] && bytes.Length == c.bufferSize
    {
      config := c;
      bytes := new byte[c.bufferSize];
      writePos, readPos := 0, 0;
    }

    method IsEmpty() returns (empty: bool)
      requires Valid()
      ensures empty <==> Contents() == []
    {
      empty := writePos == readPos;
    }

    method WriteableSize() returns (size: nat)
      requires Valid()
      ensures size == bytes.Length - |Contents()|
    {
      size := bytes.Length - writePos;
    }

    /** Makes room for len more bytes; what the buffer holds stays. */
    method EnsureWritable(len: nat) returns (ok: bool)
      requires Valid() && 0 < len <= SIZE_MAX
      modifies this
      ensures Valid() && writePos == old(writePos)
      ensures bytes == old(bytes) || fresh(bytes)
      ensures bytes[..writePos] == old(bytes[..writePos])
      ensures ok <==> (old(writePos + len <= bytes.Length) || old(writePos) + len <= SIZE_MAX)
      ensures ok ==> writePos + len <= bytes.Length
      ensures bytes.Length == if ok then CapacityAfter(old(bytes.Length), old(writePos), len, config) else old(bytes.Length)
      ensures !ok ==> bytes == old(bytes)
    {
      if len <= bytes.Length - writePos {
        return true;
      }
      if writePos > SIZE_MAX - len {
        return false;
      }
      var required := writePos + len;
      GrownIsEnoughAndBounded(bytes.Length, required, config);
      var newSize := bytes.Length;
      while newSize < required
        invariant 0 < newSize <= SIZE_MAX
        invariant Grown(newSize, required, config) == Grown(bytes.Length, required, config)
        decreases required - newSize
      {
        var growth := if newSize < config.threshold then Max(newSize, 1) else config.linearGrowth;
        if growth > SIZE_MAX - newSize {
          newSize := required;
          break;
        }
        newSize := newSize + growth;
      }
      var resized := new byte[newSize](i requires 0 <= i < newSize reads this, bytes =>
        if i < bytes.Length then bytes[i] else 0);
      bytes := resized;
      return true;
    }

    /** copy_n behind what the buffer holds. */
    method CopyIn(data: array<byte>, len: nat)
      requires writePos + len <= bytes.Length && len <= data.Length && data != bytes
      modifies bytes
      ensures bytes[..writePos + len] == old(bytes[..writePos]) + old(data[..len])
    {
      forall i | 0 <= i < len {
        bytes[writePos + i] := data[i];
      }
      assert bytes[..writePos] == old(bytes[..writePos]);
      assert bytes[writePos..writePos + len] == data[..len];
      assert bytes[..writePos + len] == bytes[..writePos] + bytes[writePos..writePos + len];
    }

    /** Appends, or fails and changes nothing. */
    method Push(data: array?<byte>, len: nat) returns (result: PushResult)
      requires Valid() && len <= SIZE_MAX
      requires data != null ==> len <= data.Length && data != bytes
      modifies this, bytes
      ensures Valid() && (bytes == old(bytes) || fresh(bytes))
      ensures result == if len == 0 then Pushed
                        else if data == null then NullData
                        else if old(|Contents()|) + len > SIZE_MAX then LengthOverflow
                        else Pushed
      ensures result == Pushed ==>
                && Contents() == old(Contents()) + (if data == null then [] else old(data[..len]))
                && bytes.Length == CapacityAfter(old(bytes.Length), old(|Contents()|), len, config)
      ensures result != Pushed ==> Contents() == old(Contents()) && bytes == old(bytes)
    {
      if len == 0 {
        return Pushed;
      }
      if data == null {
        return NullData;
      }
      var ok := EnsureWritable(len);
      if !ok {
        return LengthOverflow;
      }
      CopyIn(data, len);
      writePos := writePos + len;
      return Pushed;
    }

    method Swap(other: Buffer)
      requires Valid() && other.Valid()
      modifies this, other
      ensures Valid() && other.Valid()
      ensures bytes == old(other.bytes) && other.bytes == old(bytes)
      ensures Contents() == old(other.Contents()) && other.Contents() == old(Contents())
    {
      bytes, other.bytes := other.bytes, bytes;
      readPos, other.readPos := other.readPos, readPos;
      writePos, other.writePos := other.writePos, writePos;
    }

    method Reset()
      requires Valid()
      modifies this
      ensures Valid() && Contents() == [] && bytes == old(bytes)
    {
      writePos, readPos := 0, 0;
    }
  }
}
