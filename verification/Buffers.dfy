/** `Buffer`: a byte vector with a read and a write index, used as a queue of bytes. */
module Buffers {

  type Byte = x: int | 0 <= x < 256

  const U64 := 0x1_0000_0000_0000_0000

  type UInt64 = x: nat | x < 0x1_0000_0000_0000_0000

  /** The length up to which a vector of bytes can grow. */
  const MaxSize := 0x7fff_ffff_ffff_ffff

  function Add64(a: UInt64, b: UInt64): UInt64 {
    (a + b) % U64
  }

  /** A signed count, passed on as `uint64_t`. */
  function AsUnsigned(count: int): UInt64
    requires -U64 <= count < U64
  {
    count % U64
  }

  /** How many bytes `Read` copies when asked for `len`. */
  function ReadCount(readIndex: UInt64, writeIndex: UInt64, len: UInt64): UInt64
    requires readIndex <= writeIndex
  {
    if readIndex == writeIndex then 0
    else if Add64(readIndex, len) > writeIndex then writeIndex - readIndex
    else len
  }

  /** `Read` stays within the unread bytes exactly if there are none or the sum of the index and
      the requested length does not wrap; it then copies as many as it can. */
  lemma ReadStaysInside(readIndex: UInt64, writeIndex: UInt64, len: UInt64)
    requires readIndex <= writeIndex
    ensures ReadCount(readIndex, writeIndex, len) <= writeIndex - readIndex <==> readIndex == writeIndex || readIndex + len < U64
    ensures readIndex + len < U64 ==>
      (ReadCount(readIndex, writeIndex, len) == if len < writeIndex - readIndex then len else writeIndex - readIndex)
  {
    if readIndex + len >= U64 {
      assert Add64(readIndex, len) == readIndex + len - U64;
    }
  }

  /** Advancing the read index by what a socket reports keeps the index in range and drops that many
      bytes exactly if the report is not negative: a count of -1 puts the index back. */
  lemma AdvanceFollowsCount(readIndex: UInt64, writeIndex: UInt64, count: int)
    requires readIndex < writeIndex < U64 - 1 && -1 <= count <= writeIndex - readIndex
    ensures readIndex <= Add64(readIndex, AsUnsigned(count)) <= writeIndex <==> count >= 0
    ensures count >= 0 || readIndex > 0 ==> Add64(readIndex, AsUnsigned(count)) == readIndex + count
  {
    if count < 0 {
      assert count % U64 == U64 - 1;
      if readIndex > 0 { assert (readIndex + U64 - 1) % U64 == readIndex - 1; }
    }
  }

  class Buffer {
    var readIndex: UInt64
    var writeIndex: UInt64
    var buffer: seq<Byte>
    /** Everything ever pushed since the last `Reset` from outside, and everything ever popped. */
    ghost var pushed: seq<Byte>
    ghost var popped: seq<Byte>

    /** The indices are in range. */
    ghost predicate InRange()
      reads this
    {
      readIndex <= writeIndex && Writable()
    }

    ghost predicate Writable()
      reads this
    {
      writeIndex <= |buffer| < MaxSize
    }

    ghost function Unread(): seq<Byte>
      requires InRange()
      reads this
    {
      buffer[readIndex..writeIndex]
    }

    /** First in, first out: what was popped, followed by what is left, is what was pushed. */
    ghost predicate Valid()
      reads this
    {
      InRange() && |buffer| <= 1024 + |pushed| && pushed == popped + Unread()
    }

    constructor ()
      ensures Valid() && Unread() == [] && pushed == [] && popped == [] && |buffer| == 1024
    {
      readIndex, writeIndex, buffer := 0, 0, seq(1024, _ => 0);
      pushed, popped := [], [];
    }

    /** Forgets everything, for a new stream. */
    method Reset()
      modifies this
      ensures Valid() && Unread() == [] && pushed == [] && popped == [] && buffer == []
    {
      Clear();
      pushed, popped := [], [];
    }

    method Clear()
      modifies `readIndex, `writeIndex, `buffer
      ensures InRange() && Unread() == [] && buffer == []
    {
      readIndex, writeIndex := 0, 0;
      buffer := [];
    }

    /** Fails, and changes nothing, if the vector would become too long. */
    method Push(data: seq<Byte>) returns (ok: bool)
      requires Writable()
      modifies this
      ensures Writable() && ok == (|old(buffer)| + |data| < MaxSize)
      ensures |buffer| == if ok then |old(buffer)| + |data| else |old(buffer)|
      ensures pushed == if ok then old(pushed) + data else old(pushed)
      ensures popped == old(popped)
      ensures old(Valid()) ==> Valid() && Unread() == if ok then old(Unread()) + data else old(Unread())
    {
      ok := Write(data);
      if ok {
        pushed := pushed + data;
      }
    }

    /** Inserts the bytes at the write index, in front of whatever filler is there. */
    method Write(data: seq<Byte>) returns (ok: bool)
      requires Writable()
      modifies `writeIndex, `buffer
      ensures Writable() && ok == (|old(buffer)| + |data| < MaxSize)
      ensures |buffer| == if ok then |old(buffer)| + |data| else |old(buffer)|
      ensures old(InRange()) ==> InRange() && Unread() == if ok then old(Unread()) + data else old(Unread())
    {
      ok := |buffer| + |data| < MaxSize;
      if ok {
        buffer := buffer[..writeIndex] + data + buffer[writeIndex..];
        writeIndex := writeIndex + |data|;
      }
    }

    /** Takes up to `len` bytes from the front of the queue. */
    method PopHead(buf: array<Byte>, len: UInt64) returns (count: UInt64)
      requires Valid() && readIndex + len < U64 && len <= buf.Length
      modifies this, buf
      ensures Valid() && count == if len < |old(Unread())| then len else |old(Unread())|
      ensures buf[..count] == old(Unread())[..count] && Unread() == old(Unread())[count..]
      ensures popped == old(popped) + buf[..count] && pushed == old(pushed)
      ensures forall i | count <= i < buf.Length :: buf[i] == old(buf[i])
    {
      count := Read(buf, len);
      popped := popped + buf[..count];
      var n := UpdateReadIndex(count);
    }

    method Read(buf: array<Byte>, len: UInt64) returns (count: UInt64)
      requires InRange() && readIndex + len < U64 && len <= buf.Length
      modifies buf
      ensures count == if len < |Unread()| then len else |Unread()|
      ensures buf[..count] == Unread()[..count]
      ensures forall i | count <= i < buf.Length :: buf[i] == old(buf[i])
    {
      if readIndex == writeIndex {
        return 0;
      }
      ReadStaysInside(readIndex, writeIndex, len);
      count := len;
      if Add64(readIndex, len) > writeIndex {
        count := writeIndex - readIndex;
      }
      for i := 0 to count
        invariant forall j | 0 <= j < i :: buf[j] == buffer[readIndex + j]
        invariant forall j | i <= j < buf.Length :: buf[j] == old(buf[j])
      {
        buf[i] := buffer[readIndex + i];
      }
      assert forall j | 0 <= j < count :: buf[..count][j] == Unread()[..count][j];
    }

    /** What is unread afterwards is the old rest, if the count is that of bytes that were unread. */
    method UpdateReadIndex(len: UInt64) returns (r: UInt64)
      requires InRange()
      modifies `readIndex, `writeIndex, `buffer
      ensures r == len
      ensures len <= |old(Unread())| ==> InRange() && Unread() == old(Unread())[len..]
      ensures len < |old(Unread())| ==> buffer == old(buffer)
      ensures len == |old(Unread())| ==> buffer == []
      ensures len > |old(Unread())| ==>
        readIndex == Add64(old(readIndex), len) && unchanged(`writeIndex) && unchanged(`buffer)
    {
      readIndex := Add64(readIndex, len);
      if readIndex == writeIndex {
        Clear();
      }
      r := len;
    }
  }

  /** A use of the queue. */
  datatype Op = PushOp(data: seq<Byte>) | PopOp(len: nat)

  ghost function PushedBy(ops: seq<Op>): seq<Byte> {
    if ops == [] then []
    else PushedBy(ops[..|ops| - 1]) + match ops[|ops| - 1] case PushOp(data) => data case PopOp(_) => []
  }

  /** Any run of pushes and pops: the bytes popped, in order, are the bytes pushed, in order, up to
      those that are left. */
  method RunQueue(ops: seq<Op>) returns (popped: seq<Byte>, b: Buffer)
    requires forall i | 0 <= i < |ops| && ops[i].PopOp? :: ops[i].len < MaxSize
    requires |PushedBy(ops)| < MaxSize - 1024
    ensures b.Valid() && PushedBy(ops) == popped + b.Unread()
  {
    b := new Buffer();
    popped := [];
    assert ops[..|ops|] == ops;
    for i := 0 to |ops|
      invariant fresh(b) && b.Valid() && b.pushed == PushedBy(ops[..i]) && b.popped == popped
    {
      assert ops[..i + 1][..i] == ops[..i];
      PushedGrows(ops, i + 1);
      var out := Use(b, ops[i]);
      popped := popped + out;
    }
  }

  method Use(b: Buffer, op: Op) returns (out: seq<Byte>)
    requires b.Valid() && (op.PopOp? ==> op.len < MaxSize) && (op.PushOp? ==> |b.pushed| + |op.data| < MaxSize - 1024)
    modifies b
    ensures b.Valid() && b.pushed == old(b.pushed) + (if op.PushOp? then op.data else []) && b.popped == old(b.popped) + out
  {
    match op {
      case PushOp(data) =>
        var ok := b.Push(data);
        out := [];
      case PopOp(len) =>
        var buf := new Byte[len](_ => 0);
        var count := b.PopHead(buf, len);
        out := buf[..count];
    }
  }

  lemma {:induction false} PushedGrows(ops: seq<Op>, k: nat)
    requires k <= |ops|
    ensures |PushedBy(ops[..k])| <= |PushedBy(ops)|
    decreases |ops|
  {
    if k < |ops| {
      PushedGrows(ops[..|ops| - 1], k);
      assert ops[..|ops| - 1][..k] == ops[..k];
    } else {
      assert ops[..k] == ops;
    }
  }
}
