/** A byte buffer that grows by doubling. */
module DynamicBuffers {
  import opened Common
  import opened Vlq

  const INITIAL_CAPACITY: nat := 512

  lemma AppendToEnd(a: seq<byte>, b: seq<byte>, c: byte)
    ensures (a + b) + [c] == a + (b + [c])
  {
  }

  lemma ShiftedIsLess(num: int)
    ensures 0 <= num % 32 < 32 && (num / 32 > 0 ==> num > 0 && num / 32 < num)
  {
  }

  /** Copies bytes into a buffer, from position `at` on. */
  method CopyTo(buffer: array<byte>, at: nat, b: seq<byte>)
    requires at + |b| <= buffer.Length
    modifies buffer
    ensures buffer[..at + |b|] == old(buffer[..at]) + b
  {
    for i := 0 to |b|
      invariant buffer[..at] == old(buffer[..at])
      invariant forall k | 0 <= k < i :: buffer[at + k] == b[k]
    {
      buffer[at + i] := b[i];
    }
  }

  class DynamicBuffer {
    var buffer: array<byte>
    var size: nat

    /** How many bytes all growths so far have copied. */
    ghost var copied: nat

    /** Room for the contents, and growth paid for: the capacity exceeds all that was copied. */
    ghost predicate Sound()
      reads this
    {
      size <= buffer.Length && INITIAL_CAPACITY <= buffer.Length && copied < buffer.Length
    }

    /** A capacity is the initial one or less than twice what is needed. */
    ghost predicate Tight(needed: nat)
      reads this
    {
      buffer.Length == INITIAL_CAPACITY || buffer.Length < 2 * needed
    }

    ghost predicate Valid()
      reads this
    {
      Sound() && Tight(size)
    }

    ghost function Contents(): seq<byte>
      requires Sound()
      reads this, buffer
    {
      buffer[..size]
    }

    constructor ()
      ensures Valid() && fresh(buffer) && Contents() == [] && copied == 0 && buffer.Length == 512
    {
      buffer := new byte[INITIAL_CAPACITY](_ => 0);
      size := 0;
      copied := 0;
    }

    method EnsureCapacity(capacity: nat)
      requires Valid() && size <= capacity
      modifies this`buffer, this`copied
      ensures Sound() && Tight(capacity) && capacity <= buffer.Length
      ensures Contents() == old(Contents())
      ensures buffer == old(buffer) || fresh(buffer)
      ensures old(buffer.Length) >= capacity ==> buffer == old(buffer) && copied == old(copied)
      ensures old(buffer.Length) < capacity ==>
                buffer.Length == Max(2 * old(buffer.Length), capacity) && copied == old(copied) + old(buffer.Length)
    {
      if buffer.Length >= capacity {
        return;
      }
      var oldBuffer := buffer;
      var newBuffer := new byte[Max(oldBuffer.Length * 2, capacity)](_ => 0);
      for i := 0 to oldBuffer.Length
        modifies newBuffer
        invariant newBuffer[..i] == oldBuffer[..i]
      {
        newBuffer[i] := oldBuffer[i];
      }
      copied := copied + oldBuffer.Length;
      buffer := newBuffer;
      assert newBuffer[..size] == newBuffer[..oldBuffer.Length][..size];
    }

    method AddByte(b: byte)
      requires Valid()
      modifies this, buffer
      ensures Valid() && (buffer == old(buffer) || fresh(buffer))
      ensures Contents() == old(Contents()) + [b]
    {
      EnsureCapacity(size + 1);
      buffer[size] := b;
      size := size + 1;
    }

    method AddBuffer(b: seq<byte>)
      requires Valid()
      modifies this, buffer
      ensures Valid() && (buffer == old(buffer) || fresh(buffer))
      ensures Contents() == old(Contents()) + b
    {
      EnsureCapacity(size + |b|);
      CopyTo(buffer, size, b);
      size := size + |b|;
    }

    /** Appends a number in base64 VLQ, with the 32-bit operations of the encoder. */
    method AddVLQ(n: int)
      requires Valid()
      modifies this, buffer
      ensures Valid() && (buffer == old(buffer) || fresh(buffer))
      ensures Contents() == old(Contents()) + Encoded(n)
    {
      hide Emitted, ShiftLeft, IntegerToChar, IsDigit;
      var num := if n < 0 then ShiftLeft(-n, 1) + 1 else ShiftLeft(n, 1);
      ghost var done: seq<byte> := [];
      var more := true;
      while more
        invariant Valid() && (buffer == old(buffer) || fresh(buffer))
        invariant Contents() == old(Contents()) + done
        invariant if more then done + Emitted(num) == Encoded(n) else done == Encoded(n)
        decreases more, if num > 0 then num else 0
      {
        EmitNext(done, num);
        ShiftedIsLess(num);
        var clamped := num % 32;
        num := num / 32;
        if num > 0 {
          clamped := clamped + 32;
        }
        var c := IntegerToChar(clamped);
        AddByte(c);
        AppendToEnd(old(Contents()), done, c);
        done := done + [c];
        more := num > 0;
      }
    }

    method ToBuffer() returns (b: seq<byte>)
      requires Valid()
      ensures b == Contents()
    {
      b := buffer[..size];
    }
  }
}
