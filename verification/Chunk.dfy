/** The growing reassembly buffer of mervbot/chunk.cpp. */
module Chunk {
  import opened Bytes

  /** The bytes a buffer holds; a null buffer holds none. */
  function Content(c: Option<Bytes>): Bytes {
    if c.Some? then c.value else []
  }

  /** What addMessage leaves: the buffer grows, unless the limit would be passed, when it is left alone. */
  function Added(c: Option<Bytes>, limit: nat, m: Bytes): Option<Bytes> {
    if |Content(c)| + |m| <= limit then Some(Content(c) + m) else c
  }

  class ChunkBuffer {
    var buffer: array?<Byte>
    var currentLength: nat
    var maximumLength: nat

    ghost predicate Valid()
      reads this
    {
      && (buffer == null ==> currentLength == 0)
      && (buffer != null ==> buffer.Length == currentLength)
    }

    ghost function Contents(): Option<Bytes>
      requires Valid()
      reads this, buffer
    {
      if buffer == null then None else Some(buffer[..])
    }

    constructor ()
      ensures Valid() && Contents() == None && maximumLength == 1000
    {
      buffer := null;
      currentLength := 0;
      maximumLength := 1000;
    }

    method SetLimit(max: nat)
      requires Valid()
      modifies this`maximumLength
      ensures Valid() && Contents() == old(Contents()) && maximumLength == max
    {
      maximumLength := max;
    }

    /** Reallocates to `len` bytes, keeping the current ones at the front. */
    method ResizeMessage(len: nat)
      requires Valid() && currentLength <= len
      modifies this`buffer
      ensures buffer != null && fresh(buffer) && buffer.Length == len
      ensures buffer[..currentLength] == Content(old(Contents()))
    {
      var grown := new Byte[len];
      if buffer != null {
        var i := 0;
        while i < currentLength
          invariant 0 <= i <= currentLength
          invariant unchanged(this) && Valid() && Contents() == old(Contents())
          invariant grown[..i] == buffer[..i]
        {
          grown[i] := buffer[i];
          i := i + 1;
        }
      }
      buffer := grown;
    }

    method AddMessage(m: Bytes)
      requires Valid()
      modifies this`buffer, this`currentLength
      ensures Valid() && (buffer == old(buffer) || fresh(buffer))
      ensures Contents() == Added(old(Contents()), maximumLength, m)
    {
      var length := currentLength + |m|;
      if length <= maximumLength {
        ghost var was := Content(Contents());
        ResizeMessage(length);
        var i := 0;
        while i < |m|
          invariant 0 <= i <= |m|
          invariant buffer != null && fresh(buffer) && buffer.Length == length
          invariant currentLength == old(currentLength)
          invariant buffer[..currentLength + i] == was + m[..i]
        {
          buffer[currentLength + i] := m[i];
          i := i + 1;
        }
        currentLength := length;
        assert buffer[..] == buffer[..old(currentLength) + |m|] == was + m;
      }
    }

    method DeleteMessage()
      requires Valid()
      modifies this`buffer, this`currentLength
      ensures Valid() && Contents() == None
    {
      if buffer != null {
        buffer := null;
        currentLength := 0;
      }
    }
  }
}
