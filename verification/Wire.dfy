/** A reliable byte stream with arbitrary chunks, and the loops that send and receive exactly
    the requested number of bytes over it. */
module Wire {
  type Byte = b: nat | b < 256

  /** One direction of a connection: every byte written so far, how many were read, and
      whether a call has reported the end of the connection. */
  class Pipe {
    var sent: seq<Byte>
    var taken: nat
    var over: bool

    ghost predicate Valid()
      reads this
    {
      taken <= |sent|
    }

    constructor ()
      ensures Valid() && sent == [] && taken == 0 && !over
    {
      sent, taken, over := [], 0, false;
    }

    /** 'send': any positive number of bytes goes out, or none and the connection is over. */
    method OsSend(data: seq<Byte>) returns (n: int)
      requires Valid() && |data| > 0
      modifies this
      ensures Valid() && taken == old(taken) && n <= |data|
      ensures sent == if n > 0 then old(sent) + data[..n] else old(sent)
      ensures over == (old(over) || n <= 0)
    {
      n := *;
      if n > |data| {
        n := |data|;
      }
      if n > 0 {
        sent := sent + data[..n];
      } else {
        over := true;
      }
    }

    /** 'recv': any positive number of the bytes that have arrived, or none and the connection
        is over. */
    method OsRecv(max: nat) returns (n: int, data: seq<Byte>)
      requires Valid() && max > 0
      modifies this
      ensures Valid() && sent == old(sent) && n <= max
      ensures if n > 0 then taken == old(taken) + n && data == sent[old(taken)..taken] else taken == old(taken)
      ensures over == (old(over) || n <= 0)
    {
      n, data := *, [];
      if n > max {
        n := max;
      }
      if n > |sent| - taken {
        n := |sent| - taken;
      }
      if n > 0 {
        data := sent[taken..taken + n];
        taken := taken + n;
      } else {
        over := true;
      }
    }

    /** 'SendBuffer' and 'SendData': all of the data goes out, or part of it and an error. */
    method SendBuffer(data: seq<Byte>) returns (ok: bool)
      requires Valid()
      modifies this
      ensures Valid() && taken == old(taken)
      ensures exists k: nat :: k <= |data| && sent == old(sent) + data[..k] && (ok ==> k == |data|)
      ensures over == (old(over) || !ok)
    {
      var done := 0;
      while done < |data|
        invariant 0 <= done <= |data| && Valid() && taken == old(taken) && sent == old(sent) + data[..done] && over == old(over)
      {
        var n := OsSend(data[done..]);
        if n <= 0 {
          return false;
        }
        assert data[..done] + data[done..][..n] == data[..done + n];
        done := done + n;
      }
      return true;
    }

    /** 'ReceiveBuffer' and 'ReceiveData': exactly the next 'size' bytes, however they are chunked. */
    method ReceiveBuffer(size: nat) returns (ok: bool, data: seq<Byte>)
      requires Valid()
      modifies this
      ensures Valid() && sent == old(sent) && old(taken) <= taken <= old(taken) + size
      ensures ok ==> taken == old(taken) + size && data == sent[old(taken)..taken]
      ensures over == (old(over) || !ok)
    {
      data := [];
      var received := 0;
      while received < size
        invariant 0 <= received <= size && Valid() && sent == old(sent) && over == old(over)
        invariant taken == old(taken) + received && data == sent[old(taken)..taken]
      {
        var n, chunk := OsRecv(size - received);
        if n <= 0 {
          return false, [];
        }
        data := data + chunk;
        received := received + n;
      }
      return true, data;
    }
  }
}
