/** The byte sink (Go's io.Writer) the formatters write to. */
module Io {
  import opened Base

  /** The first `room` bytes of `s`: what a sink with that much room keeps of it. */
  function Take(s: string, room: nat): (r: string)
    ensures r <= s && |r| == Min(|s|, room)
  {
    s[..Min(|s|, room)]
  }

  /** What one write leaves behind: the bytes accepted and the error, if any. */
  datatype Written = Written(bytes: string, err: Option<Error>)

  /** One write of `b` to a sink with `room` bytes of room left. The io.Writer
      contract: the count is at most |b| and a short write carries an error. */
  function WriteResult(b: string, room: nat): (w: Written)
    ensures w.bytes == Take(b, room)
    ensures w.err.Some? <==> |b| > room
    ensures w.err.Some? ==> w.err == Some(ShortWrite)
  {
    if |b| <= room then Written(b, None) else Written(b[..room], Some(ShortWrite))
  }

  /** Two writes, the second only after the first fully succeeded, keep the same
      bytes as one write of the concatenation: writes never skip ahead. */
  lemma TakeConcat(a: string, b: string, room: nat)
    ensures |a| <= room ==> Take(a + b, room) == a + Take(b, room - |a|)
    ensures |a| > room ==> Take(a + b, room) == Take(a, room)
  {
    if |a| <= room {
      assert (a + b)[..|a|] == a;
      assert (a + b)[|a|..] == b;
      var n := Min(|a + b|, room);
      assert (a + b)[..n] == (a + b)[..|a|] + (a + b)[|a|..n];
      assert (a + b)[|a|..n] == b[..n - |a|];
    } else {
      assert (a + b)[..room] == a[..room];
    }
  }

  /** A sink with a byte budget: the response body of the full system, or any
      io.Writer. It keeps what it has accepted (`data`) and will accept at most
      `room` more bytes. */
  class Sink {
    var data: string
    var room: nat

    constructor (room: nat)
      ensures data == [] && this.room == room
    {
      data := [];
      this.room := room;
    }

    /** io.Writer.Write: accepts as much of `b` as fits and reports a short write. */
    method Write(b: string) returns (n: nat, err: Option<Error>)
      modifies this
      ensures var w := WriteResult(b, old(room));
        n == |w.bytes| && err == w.err && data == old(data) + w.bytes && room == old(room) - n
    {
      var w := WriteResult(b, room);
      n, err := |w.bytes|, w.err;
      data := data + w.bytes;
      room := room - n;
    }
  }
}
