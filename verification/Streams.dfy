/** A connected TCP stream as the code uses it: bytes are read in order from what the peer writes
    until it closes, and written in order to it. */
module Streams {
  import opened Bytes

  class Stream {
    /** Everything the peer has written or will ever write and that has not been read yet. */
    var incoming: seq<byte>
    /** Everything written to the peer so far. */
    var sent: seq<byte>

    constructor (incoming: seq<byte>)
      ensures this.incoming == incoming && sent == []
    {
      this.incoming := incoming;
      sent := [];
    }

    /** `read_exact`: all `n` bytes, or an error once the peer has closed too early. */
    method ReadExact(n: nat) returns (r: Option<seq<byte>>)
      modifies this`incoming
      ensures if n <= |old(incoming)| then r == Some(old(incoming)[..n]) && incoming == old(incoming)[n..]
              else r == None && incoming == []
    {
      if n <= |incoming| {
        r := Some(incoming[..n]);
        incoming := incoming[n..];
      } else {
        r := None;
        incoming := [];
      }
    }

    method ReadU8() returns (r: Option<byte>)
      modifies this`incoming
      ensures if old(incoming) == [] then r == None && incoming == []
              else r == Some(old(incoming)[0]) && incoming == old(incoming)[1..]
    {
      if incoming == [] {
        r := None;
      } else {
        r := Some(incoming[0]);
        incoming := incoming[1..];
      }
    }

    method ReadU16() returns (r: Option<port>)
      modifies this`incoming
      ensures if |old(incoming)| < 2 then r == None && incoming == []
              else r == Some(PortOf(old(incoming)[0], old(incoming)[1])) && incoming == old(incoming)[2..]
    {
      var bs := ReadExact(2);
      r := if bs.Some? then Some(PortOf(bs.value[0], bs.value[1])) else None;
    }

    method WriteAll(bytes: seq<byte>)
      modifies this`sent
      ensures sent == old(sent) + bytes
    {
      sent := sent + bytes;
    }
  }
}
