/** The connection a handler talks over, reduced to what the handlers observe:
    the chunks the peer delivers, one per wait-then-read, and the byte strings written back. */
module Transport {
  import opened Bytes

  /** What one wait-then-read-everything yields: the next chunk the peer sends, or
      nothing at all once the peer has nothing more to say (the wait timed out). */
  function Read(script: seq<Bytes>): Bytes
  {
    if script == [] then [] else script[0]
  }

  /** The chunks still to come after one wait-then-read. */
  function Rest(script: seq<Bytes>): seq<Bytes>
  {
    if script == [] then [] else script[1..]
  }

  /** `suffix` is what remains of `script` after some chunks were read from its front. */
  predicate IsSuffix(suffix: seq<Bytes>, script: seq<Bytes>)
  {
    |suffix| <= |script| && suffix == script[|script| - |suffix|..]
  }

  lemma ConcatAssoc(a: seq<Bytes>, b: seq<Bytes>, c: seq<Bytes>)
    ensures (a + b) + c == a + (b + c)
  {
  }

  /** One operation on the socket, as it happened. */
  datatype Event = Rd(data: Bytes) | Wr(data: Bytes)

  /** A socket driven by a script: `pending` holds the chunks the peer has yet to
      deliver, `written` every byte string handed to `write`, in order, and `trace`
      every read and write in the order they were made. */
  class ScriptedSocket {
    var pending: seq<Bytes>
    var written: seq<Bytes>
    ghost var trace: seq<Event>

    constructor (script: seq<Bytes>)
      ensures pending == script && written == [] && trace == []
    {
      pending := script;
      written := [];
      trace := [];
    }

    /** waitForReadyRead followed by readAll: the next chunk, or an empty one on timeout. */
    method ReadChunk() returns (data: Bytes)
      modifies this
      ensures data == Read(old(pending)) && pending == Rest(old(pending))
      ensures written == old(written) && trace == old(trace) + [Rd(data)]
      ensures old(pending) != [] ==> |pending| < |old(pending)|
    {
      if pending == [] {
        data := [];
      } else {
        data := pending[0];
        pending := pending[1..];
      }
      trace := trace + [Rd(data)];
    }

    /** write: appends one byte string to what the handler sends; whether the
        transport accepted it is not reported back. */
    method Write(data: Bytes)
      modifies this
      ensures written == old(written) + [data] && trace == old(trace) + [Wr(data)]
      ensures pending == old(pending)
    {
      written := written + [data];
      trace := trace + [Wr(data)];
    }
  }
}
