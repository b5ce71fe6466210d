/** The plaintext conversation shared by the two line-oriented STARTTLS handlers
    (FTP and SMTP): a greeting, then up to 16 non-matching reads during which the
    peer may query capabilities any number of times, ended by the upgrade command. */
module Dialogue {
  import opened Bytes
  import opened Transport

  /** How a negotiation ends: the peer may start the TLS handshake, or it did not
      follow the expected sequence. */
  datatype Outcome = Ready | Failed

  /** The result of running a handler against a script: its outcome, the byte
      strings it wrote (in order) and the chunks it left unread. */
  datatype Conversation = Conversation(outcome: Outcome, written: seq<Bytes>, rest: seq<Bytes>)

  /** The literals one line-oriented handler works with. */
  datatype LineDialect = LineDialect(
    greeting: Bytes,              // written before the first read
    capability: Bytes -> bool,    // recognises a capability query (FEAT, EHLO ...)
    capabilityReply: seq<Bytes>,  // written for each capability query
    upgrade: Bytes,               // the upgrade command (AUTH TLS, STARTTLS)
    upgradeReply: Bytes)          // written just before the TLS handshake

  /** What the two handlers' literals satisfy: an empty read (a timeout) is no
      capability query, so an idle peer uses up attempts; the upgrade command is
      not taken for a capability query; the upgrade reply is never written for
      any other reason. */
  predicate WellFormed(d: LineDialect)
  {
    && !d.capability([])
    && d.upgrade != []
    && !d.capability(d.upgrade)
    && d.upgradeReply !in d.capabilityReply
    && d.upgradeReply != d.greeting
  }

  /** The hard ceiling on non-matching reads. */
  const MaxAttempts: nat := 16

  function Last(s: seq<Bytes>): Bytes
    requires s != []
  {
    s[|s| - 1]
  }

  /** The `while (attempt < 16)` loop, run from `attempt` against the chunks still
      to come: what it writes, how it ends and what it leaves unread. */
  function LineLoop(d: LineDialect, chunks: seq<Bytes>, attempt: nat): Conversation
    requires WellFormed(d) && attempt <= MaxAttempts
    decreases |chunks|, MaxAttempts - attempt
  {
    if attempt >= MaxAttempts then
      Conversation(Failed, [], chunks)
    else
      var data := Read(chunks);
      if d.capability(data) then
        var c := LineLoop(d, Rest(chunks), attempt);
        Conversation(c.outcome, d.capabilityReply + c.written, c.rest)
      else if data == d.upgrade then
        Conversation(Ready, [d.upgradeReply], Rest(chunks))
      else
        LineLoop(d, Rest(chunks), attempt + 1)
  }

  /** The loop ends Ready exactly when its last write is the upgrade reply; a
      Failed loop never writes the upgrade reply; the loop only consumes chunks
      from the front of the script. */
  lemma {:induction false} LoopEnding(d: LineDialect, chunks: seq<Bytes>, attempt: nat)
    requires WellFormed(d) && attempt <= MaxAttempts
    ensures var r := LineLoop(d, chunks, attempt);
            && (r.outcome == Ready <==> r.written != [] && Last(r.written) == d.upgradeReply)
            && (r.outcome == Failed ==> d.upgradeReply !in r.written)
            && IsSuffix(r.rest, chunks)
    decreases |chunks|, MaxAttempts - attempt
  {
    if attempt < MaxAttempts {
      var data := Read(chunks);
      if d.capability(data) {
        LoopEnding(d, Rest(chunks), attempt);
        var c := LineLoop(d, Rest(chunks), attempt);
        if c.written != [] {
          assert Last(d.capabilityReply + c.written) == Last(c.written);
        }
      } else if data != d.upgrade {
        LoopEnding(d, Rest(chunks), attempt + 1);
      }
    }
  }

  /** The whole run as seen from inside the loop: `written` already went out, and
      the loop continues from `attempt` against `chunks`. */
  function Resume(d: LineDialect, written: seq<Bytes>, chunks: seq<Bytes>, attempt: nat): Conversation
    requires WellFormed(d) && attempt <= MaxAttempts
  {
    var c := LineLoop(d, chunks, attempt);
    Conversation(c.outcome, written + c.written, c.rest)
  }

  // One pass of the loop body, one lemma per branch, each leaving the whole run unchanged.

  /** A capability query is answered and the loop goes on with the same attempt count. */
  lemma CapabilityStep(d: LineDialect, written: seq<Bytes>, chunks: seq<Bytes>, attempt: nat)
    requires WellFormed(d) && attempt < MaxAttempts && d.capability(Read(chunks))
    ensures Resume(d, written + d.capabilityReply, Rest(chunks), attempt) == Resume(d, written, chunks, attempt)
  {
    var c := LineLoop(d, Rest(chunks), attempt);
    ConcatAssoc(written, d.capabilityReply, c.written);
  }

  /** The upgrade command is answered and ends the loop. */
  lemma UpgradeStep(d: LineDialect, written: seq<Bytes>, chunks: seq<Bytes>, attempt: nat)
    requires WellFormed(d) && attempt < MaxAttempts && Read(chunks) == d.upgrade
    ensures Resume(d, written, chunks, attempt) == Conversation(Ready, written + [d.upgradeReply], Rest(chunks))
  {
  }

  /** Anything else costs one attempt. */
  lemma MissStep(d: LineDialect, written: seq<Bytes>, chunks: seq<Bytes>, attempt: nat)
    requires WellFormed(d) && attempt < MaxAttempts && IsMiss(d, Read(chunks))
    ensures Resume(d, written, Rest(chunks), attempt + 1) == Resume(d, written, chunks, attempt)
  {
  }

  /** Once the attempts are used up the loop writes nothing more and fails. */
  lemma ExhaustedStep(d: LineDialect, written: seq<Bytes>, chunks: seq<Bytes>)
    requires WellFormed(d)
    ensures Resume(d, written, chunks, MaxAttempts) == Conversation(Failed, written, chunks)
  {
  }

  /** Greeting first, then the loop from attempt 0. */
  lemma ResumeAfterGreeting(d: LineDialect, written: seq<Bytes>, chunks: seq<Bytes>)
    requires WellFormed(d)
    ensures var c := LineConversation(d, chunks);
            Resume(d, written + [d.greeting], chunks, 0) == Conversation(c.outcome, written + c.written, c.rest)
  {
    var c := LineLoop(d, chunks, 0);
    ConcatAssoc(written, [d.greeting], c.written);
  }

  /** A whole line-oriented handler: the greeting, then the loop from attempt 0. */
  function LineConversation(d: LineDialect, chunks: seq<Bytes>): (r: Conversation)
    requires WellFormed(d)
    ensures r.written != [] && r.written[0] == d.greeting
    ensures r.outcome == Ready <==> Last(r.written) == d.upgradeReply
    ensures r.outcome == Failed ==> d.upgradeReply !in r.written
    ensures IsSuffix(r.rest, chunks)
  {
    LoopEnding(d, chunks, 0);
    var c := LineLoop(d, chunks, 0);
    Conversation(c.outcome, [d.greeting] + c.written, c.rest)
  }

  /** A read that falls through to `attempt++`. */
  predicate IsMiss(d: LineDialect, data: Bytes)
  {
    !d.capability(data) && data != d.upgrade
  }

  /** How many of the chunks fall through to `attempt++`. */
  function Misses(d: LineDialect, chunks: seq<Bytes>): nat
  {
    if chunks == [] then 0
    else (if IsMiss(d, chunks[0]) then 1 else 0) + Misses(d, chunks[1..])
  }

  /** Some chunk is the upgrade command and fewer than the remaining attempts'
      worth of non-matching chunks come before it. */
  predicate UpgradeInTime(d: LineDialect, chunks: seq<Bytes>, attempt: nat)
  {
    exists i :: 0 <= i < |chunks| && chunks[i] == d.upgrade && attempt + Misses(d, chunks[..i]) < MaxAttempts
  }

  /** `n` copies of one chunk. */
  function Repeat(x: Bytes, n: nat): (r: seq<Bytes>)
    ensures |r| == n && forall i :: 0 <= i < n ==> r[i] == x
  {
    if n == 0 then [] else [x] + Repeat(x, n - 1)
  }

  /** `n` capability replies, one after another. */
  function Replies(d: LineDialect, n: nat): seq<Bytes>
  {
    if n == 0 then [] else d.capabilityReply + Replies(d, n - 1)
  }

  lemma MissesOfCons(d: LineDialect, chunks: seq<Bytes>, i: nat)
    requires 0 < i <= |chunks|
    ensures Misses(d, chunks[..i]) == (if IsMiss(d, chunks[0]) then 1 else 0) + Misses(d, chunks[1..][..i - 1])
  {
    assert chunks[..i][1..] == chunks[1..][..i - 1];
  }

  /** The loop ends Ready exactly when the upgrade command arrives before the
      attempts run out. */
  lemma {:induction false} ReadyIffUpgradeInTime(d: LineDialect, chunks: seq<Bytes>, attempt: nat)
    requires WellFormed(d) && attempt <= MaxAttempts
    ensures LineLoop(d, chunks, attempt).outcome == Ready <==> UpgradeInTime(d, chunks, attempt)
    decreases |chunks|, MaxAttempts - attempt
  {
    if attempt >= MaxAttempts {
    } else if chunks == [] {
      ReadyIffUpgradeInTime(d, chunks, attempt + 1);
    } else {
      var x, t := chunks[0], chunks[1..];
      if x == d.upgrade {
        assert chunks[..0] == [];
        assert UpgradeInTime(d, chunks, attempt);
      } else {
        var next := if d.capability(x) then attempt else attempt + 1;
        ReadyIffUpgradeInTime(d, t, next);
        if UpgradeInTime(d, chunks, attempt) {
          var i :| 0 <= i < |chunks| && chunks[i] == d.upgrade && attempt + Misses(d, chunks[..i]) < MaxAttempts;
          MissesOfCons(d, chunks, i);
          assert t[i - 1] == d.upgrade;
          assert UpgradeInTime(d, t, next);
        }
        if UpgradeInTime(d, t, next) {
          var j :| 0 <= j < |t| && t[j] == d.upgrade && next + Misses(d, t[..j]) < MaxAttempts;
          MissesOfCons(d, chunks, j + 1);
          assert chunks[j + 1] == d.upgrade;
          assert UpgradeInTime(d, chunks, attempt);
        }
      }
    }
  }

  /** Capability queries cost no attempt: any number of them ahead of the rest
      of the script only prefixes one reply each and changes nothing else. */
  lemma {:induction false} CapabilityQueriesAreFree(d: LineDialect, queries: seq<Bytes>, chunks: seq<Bytes>, attempt: nat)
    requires WellFormed(d) && attempt < MaxAttempts
    requires forall i :: 0 <= i < |queries| ==> d.capability(queries[i])
    ensures var c := LineLoop(d, chunks, attempt);
            LineLoop(d, queries + chunks, attempt) == Conversation(c.outcome, Replies(d, |queries|) + c.written, c.rest)
  {
    if queries != [] {
      var t := queries[1..];
      assert (queries + chunks)[0] == queries[0];
      assert Rest(queries + chunks) == t + chunks;
      CapabilityQueriesAreFree(d, t, chunks, attempt);
      var c := LineLoop(d, chunks, attempt);
      var c1 := LineLoop(d, t + chunks, attempt);
      assert LineLoop(d, queries + chunks, attempt) == Conversation(c1.outcome, d.capabilityReply + c1.written, c1.rest);
      ConcatAssoc(d.capabilityReply, Replies(d, |t|), c.written);
    } else {
      assert queries + chunks == chunks;
    }
  }

  /** Every chunk falls through to `attempt++` exactly when the miss count is the length. */
  lemma {:induction false} AllMisses(d: LineDialect, chunks: seq<Bytes>)
    ensures Misses(d, chunks) == |chunks| <==> forall x :: x in chunks ==> IsMiss(d, x)
  {
    if chunks != [] {
      AllMisses(d, chunks[1..]);
      assert Misses(d, chunks[1..]) <= |chunks[1..]| by { MissesAtMostLength(d, chunks[1..]); }
      assert forall x :: x in chunks <==> x == chunks[0] || x in chunks[1..];
    }
  }

  lemma {:induction false} MissesAtMostLength(d: LineDialect, chunks: seq<Bytes>)
    ensures Misses(d, chunks) <= |chunks|
  {
    if chunks != [] {
      MissesAtMostLength(d, chunks[1..]);
    }
  }

  /** How many of the chunks are capability queries. */
  function Queries(d: LineDialect, chunks: seq<Bytes>): nat
  {
    if chunks == [] then 0
    else (if d.capability(chunks[0]) then 1 else 0) + Queries(d, chunks[1..])
  }

  /** Everything the loop writes is one capability reply per capability query it
      consumed, followed by the upgrade reply exactly when it ends Ready: a Failed
      loop writes nothing but capability replies. */
  lemma {:induction false} LoopWrites(d: LineDialect, chunks: seq<Bytes>, attempt: nat)
    requires WellFormed(d) && attempt <= MaxAttempts
    ensures var r := LineLoop(d, chunks, attempt);
            && Queries(d, r.rest) <= Queries(d, chunks)
            && r.written == Replies(d, Queries(d, chunks) - Queries(d, r.rest))
                            + (if r.outcome == Ready then [d.upgradeReply] else [])
    decreases |chunks|, MaxAttempts - attempt
  {
    if attempt >= MaxAttempts {
    } else if chunks == [] {
      LoopWrites(d, chunks, attempt + 1);
    } else if d.capability(chunks[0]) {
      var t := chunks[1..];
      LoopWrites(d, t, attempt);
      var c := LineLoop(d, t, attempt);
      var n := Queries(d, t) - Queries(d, c.rest);
      ConcatAssoc(d.capabilityReply, Replies(d, n), if c.outcome == Ready then [d.upgradeReply] else []);
    } else if chunks[0] == d.upgrade {
      assert Replies(d, 0) == [];
    } else {
      LoopWrites(d, chunks[1..], attempt + 1);
    }
  }

  /** A Ready loop stops reading right after the upgrade command: with `before`
      holding no upgrade command and fewer misses than the attempts left, the
      loop answers the queries in `before`, writes the upgrade reply and leaves
      everything after the upgrade command unread. */
  lemma {:induction false} UpgradeEndsReading(d: LineDialect, before: seq<Bytes>, after: seq<Bytes>, attempt: nat)
    requires WellFormed(d) && attempt + Misses(d, before) < MaxAttempts && d.upgrade !in before
    ensures LineLoop(d, before + [d.upgrade] + after, attempt)
            == Conversation(Ready, Replies(d, Queries(d, before)) + [d.upgradeReply], after)
    decreases |before|
  {
    var chunks := before + [d.upgrade] + after;
    if before == [] {
      assert chunks == [d.upgrade] + after;
      assert Read(chunks) == d.upgrade && Rest(chunks) == after;
    } else {
      var t := before[1..];
      assert Read(chunks) == before[0];
      assert Rest(chunks) == t + [d.upgrade] + after;
      if d.capability(before[0]) {
        UpgradeEndsReading(d, t, after, attempt);
        ConcatAssoc(d.capabilityReply, Replies(d, Queries(d, t)), [d.upgradeReply]);
      } else {
        UpgradeEndsReading(d, t, after, attempt + 1);
      }
    }
  }

  /** The attempt counter never passes 16: the chunks the loop consumed (the
      script less the suffix it left unread) hold at most the remaining attempts'
      worth of non-matching reads, and a Failed loop that stopped before the end
      of the script used up exactly that many. */
  lemma {:induction false} AttemptBudget(d: LineDialect, chunks: seq<Bytes>, attempt: nat)
    requires WellFormed(d) && attempt <= MaxAttempts
    ensures var r := LineLoop(d, chunks, attempt);
            && Misses(d, chunks) - Misses(d, r.rest) <= MaxAttempts - attempt
            && (r.outcome == Failed && r.rest != [] ==> Misses(d, chunks) - Misses(d, r.rest) == MaxAttempts - attempt)
    decreases |chunks|, MaxAttempts - attempt
  {
    if attempt >= MaxAttempts {
    } else if chunks == [] {
      AttemptBudget(d, chunks, attempt + 1);
    } else if d.capability(chunks[0]) {
      AttemptBudget(d, chunks[1..], attempt);
    } else if chunks[0] == d.upgrade {
      MissesAtMostLength(d, chunks[1..]);
    } else {
      AttemptBudget(d, chunks[1..], attempt + 1);
    }
  }

  /** A peer that never queries capabilities and never sends the upgrade command
      gets no reply at all and the loop fails after the remaining attempts. */
  lemma {:induction false} UnansweredPeerFails(d: LineDialect, chunks: seq<Bytes>, attempt: nat)
    requires WellFormed(d) && attempt <= MaxAttempts
    requires Misses(d, chunks) == |chunks|
    ensures var used := if |chunks| < MaxAttempts - attempt then |chunks| else MaxAttempts - attempt;
            LineLoop(d, chunks, attempt) == Conversation(Failed, [], chunks[used..])
    decreases |chunks|, MaxAttempts - attempt
  {
    if attempt >= MaxAttempts {
    } else if chunks == [] {
      UnansweredPeerFails(d, chunks, attempt + 1);
    } else {
      var t := chunks[1..];
      MissesAtMostLength(d, t);
      assert IsMiss(d, Read(chunks));
      assert LineLoop(d, chunks, attempt) == LineLoop(d, t, attempt + 1);
      UnansweredPeerFails(d, t, attempt + 1);
      var used := if |t| < MaxAttempts - (attempt + 1) then |t| else MaxAttempts - (attempt + 1);
      assert t[used..] == chunks[used + 1..];
    }
  }


}
