# qsslcaudit STARTTLS negotiation, modelled in Dafny

qsslcaudit tests TLS clients by acting as the server they connect to. For
protocols that start in plaintext and upgrade in place, it first plays the
protocol's plaintext STARTTLS exchange. Only then does it start the TLS
handshake on the same connection. This project models the three handlers that
play that exchange, all in `src/libqsslcaudit/starttls.cpp`:

- **FTP** (`handleStartTlsFtp`): writes `220 ready.`, then reads up to sixteen
  non-matching chunks. It answers each `FEAT` with a three-line feature block
  that advertises `AUTH TLS`. On `AUTH TLS` it writes
  `234 AUTH TLS successful.` and stops.
- **SMTP** (`handleStartTlsSmtp`): the same loop. The service-ready greeting
  comes first. Any chunk that *begins* with `EHLO ` gets a two-line extension
  block offering STARTTLS. An exact `STARTTLS` gets `220 Go ahead`.
- **XMPP** (`handleStartTlsXmpp`): it has no loop. The first chunk must begin
  with the client stream header, and the handler answers it with stream
  features that make STARTTLS required. The second chunk must begin with the
  STARTTLS request, and the handler answers it with `<proceed/>`. Any mismatch
  returns at once. The request must begin with the opening tag
  `<starttls xmlns='urn:ietf:params:xml:ns:xmpp-tls'>` exactly. The self-closing
  `<starttls .../>` form of RFC 6120 section 5.4.2.1 is therefore rejected.

Files:

- `bytes.dfy` (module `Bytes`): byte strings and prefix matching
  (`QByteArray`, `startsWith`).
- `transport.dfy` (module `Transport`): the socket as a class
  `ScriptedSocket`. Its `pending` field holds the chunks the peer will deliver,
  one per wait-then-read; an empty chunk is a read that timed out. Its
  `written` field logs every byte string the handler asked to send. A ghost
  `trace` field records every read and write in the order they were made.
  Once the script runs out, every further read is a timeout.
- `dialogue.dfy` (module `Dialogue`): the loop shared by FTP and SMTP, as the
  specification function `LineLoop`. It is parameterised by a `LineDialect`:
  the greeting, the capability-query test, the capability reply, the upgrade
  command and the upgrade reply. The module also holds the properties proved
  about that loop.
- `starttls.dfy` (module `StartTls`): the literals of the three protocols and
  the three handlers as imperative methods over a `ScriptedSocket`. Each method
  is proved to leave the socket exactly as its specification function (`Ftp`,
  `Smtp` or `Xmpp`) says. The module also holds the per-protocol properties.

The C++ handlers return nothing. They report success or failure only through
a log line. The model gives each handler an `Outcome`:

- For FTP and SMTP, `Failed` is the `attempt >= 16` test after the loop.
  `Ready` is every other case.
- For XMPP, the two early returns are `Failed` and the end of the function is
  `Ready`.

In XMPP, a STARTTLS request sent before the stream header fails at once with
nothing written, because the first chunk does not begin with the header
(`StartTls.XmppRequestBeforeHeaderFails`).

## Model

| member | source | states |
|---|---|---|
| Transport.ScriptedSocket.ReadChunk | src/libqsslcaudit/starttls.cpp:22-23 | Waiting and then reading everything yields the peer's next chunk and consumes it, or yields an empty chunk once the peer is silent. It writes nothing and records the read in the trace. |
| Transport.ScriptedSocket.Write | src/libqsslcaudit/starttls.cpp:19 | A write appends exactly one byte string to what the handler asked to send, and records the write in the trace. It consumes no input. Whether the transport accepted the bytes is not reported, since the handlers ignore the result of `write`. |
| Dialogue.LoopEnding | src/libqsslcaudit/starttls.cpp:21-34 | The loop ends Ready exactly when its last write is the upgrade reply. A Failed loop never writes the upgrade reply. The loop consumes chunks only from the front of the script. |
| Dialogue.CapabilityStep | src/libqsslcaudit/starttls.cpp:24-27 | A capability query is answered with the capability reply, and the loop goes on with the same attempt count. |
| Dialogue.UpgradeStep | src/libqsslcaudit/starttls.cpp:28-30 | The upgrade command is answered with the upgrade reply, which is the last write, and ends the loop Ready. |
| Dialogue.MissStep | src/libqsslcaudit/starttls.cpp:31-33 | Any other chunk, a timeout included, writes nothing and costs one attempt. |
| Dialogue.ExhaustedStep | src/libqsslcaudit/starttls.cpp:21 | At sixteen attempts the loop stops: it reads and writes nothing more and fails. |
| Dialogue.ResumeAfterGreeting | src/libqsslcaudit/starttls.cpp:19-21 | The greeting is written and the loop starts from attempt 0. |
| Dialogue.LineConversation | src/libqsslcaudit/starttls.cpp:19-36 | A whole line-oriented run writes its greeting first. It is Ready exactly when its last write is the upgrade reply. A Failed run never writes the upgrade reply. The run reads only from the front of the script. |
| Dialogue.ReadyIffUpgradeInTime | src/libqsslcaudit/starttls.cpp:21-36 | The loop ends Ready if and only if some chunk is the upgrade command and fewer than the remaining attempts' worth of non-matching chunks come before it. |
| Dialogue.CapabilityQueriesAreFree | src/libqsslcaudit/starttls.cpp:24-27 | Any number of capability queries in front of a script only add one capability reply each, ahead of what the script alone produces. Outcome and unread chunks are unchanged, so queries never use up the budget. |
| Dialogue.LoopWrites | src/libqsslcaudit/starttls.cpp:21-36 | Everything the loop writes is one capability reply per capability query it consumed, followed by the upgrade reply exactly when it ends Ready. So a Failed loop writes nothing but capability replies. |
| Dialogue.UpgradeEndsReading | src/libqsslcaudit/starttls.cpp:28-30 | Given a stretch with no upgrade command and fewer misses than the attempts left, followed by the upgrade command: the loop answers the queries in that stretch, writes the upgrade reply, ends Ready, and leaves everything after the upgrade command unread. |
| Dialogue.AttemptBudget | src/libqsslcaudit/starttls.cpp:21-36 | The attempt counter never passes 16: the consumed chunks hold at most the remaining attempts' worth of non-matching reads. A Failed loop that stopped before the end of the script used up exactly that many. |
| Dialogue.UnansweredPeerFails | src/libqsslcaudit/starttls.cpp:21-36 | If no chunk is a capability query or the upgrade command, the loop writes nothing, fails, and reads as many chunks as it has attempts left, or the whole script if that is shorter. |
| Dialogue.AllMisses | src/libqsslcaudit/starttls.cpp:31-33 | Every chunk falls through to the attempt counter exactly when the number of such chunks is the script's length. |
| Bytes.AsciiInjective | src/libqsslcaudit/starttls.cpp:24-29 | Two literals made of one-byte characters are the same byte string if and only if they are the same text, so the byte-level comparisons distinguish exactly the literals the source distinguishes. |
| StartTls.FtpDialectWellFormed | src/libqsslcaudit/starttls.cpp:24-29 | FTP's literals keep the branches apart. A timeout is not FEAT, AUTH TLS is not FEAT, and the 234 reply is neither the greeting nor part of the feature block. |
| StartTls.SmtpDialectWellFormed | src/libqsslcaudit/starttls.cpp:56-60 | SMTP's literals keep the branches apart. A timeout and STARTTLS do not begin with `EHLO `, and `220 Go ahead` is neither the greeting nor an extension line. |
| StartTls.Ftp | src/libqsslcaudit/starttls.cpp:12-41 | FTP's first write is `220 ready.`, before any other write. It is Ready exactly when `234 AUTH TLS successful.` is its last write. A Failed run never writes 234. It reads only from the front of the script. |
| StartTls.HandleStartTlsFtp | src/libqsslcaudit/starttls.cpp:12-41 | The imperative FTP handler's outcome, its writes and the chunks it leaves unread are exactly what `Ftp` of the incoming script says. Its first socket operation is writing `220 ready.`, before any read. |
| StartTls.Smtp | src/libqsslcaudit/starttls.cpp:43-72 | SMTP writes its service-ready greeting first. It is Ready exactly when `220 Go ahead` is its last write. A Failed run never writes it. It reads only from the front of the script. |
| StartTls.HandleStartTlsSmtp | src/libqsslcaudit/starttls.cpp:43-72 | The imperative SMTP handler's outcome, its writes and the chunks it leaves unread are exactly what `Smtp` of the incoming script says. Its first socket operation is writing the service-ready greeting, before any read. |
| StartTls.Xmpp | src/libqsslcaudit/starttls.cpp:74-103 | XMPP makes at most two reads and two writes. It writes nothing unless the first chunk begins with the client stream header. It is Ready exactly when it wrote the features and then `<proceed/>`, and exactly when both chunks begin with their expected prefixes. A Failed run never writes `<proceed/>`. |
| StartTls.HandleStartTlsXmpp | src/libqsslcaudit/starttls.cpp:74-103 | The imperative XMPP handler's outcome, its writes and the chunks it leaves unread are exactly what `Xmpp` of the incoming script says. Its first socket operation is a read. |
| StartTls.FtpReadyIffAuthTlsInTime | src/libqsslcaudit/starttls.cpp:21-36 | FTP is Ready if and only if some chunk is exactly `AUTH TLS` and fewer than sixteen chunks before it were neither FEAT nor AUTH TLS. |
| StartTls.FtpFeatIsFree | src/libqsslcaudit/starttls.cpp:24-27 | Any number of FEATs in front of a script only insert one feature block each, right after the greeting. Nothing else changes. |
| StartTls.FtpAuthTlsEndsReading | src/libqsslcaudit/starttls.cpp:28-30 | Given no AUTH TLS and fewer than sixteen misses before AUTH TLS: FTP writes the greeting, one feature block per FEAT, then 234, ends Ready, and leaves every chunk after AUTH TLS unread. |
| StartTls.FtpFeatsNeverExhaust | src/libqsslcaudit/starttls.cpp:21-33 | After any number of FEATs, AUTH TLS still makes the run Ready with every chunk read. The ceiling of 16 bounds non-matching reads, not reads. |
| StartTls.FtpFeatThenAuthTls | src/libqsslcaudit/starttls.cpp:19-30 | FEAT then AUTH TLS writes the greeting, the three feature lines, then 234 as the last write, and the run is Ready. |
| StartTls.FtpSplitAuthTlsFails | src/libqsslcaudit/starttls.cpp:22-33 | AUTH TLS split over two reads is not reassembled. The run writes only the greeting and fails. |
| StartTls.SmtpReadyIffStartTlsInTime | src/libqsslcaudit/starttls.cpp:53-67 | SMTP is Ready if and only if some chunk is exactly `STARTTLS` and fewer than sixteen chunks before it neither began with `EHLO ` nor were STARTTLS. |
| StartTls.SmtpEhloIsFree | src/libqsslcaudit/starttls.cpp:56-58 | Any number of chunks that begin with `EHLO `, whatever follows, only insert one two-line extension block each, right after the greeting. Nothing else changes. |
| StartTls.SmtpSilentPeerFails | src/libqsslcaudit/starttls.cpp:51-68 | A peer that never sends EHLO or STARTTLS receives only the greeting, and the run fails. |
| StartTls.SmtpSixteenNoopsFail | src/libqsslcaudit/starttls.cpp:53-67 | Sixteen NOOPs are all read. Only the greeting is written, and the run fails. |
| StartTls.SmtpEhloThenStartTls | src/libqsslcaudit/starttls.cpp:51-61 | An EHLO with an argument, then STARTTLS, writes the greeting, the extension block and then `220 Go ahead`, and the run is Ready. |
| StartTls.XmppStrayStanzaFails | src/libqsslcaudit/starttls.cpp:80-86 | A first chunk `<iq/>` fails at once with nothing written. |
| StartTls.XmppSelfClosingRequestFails | src/libqsslcaudit/starttls.cpp:91-97 | After the stream header, a self-closing `<starttls .../>` request does not match the expected opening tag. The run writes only the features and fails. |
| StartTls.XmppRequestBeforeHeaderFails | src/libqsslcaudit/starttls.cpp:80-86 | The STARTTLS request sent before the stream header fails at once with nothing written. The header that follows is left unread. |
| StartTls.XmppMissingRequestFails | src/libqsslcaudit/starttls.cpp:88-97 | A stream header and then silence gets the features but not `<proceed/>`, and the run fails. |
| StartTls.XmppHeaderThenRequest | src/libqsslcaudit/starttls.cpp:80-99 | A stream header with any attributes after the matched prefix, then the STARTTLS request, gets exactly the features and then `<proceed/>`, and the run is Ready. |

## Left out

- Socket timing: `waitForReadyRead(5000)` is not modelled as a clock. A read that times out is an empty chunk in the script, and the peer's delivery schedule is the script itself.
- `flush()` after the XMPP writes is left out: it changes nothing the handlers observe.
- Logging (`WHITE`/`RED` lines) is left out, including the XMPP success message that names FTP. The outcome value stands in for the two log messages.
- The TLS handshake that follows a Ready outcome is not part of this model, and neither is the rest of qsslcaudit (the server, the test suite and the callers that choose a handler).
- Errors of the transport itself (a closed or broken connection) become a timeout in the script, because `readAll` then returns nothing. A write that fails is still logged in `written`, since the handlers never look at what `write` returns.
- Runs that never end: only non-matching reads raise the attempt counter. A peer that sends `FEAT` (FTP) or an `EHLO ` line (SMTP) at least once per five-second wait therefore keeps the loop running for ever. A finite script cannot show a run that does not terminate. `StartTls.FtpFeatsNeverExhaust` and `StartTls.SmtpEhloIsFree` show that any number of such reads is accepted.
- Text is modelled as bytes. `Bytes.Ascii` keeps the low eight bits of each character, which is exact for the ASCII literals used here. There is no encoding or XML parsing, matching the source's plain byte comparisons.
