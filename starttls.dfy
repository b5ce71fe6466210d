/** The three STARTTLS handlers of src/libqsslcaudit/starttls.cpp, each run against a
    scripted socket and proved to do what the matching specification function says. */
module StartTls {
  import opened Bytes
  import opened Transport
  import opened Dialogue

  // FTP (AUTH TLS, RFC 4217 section 4; FEAT, RFC 2389 section 3)
  const FtpGreeting: Bytes := Ascii("220 ready.\r\n")
  const FtpFeat: Bytes := Ascii("FEAT\r\n")
  const FtpFeatHeader: Bytes := Ascii("211-Features supported:\r\n")
  const FtpFeatAuthTls: Bytes := Ascii("AUTH TLS\r\n")
  const FtpFeatEnd: Bytes := Ascii("211 End FEAT.\r\n")
  const FtpFeatures: seq<Bytes> := [FtpFeatHeader, FtpFeatAuthTls, FtpFeatEnd]
  const FtpAuthTls: Bytes := Ascii("AUTH TLS\r\n")
  const FtpAuthTlsOk: Bytes := Ascii("234 AUTH TLS successful.\r\n")

  // SMTP (STARTTLS keyword, RFC 3207 section 4)
  const SmtpGreeting: Bytes := Ascii("220 mail.example.org ESMTP service ready\r\n")
  const SmtpEhlo: Bytes := Ascii("EHLO ")
  const SmtpWelcome: Bytes := Ascii("250-mail.example.org " + "offers a warm hug of welcome\r\n")
  const SmtpOfferStartTls: Bytes := Ascii("250 STARTTLS\r\n")
  const SmtpExtensions: seq<Bytes> := [SmtpWelcome, SmtpOfferStartTls]
  const SmtpStartTls: Bytes := Ascii("STARTTLS\r\n")
  const SmtpGoAhead: Bytes := Ascii("220 Go ahead\r\n")

  // XMPP (STARTTLS negotiation, RFC 6120 section 5.4.2)
  const XmppStreamHeader: Bytes := Ascii("<stream:stream xmlns='jabber:client'")
  const XmppFeatures: Bytes := Ascii("<stream:stream xmlns:stream=" + "'http://etherx.jabber.org/streams'" + " xmlns='jabber:client' xml:lang='en'" + " version='1.0'><stream:features>" + "<starttls xmlns=" + "'urn:ietf:params:xml:ns:xmpp-tls'>" + "<required/></starttls>" + "</stream:features>")
  const XmppStartTls: Bytes := Ascii("<starttls xmlns=" + "'urn:ietf:params:xml:ns:xmpp-tls'>")
  const XmppProceed: Bytes := Ascii("<proceed xmlns=" + "'urn:ietf:params:xml:ns:xmpp-tls'/>")

  const FtpDialect: LineDialect := LineDialect(FtpGreeting, data => data == FtpFeat, FtpFeatures, FtpAuthTls, FtpAuthTlsOk)
  const SmtpDialect: LineDialect := LineDialect(SmtpGreeting, data => StartsWith(data, SmtpEhlo), SmtpExtensions, SmtpStartTls, SmtpGoAhead)

  lemma FtpDialectWellFormed()
    ensures WellFormed(FtpDialect)
  {
  }

  lemma SmtpDialectWellFormed()
    ensures WellFormed(SmtpDialect)
  {
    assert SmtpStartTls[0] != SmtpEhlo[0];
    assert SmtpGoAhead[1] != SmtpOfferStartTls[1];
  }

  /** What handleStartTlsFtp does with a script: `220 ready.` is written before
      anything is read, and `234 AUTH TLS successful.` is the last write of a Ready
      run and never written by a Failed one. */
  function Ftp(script: seq<Bytes>): (r: Conversation)
    ensures r.written != [] && r.written[0] == FtpGreeting
    ensures r.outcome == Ready <==> Last(r.written) == FtpAuthTlsOk
    ensures r.outcome == Failed ==> FtpAuthTlsOk !in r.written
    ensures IsSuffix(r.rest, script)
  {
    FtpDialectWellFormed();
    LineConversation(FtpDialect, script)
  }

  /** What handleStartTlsSmtp does with a script: the service-ready greeting comes
      first, and `220 Go ahead` is the last write of a Ready run and never written
      by a Failed one. */
  function Smtp(script: seq<Bytes>): (r: Conversation)
    ensures r.written != [] && r.written[0] == SmtpGreeting
    ensures r.outcome == Ready <==> Last(r.written) == SmtpGoAhead
    ensures r.outcome == Failed ==> SmtpGoAhead !in r.written
    ensures IsSuffix(r.rest, script)
  {
    SmtpDialectWellFormed();
    LineConversation(SmtpDialect, script)
  }

  /** handleStartTlsFtp: greet, then answer FEAT and wait for AUTH TLS, tolerating
      at most 16 reads that are neither. */
  method HandleStartTlsFtp(socket: ScriptedSocket) returns (outcome: Outcome)
    modifies socket
    ensures var c := Ftp(old(socket.pending));
            outcome == c.outcome && socket.written == old(socket.written) + c.written && socket.pending == c.rest
    ensures |old(socket.trace)| < |socket.trace| && socket.trace[|old(socket.trace)|] == Wr(FtpGreeting)
  {
    FtpDialectWellFormed();
    ghost var start := |socket.trace|;
    ghost var goal := Resume(FtpDialect, socket.written + [FtpGreeting], socket.pending, 0);
    ResumeAfterGreeting(FtpDialect, socket.written, socket.pending);
    var attempt := 0;

    socket.Write(FtpGreeting);

    while attempt < 16
      invariant 0 <= attempt <= MaxAttempts
      invariant Resume(FtpDialect, socket.written, socket.pending, attempt) == goal
      invariant start < |socket.trace| && socket.trace[start] == Wr(FtpGreeting)
      decreases |socket.pending|, MaxAttempts - attempt
    {
      ghost var written0, pending0 := socket.written, socket.pending;
      var readData := socket.ReadChunk();
      if readData == FtpFeat {
        socket.Write(FtpFeatHeader);
        socket.Write(FtpFeatAuthTls);
        socket.Write(FtpFeatEnd);
        assert socket.written == written0 + FtpFeatures;
        CapabilityStep(FtpDialect, written0, pending0, attempt);
      } else if readData == FtpAuthTls {
        socket.Write(FtpAuthTlsOk);
        UpgradeStep(FtpDialect, written0, pending0, attempt);
        break;
      } else {
        MissStep(FtpDialect, written0, pending0, attempt);
        attempt := attempt + 1;
      }
    }

    if attempt >= 16 {
      ExhaustedStep(FtpDialect, socket.written, socket.pending);
    }
    outcome := if attempt >= 16 then Failed else Ready;
  }

  /** handleStartTlsSmtp: greet, then answer any EHLO and wait for STARTTLS,
      tolerating at most 16 reads that are neither. */
  method HandleStartTlsSmtp(socket: ScriptedSocket) returns (outcome: Outcome)
    modifies socket
    ensures var c := Smtp(old(socket.pending));
            outcome == c.outcome && socket.written == old(socket.written) + c.written && socket.pending == c.rest
    ensures |old(socket.trace)| < |socket.trace| && socket.trace[|old(socket.trace)|] == Wr(SmtpGreeting)
  {
    SmtpDialectWellFormed();
    ghost var start := |socket.trace|;
    ghost var goal := Resume(SmtpDialect, socket.written + [SmtpGreeting], socket.pending, 0);
    ResumeAfterGreeting(SmtpDialect, socket.written, socket.pending);
    var attempt := 0;

    socket.Write(SmtpGreeting);

    while attempt < 16
      invariant 0 <= attempt <= MaxAttempts
      invariant Resume(SmtpDialect, socket.written, socket.pending, attempt) == goal
      invariant start < |socket.trace| && socket.trace[start] == Wr(SmtpGreeting)
      decreases |socket.pending|, MaxAttempts - attempt
    {
      ghost var written0, pending0 := socket.written, socket.pending;
      var readData := socket.ReadChunk();
      if StartsWith(readData, SmtpEhlo) {
        socket.Write(SmtpWelcome);
        socket.Write(SmtpOfferStartTls);
        assert socket.written == written0 + SmtpExtensions;
        CapabilityStep(SmtpDialect, written0, pending0, attempt);
      } else if readData == SmtpStartTls {
        socket.Write(SmtpGoAhead);
        UpgradeStep(SmtpDialect, written0, pending0, attempt);
        break;
      } else {
        MissStep(SmtpDialect, written0, pending0, attempt);
        attempt := attempt + 1;
      }
    }

    if attempt >= 16 {
      ExhaustedStep(SmtpDialect, socket.written, socket.pending);
    }
    outcome := if attempt >= 16 then Failed else Ready;
  }

  lemma ProceedIsNoFeatures()
    ensures XmppProceed != XmppFeatures
  {
    assert XmppProceed[1] != XmppFeatures[1];
  }

  /** What handleStartTlsXmpp does with a script: at most two reads and two writes;
      nothing is written unless the first read opens a client stream; `<proceed/>`
      follows the stream features exactly when the second read is the STARTTLS
      request, and only then is the outcome Ready. */
  function Xmpp(script: seq<Bytes>): (r: Conversation)
    ensures |r.written| <= 2 && IsSuffix(r.rest, script) && |script| - |r.rest| <= 2
    ensures r.written == [] <==> !StartsWith(Read(script), XmppStreamHeader)
    ensures r.outcome == Ready <==> r.written == [XmppFeatures, XmppProceed]
    ensures r.outcome == Failed ==> (r.written == [] || r.written == [XmppFeatures]) && XmppProceed !in r.written
    ensures r.outcome == Ready <==>
              StartsWith(Read(script), XmppStreamHeader) && StartsWith(Read(Rest(script)), XmppStartTls)
  {
    ProceedIsNoFeatures();
    if !StartsWith(Read(script), XmppStreamHeader) then
      Conversation(Failed, [], Rest(script))
    else if !StartsWith(Read(Rest(script)), XmppStartTls) then
      Conversation(Failed, [XmppFeatures], Rest(Rest(script)))
    else
      Conversation(Ready, [XmppFeatures, XmppProceed], Rest(Rest(script)))
  }

  /** handleStartTlsXmpp: read the stream header, offer STARTTLS as a required
      feature, read the STARTTLS request, tell the client to proceed. */
  method HandleStartTlsXmpp(socket: ScriptedSocket) returns (outcome: Outcome)
    modifies socket
    ensures var c := Xmpp(old(socket.pending));
            outcome == c.outcome && socket.written == old(socket.written) + c.written && socket.pending == c.rest
    ensures |old(socket.trace)| < |socket.trace| && socket.trace[|old(socket.trace)|].Rd?
  {
    var readData := socket.ReadChunk();

    if !StartsWith(readData, XmppStreamHeader) {
      return Failed;
    }

    socket.Write(XmppFeatures);

    readData := socket.ReadChunk();

    if !StartsWith(readData, XmppStartTls) {
      return Failed;
    }

    socket.Write(XmppProceed);

    return Ready;
  }

  // Properties of the FTP handler

  /** FTP ends Ready exactly when some read is AUTH TLS, byte for byte, and fewer
      than 16 reads before it were neither FEAT nor AUTH TLS. */
  lemma FtpReadyIffAuthTlsInTime(script: seq<Bytes>)
    ensures Ftp(script).outcome == Ready <==> UpgradeInTime(FtpDialect, script, 0)
  {
    FtpDialectWellFormed();
    ReadyIffUpgradeInTime(FtpDialect, script, 0);
  }

  /** FEAT costs no attempt: `k` FEAT queries ahead of a script only add `k`
      feature blocks right after the greeting. */
  lemma FtpFeatIsFree(k: nat, script: seq<Bytes>)
    ensures var c := Ftp(script);
            Ftp(Repeat(FtpFeat, k) + script) == Conversation(c.outcome, [FtpGreeting] + Replies(FtpDialect, k) + c.written[1..], c.rest)
  {
    FtpDialectWellFormed();
    var feats := Repeat(FtpFeat, k);
    CapabilityQueriesAreFree(FtpDialect, feats, script, 0);
    var c := LineLoop(FtpDialect, script, 0);
    var c2 := LineLoop(FtpDialect, feats + script, 0);
    assert Ftp(script) == Conversation(c.outcome, [FtpGreeting] + c.written, c.rest);
    assert Ftp(feats + script) == Conversation(c2.outcome, [FtpGreeting] + c2.written, c2.rest);
    ConcatAssoc([FtpGreeting], Replies(FtpDialect, k), c.written);
  }

  /** A Ready FTP run stops reading at AUTH TLS: whatever the peer sends after it
      (the TLS ClientHello) is left unread, and the writes are the greeting, one
      feature block per FEAT before it, and the 234 reply. */
  lemma FtpAuthTlsEndsReading(before: seq<Bytes>, after: seq<Bytes>)
    requires FtpAuthTls !in before && Misses(FtpDialect, before) < MaxAttempts
    ensures Ftp(before + [FtpAuthTls] + after) ==
            Conversation(Ready, [FtpGreeting] + Replies(FtpDialect, Queries(FtpDialect, before)) + [FtpAuthTlsOk], after)
  {
    FtpDialectWellFormed();
    var script := before + [FtpAuthTls] + after;
    UpgradeEndsReading(FtpDialect, before, after, 0);
    var c := LineLoop(FtpDialect, script, 0);
    assert Ftp(script) == Conversation(c.outcome, [FtpGreeting] + c.written, c.rest);
    ConcatAssoc([FtpGreeting], Replies(FtpDialect, Queries(FtpDialect, before)), [FtpAuthTlsOk]);
  }

  /** The ceiling of 16 bounds non-matching reads, not reads: after any number of
      FEATs, AUTH TLS still succeeds, so a peer that keeps sending FEAT keeps the
      handler reading. */
  lemma FtpFeatsNeverExhaust(n: nat)
    ensures Ftp(Repeat(FtpFeat, n) + [FtpAuthTls]).outcome == Ready
    ensures Ftp(Repeat(FtpFeat, n) + [FtpAuthTls]).rest == []
  {
    FtpDialectWellFormed();
    FtpFeatIsFree(n, [FtpAuthTls]);
    UpgradeEndsReading(FtpDialect, [], [], 0);
    assert [] + [FtpAuthTls] + [] == [FtpAuthTls];
  }

  /** FEAT then AUTH TLS: the greeting, the feature block advertising AUTH TLS,
      then the go-ahead as the last write. */
  lemma FtpFeatThenAuthTls()
    ensures Ftp([FtpFeat, FtpAuthTls]) ==
            Conversation(Ready, [FtpGreeting, FtpFeatHeader, FtpFeatAuthTls, FtpFeatEnd, FtpAuthTlsOk], [])
  {
    FtpDialectWellFormed();
    var script := [FtpFeat, FtpAuthTls];
    CapabilityStep(FtpDialect, [FtpGreeting], script, 0);
    UpgradeStep(FtpDialect, [FtpGreeting] + FtpFeatures, Rest(script), 0);
    ResumeAfterGreeting(FtpDialect, [], script);
  }

  /** Commands are not reassembled across reads: AUTH TLS split over two reads is
      two non-matching reads, and the handler fails having written only its greeting. */
  lemma FtpSplitAuthTlsFails()
    ensures Ftp([Ascii("AUTH "), Ascii("TLS\r\n")]) == Conversation(Failed, [FtpGreeting], [])
  {
    FtpDialectWellFormed();
    var script := [Ascii("AUTH "), Ascii("TLS\r\n")];
    AllMisses(FtpDialect, script);
    UnansweredPeerFails(FtpDialect, script, 0);
  }

  // Properties of the SMTP handler

  /** SMTP ends Ready exactly when some read is STARTTLS, byte for byte, and fewer
      than 16 reads before it neither began with EHLO nor were STARTTLS. */
  lemma SmtpReadyIffStartTlsInTime(script: seq<Bytes>)
    ensures Smtp(script).outcome == Ready <==> UpgradeInTime(SmtpDialect, script, 0)
  {
    SmtpDialectWellFormed();
    ReadyIffUpgradeInTime(SmtpDialect, script, 0);
  }

  /** EHLO, with any argument, costs no attempt: greetings ahead of a script only
      add one two-line extension block each right after the service greeting. */
  lemma SmtpEhloIsFree(hellos: seq<Bytes>, script: seq<Bytes>)
    requires forall i :: 0 <= i < |hellos| ==> StartsWith(hellos[i], SmtpEhlo)
    ensures var c := Smtp(script);
            Smtp(hellos + script) == Conversation(c.outcome, [SmtpGreeting] + Replies(SmtpDialect, |hellos|) + c.written[1..], c.rest)
  {
    SmtpDialectWellFormed();
    assert forall i :: 0 <= i < |hellos| ==> SmtpDialect.capability(hellos[i]);
    CapabilityQueriesAreFree(SmtpDialect, hellos, script, 0);
    var c := LineLoop(SmtpDialect, script, 0);
    var c2 := LineLoop(SmtpDialect, hellos + script, 0);
    assert Smtp(script) == Conversation(c.outcome, [SmtpGreeting] + c.written, c.rest);
    assert Smtp(hellos + script) == Conversation(c2.outcome, [SmtpGreeting] + c2.written, c2.rest);
    ConcatAssoc([SmtpGreeting], Replies(SmtpDialect, |hellos|), c.written);
  }

  /** A peer that never says EHLO or STARTTLS hears nothing but the greeting, and
      the handler fails. */
  lemma SmtpSilentPeerFails(script: seq<Bytes>)
    requires forall x :: x in script ==> !StartsWith(x, SmtpEhlo) && x != SmtpStartTls
    ensures Smtp(script).outcome == Failed && Smtp(script).written == [SmtpGreeting]
  {
    SmtpDialectWellFormed();
    AllMisses(SmtpDialect, script);
    UnansweredPeerFails(SmtpDialect, script, 0);
  }

  /** Sixteen NOOPs: only the greeting is written, and the handler fails having
      read all sixteen. */
  lemma SmtpSixteenNoopsFail()
    ensures Smtp(Repeat(Ascii("NOOP\r\n"), 16)) == Conversation(Failed, [SmtpGreeting], [])
  {
    SmtpDialectWellFormed();
    var noop := Ascii("NOOP\r\n");
    assert noop[0] != SmtpEhlo[0];
    AllMisses(SmtpDialect, Repeat(noop, 16));
    UnansweredPeerFails(SmtpDialect, Repeat(noop, 16), 0);
  }

  /** EHLO then STARTTLS: the greeting, the extension block offering STARTTLS,
      then the go-ahead as the last write. */
  lemma SmtpEhloThenStartTls()
    ensures Smtp([Ascii("EHLO client.example.org\r\n"), SmtpStartTls]) ==
            Conversation(Ready, [SmtpGreeting, SmtpWelcome, SmtpOfferStartTls, SmtpGoAhead], [])
  {
    SmtpDialectWellFormed();
    var hello := Ascii("EHLO client.example.org\r\n");
    var script := [hello, SmtpStartTls];
    assert hello[..5] == SmtpEhlo;
    CapabilityStep(SmtpDialect, [SmtpGreeting], script, 0);
    UpgradeStep(SmtpDialect, [SmtpGreeting] + SmtpExtensions, Rest(script), 0);
    ResumeAfterGreeting(SmtpDialect, [], script);
  }

  // Properties of the XMPP handler

  /** A first read that is not a client stream header fails at once with nothing written. */
  lemma XmppStrayStanzaFails()
    ensures Xmpp([Ascii("<iq/>")]) == Conversation(Failed, [], [])
  {
    assert Ascii("<iq/>")[1] != XmppStreamHeader[1];
  }

  lemma RequestIsNoStreamHeader()
    ensures !StartsWith(XmppStartTls, XmppStreamHeader)
  {
    assert XmppStartTls[3] != XmppStreamHeader[3];
  }

  /** The request must begin with the opening tag exactly as the handler spells
      it: the self-closing form of RFC 6120 section 5.4.2.1 does not match, and the
      run fails after the features. */
  lemma XmppSelfClosingRequestFails()
    ensures Xmpp([XmppStreamHeader, Ascii("<starttls xmlns=" + "'urn:ietf:params:xml:ns:xmpp-tls'/>")])
            == Conversation(Failed, [XmppFeatures], [])
  {
    var request := Ascii("<starttls xmlns=" + "'urn:ietf:params:xml:ns:xmpp-tls'/>");
    assert request[49] != XmppStartTls[49];
    assert XmppStreamHeader[..|XmppStreamHeader|] == XmppStreamHeader;
  }

  /** The STARTTLS request before the stream header fails with nothing written. */
  lemma XmppRequestBeforeHeaderFails()
    ensures Xmpp([XmppStartTls, XmppStreamHeader]) == Conversation(Failed, [], [XmppStreamHeader])
  {
    RequestIsNoStreamHeader();
    var script := [XmppStartTls, XmppStreamHeader];
    assert Read(script) == XmppStartTls && Rest(script) == [XmppStreamHeader];
  }

  /** A stream header and then silence: the features go out, `<proceed/>` does not. */
  lemma XmppMissingRequestFails()
    ensures Xmpp([XmppStreamHeader]) == Conversation(Failed, [XmppFeatures], [])
  {
  }

  /** Stream header, then the STARTTLS request: features, then `<proceed/>`, Ready. */
  lemma XmppHeaderThenRequest(to: Bytes)
    ensures Xmpp([XmppStreamHeader + to, XmppStartTls]) == Conversation(Ready, [XmppFeatures, XmppProceed], [])
  {
    assert (XmppStreamHeader + to)[..|XmppStreamHeader|] == XmppStreamHeader;
  }
}
