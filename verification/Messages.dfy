/** What a queued email says: the message that its session's client has sent since the last reset, for a
    relayed one behind the two headers that tell its way. */
module Messages {
  import opened Text
  import opened Uuid
  import opened Schema
  import opened Panel
  import opened Cache
  import opened Router
  import opened Sessions
  import opened Agreement
  import opened Runs
  import opened Staleness
  import opened Bounces

  // ---------------------------------------------------------------- what a client has said

  /** A new transaction begins: the session is opened, or reset. */
  predicate Starts(e: Event, sid: int) {
    (e.Connect? || e.Rset?) && e.sid == sid
  }

  /** The bodies of the session's DATA commands since its transaction began, one after the other. */
  function Said(es: seq<Event>, sid: int): string {
    if es == [] then ""
    else
      var before, e := Said(es[..|es| - 1], sid), es[|es| - 1];
      if Starts(e, sid) then "" else if e.SendData? && e.sid == sid then before + e.data.body else before
  }

  /** The sender of the last MAIL of the transaction that was accepted: the peer has an address, and its
      SPF check does not fail. */
  function Claimed(es: seq<Event>, sid: int): string {
    if es == [] then ""
    else
      var before, e := Claimed(es[..|es| - 1], sid), es[|es| - 1];
      if Starts(e, sid) then ""
      else if e.MailFrom? && e.sid == sid && e.tcp && !e.spfFail then e.from
      else before
  }

  /** The transaction has had no DATA yet. */
  predicate Unsent(es: seq<Event>, sid: int) {
    es == [] ||
    var e := es[|es| - 1];
    Starts(e, sid) || (!(e.SendData? && e.sid == sid) && Unsent(es[..|es| - 1], sid))
  }

  /** A session that is not yet open has said nothing. */
  predicate Heard(s: System, es: seq<Event>, sid: int) {
    sid in s.sessions ==>
      && s.sessions[sid].message == Said(es, sid)
      && (Unsent(es, sid) ==> s.sessions[sid].from == Claimed(es, sid))
  }

  lemma StepHeard(m: Matcher, s: System, es: seq<Event>, e: Event, sid: int)
    requires Consistent(s) && Feasible(s, e) && Typed(s.world.c) && Heard(s, es, sid)
    ensures Heard(Step(m, s, e), es + [e], sid)
  {
    hide Consistent, Rcpt, Data, Handle, Possible, AliasRows, DestinationRows, IsBounce, ReturnId, Typed;
    assert (es + [e])[..|es|] == es;
    if e.RcptTo? && e.sid == sid {
      AcceptedLeaves(m, s.world, s.now, s.sessions[sid], e.to, e.rcpt);
    }
    if e.SendData? && e.sid == sid {
      DataKeeps(s.world, s.now, s.sessions[sid], e.data);
    }
  }

  /** Along every run, what a session holds is what its client has said since the last reset. */
  lemma {:induction false} RunHeard(m: Matcher, tr: seq<System>, es: seq<Event>, n: nat, sid: int)
    requires Run(m, tr, es) && n < |tr|
    ensures Heard(tr[n], es[..n], sid)
  {
    hide Consistent, Step, Feasible, Heard;
    if n == 0 {
      assert Heard(START, [], sid) by { StartHeard(sid); }
      assert es[..0] == [];
    } else {
      RunHeard(m, tr, es, n - 1, sid);
      OneStep(m, tr, es, n - 1);
      ConsistentTyped(tr[n - 1]);
      StepHeard(m, tr[n - 1], es[..n - 1], es[n - 1], sid);
      assert es[..n] == es[..n - 1] + [es[n - 1]];
    }
  }

  lemma StartHeard(sid: int)
    ensures Heard(START, [], sid)
  {
  }

  /** A DATA with no other since the reset says its own body and nothing of what went before. */
  lemma SaidAfresh(es: seq<Event>, sid: int, i: nat, n: nat)
    requires i < n < |es| && Starts(es[i], sid) && es[n].SendData? && es[n].sid == sid
    requires forall j :: i < j < n ==> !(es[j].SendData? && es[j].sid == sid)
    ensures Said(es[..n + 1], sid) == es[n].data.body
  {
    SaidNothing(es, sid, i, n);
    assert es[..n + 1][..n] == es[..n];
  }

  lemma {:induction false} SaidNothing(es: seq<Event>, sid: int, i: nat, n: nat)
    requires i < n <= |es| && Starts(es[i], sid)
    requires forall j :: i < j < n ==> !(es[j].SendData? && es[j].sid == sid)
    ensures Said(es[..n], sid) == "" && Unsent(es[..n], sid)
    decreases n
  {
    assert es[..n][..n - 1] == es[..n - 1];
    if i < n - 1 {
      SaidNothing(es, sid, i, n - 1);
    }
  }

  // ---------------------------------------------------------------- the text that is signed

  /** A Return-Path header with the path, one Received header that names host, reverse name, address,
      server, id and recipient, and then the message. */
  ghost predicate Traced(text: string, w: Wire, rdns: string, path: string, id: Uuid, address: string, message: string)
  {
    exists date: string ::
      var head := "Return-Path: <" + path + ">\r\n";
      var trace :=
        "Received: from " + w.hostname + " (" + rdns + " [" + w.ip + "]) by " + w.serverName + " with ESMTP id " +
        Print(id) + " for <" + address + ">;" + w.tls + "\r\n\t" + date + "\r\n";
      text == head + trace + message
  }

  lemma FinalTraced(w: Wire, rdns: string, s: Session, path: string, d: Destination, k: nat)
    ensures Traced(Final(w, rdns, s, path, d, k), w, rdns, path, s.id, d.address, s.message)
  {
    var head, trace := ReturnPathHeader(path), ReceivedHeader(w, rdns, s.id, d.address, k);
    var date := w.dates(k);
    assert Final(w, rdns, s, path, d, k) == head + trace + s.message;
  }

  /** What the envelope of a relayed copy says: from whom, by way of which recipient, to whom. */
  predicate Addressed(q: Email, s: Session, sender: string, d: Destination) {
    && q.id == s.id && q.from == sender && q.via == s.to && q.to == d.address && q.destination == d.id
    && q.domain == s.domain.id && q.account == s.domain.account && q.alias == s.alias.id && q.bounce == ""
  }

  /** The k-th signature is over a text that is traced and ends in the message. */
  ghost predicate SignedOver(w: Wire, k: nat, q: Email, rdns: string, message: string) {
    exists text :: w.sign(k, text) == Some(q.message) && Traced(text, w, rdns, q.returnPath, q.id, q.to, message)
  }

  /** Each copy of a fan-out is signed over its own headers and the whole message. */
  lemma QueuedSays(w: Wire, rdns: string, s: Session, path: string, ds: seq<Destination>)
    ensures var q := Queued(w, rdns, s, path, ds, 0);
            && |q| <= |ds|
            && forall i :: 0 <= i < |q| ==>
                 && q[i].returnPath == path && Addressed(q[i], s, s.from, ds[i])
                 && SignedOver(w, i, q[i], rdns, s.message)
  {
    hide Final, Traced;
    FanOutConserves(w, rdns, s, path, ds, 0);
    var q := Queued(w, rdns, s, path, ds, 0);
    forall i | 0 <= i < |q|
      ensures Addressed(q[i], s, s.from, ds[i]) && q[i].returnPath == path
      ensures SignedOver(w, i, q[i], rdns, s.message)
    {
      FinalTraced(w, rdns, s, path, ds[i], i);
    }
  }

  lemma RelaySays(w: World, now: int, s: Session, e: RelayEnv)
    requires Typed(w.c)
    ensures var r, name := Relay(w, now, s, e), GetRdns(w.c, now, e.wire.ip, e.rdns).answer;
            && |w.outbox| <= |r.world.outbox| && r.world.outbox[..|w.outbox|] == w.outbox
            && forall i :: |w.outbox| <= i < |r.world.outbox| ==>
                 && name.Some? && e.header.Some? && Targets(w, now, s, e).Some?
                 && i - |w.outbox| < |Targets(w, now, s, e).value|
                 && Addressed(r.world.outbox[i], s, e.header.value, Targets(w, now, s, e).value[i - |w.outbox|])
                 && SignedOver(e.wire, i - |w.outbox|, r.world.outbox[i], name.value, s.message)
  {
    hide GetDestinations, GetRdns, MakeReturnPath, Typed, Queued, SignedOver;
    var r := Relay(w, now, s, e);
    if r.world.outbox != w.outbox {
      var rd, p := GetRdns(w.c, now, e.wire.ip, e.rdns), MakeReturnPath(w.db, s, e.insertFault);
      QueuedSays(e.wire, rd.answer.value, s.(from := e.header.value), p.answer.value, Targets(w, now, s, e).value);
    }
  }

  /** Every email that a relay queues, in any run, is signed over the return path that was stored, a
      Received header that names the peer as it was looked up at most one TTL ago, and exactly what the
      session's client has said since the last reset. It is from the sender in the message's header, by
      way of the recipient. */
  lemma RelayedText(m: Matcher, tr: seq<System>, es: seq<Event>, n: nat)
    requires Run(m, tr, es) && n < |es| && es[n].SendData?
    requires es[n].sid in tr[n].sessions && !tr[n].sessions[es[n].sid].returnPath
    ensures Typed(tr[n].world.c)
    ensures var a, b, s, e := tr[n].world.outbox, tr[n + 1].world.outbox, tr[n].sessions[es[n].sid], es[n].data;
            && |a| <= |b| && b[..|a|] == a
            && forall i :: |a| <= i < |b| ==>
                 && Some(b[i].returnPath) == Issued(tr[n].world, tr[n].now, s, e)
                 && Some(b[i].from) == e.relay.header && b[i].via == s.to && b[i].id == s.id
                 && exists name :: && LookedUp(tr, es, n, e.relay.wire.ip, name)
                                   && SignedOver(e.relay.wire, i - |a|, b[i], name, Said(es[..n + 1], es[n].sid))
  {
    hide Consistent, Relay, Issued, SignedOver, LookedUp, GetRdns, Targets, Said, Heard;
    OneStep(m, tr, es, n);
    ConsistentTyped(tr[n]);
    var w, now, s, e := tr[n].world, tr[n].now, tr[n].sessions[es[n].sid], es[n].data;
    RelayNeedsPath(w, now, s, e);
    RdnsStale(m, tr, es, n);
    HeardBefore(m, tr, es, n);
    var s1 := s.(message := s.message + e.body);
    RelaySays(w, now, s1, e.relay);
    var a, b := w.outbox, tr[n + 1].world.outbox;
    assert b == a || b == Relay(w, now, s1, e.relay).world.outbox;
    var name := GetRdns(w.c, now, e.relay.wire.ip, e.relay.rdns).answer;
    forall i | |a| <= i < |b|
      ensures name.Some? && SignedOver(e.relay.wire, i - |a|, b[i], name.value, Said(es[..n + 1], es[n].sid))
      ensures Some(b[i].from) == e.relay.header && b[i].via == s.to
    {
      assert b[i] == Relay(w, now, s1, e.relay).world.outbox[i];
    }
  }

  /** What a DATA has for its message. */
  lemma HeardBefore(m: Matcher, tr: seq<System>, es: seq<Event>, n: nat)
    requires Run(m, tr, es) && n < |es| && es[n].SendData? && es[n].sid in tr[n].sessions
    ensures tr[n].sessions[es[n].sid].message + es[n].data.body == Said(es[..n + 1], es[n].sid)
    ensures Unsent(es[..n], es[n].sid) ==> tr[n].sessions[es[n].sid].from == Claimed(es[..n], es[n].sid)
  {
    hide Next;
    RunHeard(m, tr, es, n, es[n].sid);
    assert es[..n + 1][..n] == es[..n];
  }

  /** The first DATA of a transaction stores the sender that its MAIL named as the address to return to. */
  lemma StoredSender(m: Matcher, tr: seq<System>, es: seq<Event>, n: nat)
    requires Run(m, tr, es) && n < |es| && es[n].SendData? && es[n].sid in tr[n].sessions
    requires Typed(tr[n].world.c) && Unsent(es[..n], es[n].sid)
    requires Issued(tr[n].world, tr[n].now, tr[n].sessions[es[n].sid], es[n].data).Some?
    ensures var db, id := tr[n + 1].world.db, tr[n].sessions[es[n].sid].id;
            id in db.returnPaths && db.returnPaths[id].returnTo == Claimed(es[..n], es[n].sid)
  {
    hide Consistent, Issued, Data, Typed, Claimed, Unsent;
    OneStep(m, tr, es, n);
    HeardBefore(m, tr, es, n);
    IssuedRow(tr[n].world, tr[n].now, tr[n].sessions[es[n].sid], es[n].data);
  }

  /** A bounce carries what the client has said since the last reset, unsigned and as it is, from the
      sender that its first DATA's MAIL named. */
  lemma BouncedText(m: Matcher, tr: seq<System>, es: seq<Event>, n: nat)
    requires Run(m, tr, es) && n < |es| && es[n].SendData? && Passes(es[n].data)
    requires es[n].sid in tr[n].sessions && tr[n].sessions[es[n].sid].returnPath
    ensures var a, b, s := tr[n].world.outbox, tr[n + 1].world.outbox, tr[n].sessions[es[n].sid];
            && |b| == |a| + 1 && b[..|a|] == a
            && b[|a|].message == Said(es[..n + 1], es[n].sid)
            && b[|a|].to == s.to && b[|a|].via == s.via && b[|a|].returnPath == ""
            && (Unsent(es[..n], es[n].sid) ==> b[|a|].from == Claimed(es[..n], es[n].sid))
  {
    hide Consistent, Relay, Said, Claimed, Unsent;
    OneStep(m, tr, es, n);
    ConsistentTyped(tr[n]);
    HeardBefore(m, tr, es, n);
  }

  /** MAIL is accepted from a peer with an address whose SPF check does not fail, and from no other. */
  lemma MailAccepts(s: Session, from: string, tcp: bool, spfFail: bool)
    ensures var r := Mail(s, from, tcp, spfFail);
            && (r.1 <==> tcp && !spfFail)
            && r.0 == s.(from := if tcp && !spfFail then from else s.from)
  {
  }

  /** What the filter holds for spam, or cannot judge, goes nowhere, relayed or bounced. */
  lemma SpamStays(w: World, now: int, s: Session, e: DataEnv)
    requires Typed(w.c) && (e.readFails || e.spamFails || e.spam)
    ensures var r := Data(w, now, s, e); !r.ok && r.world == w
  {
    hide Relay;
  }

  // ---------------------------------------------------------------- whose recipient

  lemma StartClears(m: Matcher, s: System, e: Event, sid: int)
    requires Consistent(s) && Feasible(s, e) && Typed(s.world.c) && Starts(e, sid)
    ensures sid in Step(m, s, e).sessions
    ensures Step(m, s, e).sessions[sid].to == "" && !Step(m, s, e).sessions[sid].returnPath
  {
    hide Consistent;
  }

  lemma StepOpens(m: Matcher, s: System, e: Event, sid: int)
    requires Feasible(s, e) && Typed(s.world.c) && sid !in s.sessions && !Starts(e, sid)
    ensures sid !in Step(m, s, e).sessions
  {
    hide Rcpt, Data, Handle, Possible, AliasRows, DestinationRows, Typed;
  }

  /** The recipient that a session has was accepted in the transaction it is in, and is what the last
      accepted RCPT left. */
  lemma {:induction false} RecipientOfTransaction(m: Matcher, tr: seq<System>, es: seq<Event>, n: nat, sid: int)
    returns (k: nat)
    requires Run(m, tr, es) && n < |tr| && sid in tr[n].sessions && tr[n].sessions[sid].to != ""
    ensures k < n && AcceptedBy(m, tr[k], es[k], sid) && sid in tr[k + 1].sessions
    ensures forall j | k < j < n :: !AcceptedBy(m, tr[j], es[j], sid)
    ensures forall j | k <= j < n :: !Starts(es[j], sid)
    ensures var s, t := tr[n].sessions[sid], tr[k + 1].sessions[sid];
            && (s.to, s.id) == Left(tr[k], es[k])
            && s.alias == t.alias && s.domain == t.domain && s.via == t.via && s.returnPath == t.returnPath
  {
    hide Consistent, AcceptedBy, Step, Feasible, Left, Starts;
    assert n > 0 && tr[0] == START;
    var e := es[n - 1];
    OneStep(m, tr, es, n - 1);
    ConsistentTyped(tr[n - 1]);
    if Starts(e, sid) {
      StartClears(m, tr[n - 1], e, sid);
      assert false;
    }
    if sid !in tr[n - 1].sessions {
      StepOpens(m, tr[n - 1], e, sid);
      assert false;
    }
    assert !Resets(e, sid) by { RsetStarts(e, sid); }
    SessionStep(m, tr[n - 1], e, sid);
    if AcceptedBy(m, tr[n - 1], e, sid) {
      k := n - 1;
      AcceptedStarts(m, tr[n - 1], e, sid);
    } else {
      k := RecipientOfTransaction(m, tr, es, n - 1, sid);
    }
  }

  lemma RsetStarts(e: Event, sid: int)
    ensures Resets(e, sid) ==> Starts(e, sid)
  {
  }

  lemma AcceptedStarts(m: Matcher, s: System, e: Event, sid: int)
    requires AcceptedBy(m, s, e, sid)
    ensures !Starts(e, sid)
  {
  }

  ghost predicate TakesPath(m: Matcher, s: System, e: Event, sid: int) {
    AcceptedBy(m, s, e, sid) && IsBounce(s.world, s.now, e.to, e.rcpt)
  }

  ghost predicate TookPathAt(m: Matcher, tr: seq<System>, es: seq<Event>, n: nat, sid: int, k: nat)
    requires |tr| == |es| + 1 && k < n < |tr|
  {
    TakesPath(m, tr[k], es[k], sid) && forall j | k <= j < n :: !Starts(es[j], sid)
  }

  /** A return path was accepted as a recipient of the transaction that the session is in. */
  ghost predicate TookPath(m: Matcher, tr: seq<System>, es: seq<Event>, n: nat, sid: int)
    requires |tr| == |es| + 1 && n < |tr|
  {
    exists k | 0 <= k < n :: TookPathAt(m, tr, es, n, sid, k)
  }

  /** Only such a transaction ends in a bounce, and each does. */
  lemma {:induction false} FlagWhen(m: Matcher, tr: seq<System>, es: seq<Event>, n: nat, sid: int)
    requires Run(m, tr, es) && n < |tr| && sid in tr[n].sessions
    ensures |tr| == |es| + 1
    ensures tr[n].sessions[sid].returnPath <==> TookPath(m, tr, es, n, sid)
  {
    hide Consistent, TakesPath, Step, Feasible, Starts;
    if n > 0 {
      var e := es[n - 1];
      OneStep(m, tr, es, n - 1);
      ConsistentTyped(tr[n - 1]);
      if Starts(e, sid) {
        StartClears(m, tr[n - 1], e, sid);
      } else {
        if sid !in tr[n - 1].sessions {
          StepOpens(m, tr[n - 1], e, sid);
          assert false;
        }
        FlagWhen(m, tr, es, n - 1, sid);
        FlagStep(m, tr[n - 1], e, sid);
        TookPathStep(m, tr, es, n, sid);
      }
    }
  }

  lemma FlagStep(m: Matcher, s: System, e: Event, sid: int)
    requires Consistent(s) && Feasible(s, e) && Typed(s.world.c) && sid in s.sessions && !Starts(e, sid)
    ensures sid in Step(m, s, e).sessions
    ensures Step(m, s, e).sessions[sid].returnPath <==> s.sessions[sid].returnPath || TakesPath(m, s, e, sid)
  {
    hide Consistent, Rcpt, Handle, Possible, AliasRows, DestinationRows, Relay, IsBounce, ReturnId, Typed;
    if e.RcptTo? && e.sid == sid {
      AcceptedLeaves(m, s.world, s.now, s.sessions[sid], e.to, e.rcpt);
    }
    if e.SendData? && e.sid == sid {
      DataKeeps(s.world, s.now, s.sessions[sid], e.data);
    }
  }

  lemma TookPathStep(m: Matcher, tr: seq<System>, es: seq<Event>, n: nat, sid: int)
    requires |tr| == |es| + 1 && 0 < n < |tr| && !Starts(es[n - 1], sid)
    ensures TookPath(m, tr, es, n, sid) <==>
              TookPath(m, tr, es, n - 1, sid) || TakesPath(m, tr[n - 1], es[n - 1], sid)
  {
    hide TakesPath, Starts;
    var p := n - 1;
    forall k | 0 <= k < p
      ensures TookPathAt(m, tr, es, n, sid, k) <==> TookPathAt(m, tr, es, p, sid, k)
    {
    }
    assert TookPathAt(m, tr, es, n, sid, p) <==> TakesPath(m, tr[p], es[p], sid);
  }
}
