/** Return paths over whole runs: what one session prints, another reads back long after, and
    no id is ever given out twice. */
module Bounces {
  import opened Text
  import opened Uuid
  import opened Schema
  import opened Integrity
  import opened Panel
  import opened Cache
  import opened Router
  import opened Sessions
  import opened Agreement
  import opened Runs
  import opened Staleness

  // ---------------------------------------------------------------- issuing

  /** The return path that this DATA stores, if it comes that far. */
  function Issued(w: World, now: int, s: Session, e: DataEnv): Option<string>
    requires Typed(w.c)
  {
    if e.readFails || e.spamFails || e.spam || s.returnPath || !e.relay.tcp then None
    else if GetRdns(w.c, now, e.relay.wire.ip, e.relay.rdns).answer.None? then None
    else MakeReturnPath(w.db, s, e.relay.insertFault).answer
  }

  /** Issuing a return path stores the envelope sender under an id that had none. */
  lemma IssuedRow(w: World, now: int, s: Session, e: DataEnv)
    requires Typed(w.c) && Issued(w, now, s, e).Some?
    ensures var db := Data(w, now, s, e).world.db;
            && s.id !in w.db.returnPaths
            && s.id in db.returnPaths
            && db.returnPaths[s.id] == ReturnPath(s.domain.account, s.alias.id, s.from, false)
    ensures Issued(w, now, s, e) == ReturnPathText(s.to, s.id, s.domain.name)
  {
    hide ReturnPathText, GetRdns, GetDestinations, Queued, Typed;
  }

  /** Without a return path nothing is relayed; with one, every email queued carries it. */
  lemma RelayNeedsPath(w: World, now: int, s: Session, e: DataEnv)
    requires Typed(w.c) && !s.returnPath
    ensures var r := Data(w, now, s, e);
            && (Issued(w, now, s, e).None? ==> !r.ok && r.world.outbox == w.outbox && r.world.db == w.db)
            && |w.outbox| <= |r.world.outbox| && r.world.outbox[..|w.outbox|] == w.outbox
            && (forall i :: |w.outbox| <= i < |r.world.outbox| ==>
                  r.world.outbox[i].id == s.id && Some(r.world.outbox[i].returnPath) == Issued(w, now, s, e))
  {
    hide ReturnPathText, GetDestinations;
    var s1 := s.(message := s.message + e.body);
    var r := Data(w, now, s, e);
    if Issued(w, now, s, e).Some? && r.world.outbox != w.outbox {
      var rd := GetRdns(w.c, now, e.relay.wire.ip, e.relay.rdns);
      var ds := GetDestinations(rd.c, now, s.alias.id, e.relay.rows, e.relay.destinationFault).answer.value;
      FanOutConserves(e.relay.wire, rd.answer.value, s1.(from := e.relay.header.value), Issued(w, now, s, e).value,
                      ds, 0);
    }
  }

  /** No two relays of a run share an id, and the sender stored for an id never changes. */
  lemma IdsUsedOnce(m: Matcher, tr: seq<System>, es: seq<Event>, i: nat, n: nat)
    requires Run(m, tr, es) && i < n < |es| && es[i].SendData? && es[n].SendData?
    requires es[i].sid in tr[i].sessions && es[n].sid in tr[n].sessions
    ensures Typed(tr[i].world.c) && Typed(tr[n].world.c)
    ensures var s, t := tr[i].sessions[es[i].sid], tr[n].sessions[es[n].sid];
            Issued(tr[i].world, tr[i].now, s, es[i].data).Some? ==>
              && (Issued(tr[n].world, tr[n].now, t, es[n].data).Some? ==> t.id != s.id)
              && s.id in tr[n].world.db.returnPaths && tr[n].world.db.returnPaths[s.id].returnTo == s.from
  {
    hide Consistent, Issued, Data, Typed;
    OneStep(m, tr, es, i);
    OneStep(m, tr, es, n);
    ConsistentTyped(tr[i]);
    ConsistentTyped(tr[n]);
    RunGrows(m, tr, es, i + 1, n);
    var s, t := tr[i].sessions[es[i].sid], tr[n].sessions[es[n].sid];
    if Issued(tr[i].world, tr[i].now, s, es[i].data).Some? {
      IssuedRow(tr[i].world, tr[i].now, s, es[i].data);
      if Issued(tr[n].world, tr[n].now, t, es[n].data).Some? {
        IssuedRow(tr[n].world, tr[n].now, t, es[n].data);
      }
    }
  }

  // ---------------------------------------------------------------- spent sessions

  /** The session's id already has a return path: its own, or one that a bounce put in its place. */
  predicate Spent(s: System, sid: int) {
    sid in s.sessions && s.sessions[sid].id in s.world.db.returnPaths
  }

  lemma RcptId(m: Matcher, w: World, now: int, s: Session, to: string, e: RcptEnv)
    requires Typed(w.c)
    ensures var r := Rcpt(m, w, now, s, to, e); r.session.id == s.id || r.session.id in r.world.db.returnPaths
  {
    hide DetectDomain, DetectAlias, ReturnId, Typed;
  }

  lemma DataId(w: World, now: int, s: Session, e: DataEnv)
    requires Typed(w.c)
    ensures Data(w, now, s, e).session.id == s.id
  {
    hide GetDestinations, Queued, GetRdns, MakeReturnPath, Typed;
  }

  lemma StepSpent(m: Matcher, s: System, e: Event, sid: int)
    requires Consistent(s) && Feasible(s, e) && Spent(s, sid)
    ensures Typed(s.world.c) && Spent(Step(m, s, e), sid)
  {
    hide Consistent, Handle, Possible, Rcpt, Data, AliasRows, DestinationRows, Typed;
    ConsistentTyped(s);
    StepConsistent(m, s, e);
    match e
    case RcptTo(i, to, rcpt) => RcptId(m, s.world, s.now, s.sessions[i], to, rcpt);
    case SendData(i, data) => DataId(s.world, s.now, s.sessions[i], data);
    case _ =>
  }

  lemma {:induction false} StaysSpent(m: Matcher, tr: seq<System>, es: seq<Event>, i: nat, n: nat, sid: int)
    requires Run(m, tr, es) && i <= n < |tr| && Spent(tr[i], sid)
    ensures Spent(tr[n], sid)
  {
    hide Consistent, Step, Feasible, Spent;
    if i < n {
      StaysSpent(m, tr, es, i, n - 1, sid);
      OneStep(m, tr, es, n - 1);
      StepSpent(m, tr[n - 1], es[n - 1], sid);
    }
  }

  /** Reset keeps the id, and so does a bounce: after a session has stored one return path, or
      accepted one bounce, it relays nothing more. */
  lemma SpentRelaysNothing(m: Matcher, tr: seq<System>, es: seq<Event>, i: nat, n: nat)
    requires Run(m, tr, es) && i <= n < |es| && es[n].SendData? && Spent(tr[i], es[n].sid)
    requires es[n].sid in tr[n].sessions && !tr[n].sessions[es[n].sid].returnPath
    ensures Typed(tr[n].world.c)
    ensures !Data(tr[n].world, tr[n].now, tr[n].sessions[es[n].sid], es[n].data).ok
    ensures tr[n + 1].world.outbox == tr[n].world.outbox && tr[n + 1].world.db == tr[n].world.db
  {
    hide Consistent, Issued, Data, Typed;
    StaysSpent(m, tr, es, i, n, es[n].sid);
    OneStep(m, tr, es, n);
    ConsistentTyped(tr[n]);
    var s := tr[n].sessions[es[n].sid];
    RelayNeedsPath(tr[n].world, tr[n].now, s, es[n].data);
    if Issued(tr[n].world, tr[n].now, s, es[n].data).Some? {
      IssuedRow(tr[n].world, tr[n].now, s, es[n].data);
      assert false;
    }
  }

  /** An accepted recipient has two parts, and so has what a return path is printed from. */
  lemma PathPrints(s: Session)
    requires DomainOf(s.to).Some?
    ensures ReturnPathText(s.to, s.id, s.domain.name).Some?
  {
    LowerKeepsParts(s.to, '@');
    RemoveKeepsParts(s.to, '=', '@');
  }

  /** Nothing on the server's side fails before the return path: the message is read and clean, the
      peer has an address and a name, and the insert is not cut off. */
  predicate Untroubled(w: World, now: int, e: DataEnv)
    requires Typed(w.c)
  {
    && !e.readFails && !e.spamFails && !e.spam && e.relay.tcp && !e.relay.insertFault
    && GetRdns(w.c, now, e.relay.wire.ip, e.relay.rdns).answer.Some?
  }

  /** A session with an accepted alias recipient stores its return path exactly when its id has none. */
  lemma IssuesUnlessSpent(m: Matcher, tr: seq<System>, es: seq<Event>, n: nat)
    requires Run(m, tr, es) && n < |es| && es[n].SendData? && es[n].sid in tr[n].sessions
    requires !tr[n].sessions[es[n].sid].returnPath && tr[n].sessions[es[n].sid].to != ""
    ensures Typed(tr[n].world.c)
    ensures Untroubled(tr[n].world, tr[n].now, es[n].data) ==>
              (Issued(tr[n].world, tr[n].now, tr[n].sessions[es[n].sid], es[n].data).Some? <==>
               !Spent(tr[n], es[n].sid))
  {
    hide WorldAgrees, VerifiedOk, Typed, GetRdns, ReturnPathText;
    OneStep(m, tr, es, n);
    ConsistentTyped(tr[n]);
    PathPrints(tr[n].sessions[es[n].sid]);
  }

  /** The rest of the relay goes well too: there are destinations, the message has a sender, and
      each copy is signed and published. */
  ghost predicate Smooth(w: World, now: int, s: Session, e: RelayEnv)
    requires Typed(w.c)
  {
    && Targets(w, now, s, e).Some? && Targets(w, now, s, e).value != [] && e.header.Some?
    && (forall k, text :: e.wire.sign(k, text).Some?)
    && (forall k :: e.wire.publish(k))
  }

  lemma {:induction false} SmoothQueue(w: Wire, rdns: string, s: Session, path: string, ds: seq<Destination>, k: nat)
    requires k <= |ds| && (forall i, text :: w.sign(i, text).Some?) && (forall i :: w.publish(i))
    ensures |Queued(w, rdns, s, path, ds, k)| == |ds| - k
    decreases |ds| - k
  {
    if k < |ds| {
      SmoothQueue(w, rdns, s, path, ds, k + 1);
    }
  }

  /** With everything else in order, a message is relayed exactly when its session is not spent. */
  lemma RelaysUnlessSpent(m: Matcher, tr: seq<System>, es: seq<Event>, n: nat)
    requires Run(m, tr, es) && n < |es| && es[n].SendData? && es[n].sid in tr[n].sessions
    requires !tr[n].sessions[es[n].sid].returnPath && tr[n].sessions[es[n].sid].to != "" && Typed(tr[n].world.c)
    requires Untroubled(tr[n].world, tr[n].now, es[n].data)
    requires Smooth(tr[n].world, tr[n].now, tr[n].sessions[es[n].sid], es[n].data.relay)
    ensures Data(tr[n].world, tr[n].now, tr[n].sessions[es[n].sid], es[n].data).ok <==> !Spent(tr[n], es[n].sid)
  {
    hide Consistent, ReturnPathText, GetDestinations, Queued, Spent;
    IssuesUnlessSpent(m, tr, es, n);
    var w, now, s, e := tr[n].world, tr[n].now, tr[n].sessions[es[n].sid], es[n].data;
    RelayNeedsPath(w, now, s, e);
    if Issued(w, now, s, e).Some? {
      var rd := GetRdns(w.c, now, e.relay.wire.ip, e.relay.rdns);
      var s1 := s.(message := s.message + e.body, from := e.relay.header.value);
      SmoothQueue(e.relay.wire, rd.answer.value, s1, Issued(w, now, s, e).value, Targets(w, now, s, e.relay).value, 0);
    }
  }

  /** Whatever became of the message, a return path once stored spends the session. */
  lemma IssuingSpends(m: Matcher, tr: seq<System>, es: seq<Event>, i: nat)
    requires Run(m, tr, es) && i < |es| && es[i].SendData? && es[i].sid in tr[i].sessions
    ensures Typed(tr[i].world.c)
    ensures Issued(tr[i].world, tr[i].now, tr[i].sessions[es[i].sid], es[i].data).Some? ==> Spent(tr[i + 1], es[i].sid)
  {
    hide Consistent, Issued, Data, Typed;
    OneStep(m, tr, es, i);
    ConsistentTyped(tr[i]);
    var s := tr[i].sessions[es[i].sid];
    DataId(tr[i].world, tr[i].now, s, es[i].data);
    if Issued(tr[i].world, tr[i].now, s, es[i].data).Some? {
      IssuedRow(tr[i].world, tr[i].now, s, es[i].data);
    }
  }

  // ---------------------------------------------------------------- the round trip

  /** A domain served at every recent instant is found, whatever the cache holds. */
  lemma ServedIsFound(m: Matcher, tr: seq<System>, es: seq<Event>, n: nat)
    requires Run(m, tr, es) && n < |es| && es[n].RcptTo? && Clean(tr, es, n) && DomainOf(es[n].to).Some?
    requires forall k: nat | Recent(tr, k, n) :: ServedDomain(tr[k].world.db.domains, DomainOf(es[n].to).value).Some?
    ensures Typed(tr[n].world.c)
    ensures DetectDomain(tr[n].world.c, tr[n].world.db, tr[n].now, es[n].to, es[n].rcpt.domainFault).answer.Some?
  {
    hide Consistent, Typed, Put, ServedDomain, AliasRows;
    OneStep(m, tr, es, n);
    ConsistentTyped(tr[n]);
    assert Recent(tr, n, n);
    var slot := Slot(NxDomain, DomainOf(es[n].to).value);
    if Lookup(tr[n].world.c, slot, tr[n].now).Some? {
      Unwritten(m, tr[n].world.c, tr[n].world.db, tr[n].now, es[n]);
      var k := FreshHit(m, tr, es, n, tr[n].world.c, slot);
      assert false;
    }
  }

  /** RCPT accepts every address that carries the id of a stored return path with a sender. */
  lemma BounceAccepted(m: Matcher, tr: seq<System>, es: seq<Event>, n: nat, id: Uuid)
    requires Run(m, tr, es) && n < |es| && es[n].RcptTo? && Clean(tr, es, n) && DomainOf(es[n].to).Some?
    requires forall k: nat | Recent(tr, k, n) :: ServedDomain(tr[k].world.db.domains, DomainOf(es[n].to).value).Some?
    requires ReturnId(es[n].to) == Some(id) && id in tr[n].world.db.returnPaths &&
        tr[n].world.db.returnPaths[id].returnTo != ""
    requires !es[n].rcpt.selectFault && !es[n].rcpt.updateFault
    ensures Typed(tr[n].world.c) && IsBounce(tr[n].world, tr[n].now, es[n].to, es[n].rcpt)
    ensures es[n].sid in tr[n + 1].sessions
    ensures var s := tr[n + 1].sessions[es[n].sid];
            s.returnPath && s.id == id && s.to == tr[n].world.db.returnPaths[id].returnTo &&
            s.via == es[n].to && s.domain.name == DomainOf(es[n].to).value
    ensures id in tr[n + 1].world.db.returnPaths && tr[n + 1].world.db.returnPaths[id].returned
    ensures KnownDomain(tr[n].world.db, tr[n + 1].sessions[es[n].sid].domain)
  {
    hide Consistent, Typed, DetectDomain, DetectAlias, ServedDomain, AliasRows, Clean, ReturnId;
    OneStep(m, tr, es, n);
    ConsistentTyped(tr[n]);
    ServedIsFound(m, tr, es, n);
    var w, e := tr[n].world, es[n].rcpt;
    var d := DetectDomain(w.c, w.db, tr[n].now, es[n].to, e.domainFault);
    ConsistentCache(tr[n]);
    DetectDomainAgrees(w.c, w.db, tr[n].now, es[n].to, e.domainFault);
    AgreesAt(d.c, w.db, Slot(NxReturnPath, es[n].to));
  }

  lemma ConsistentCache(s: System)
    requires Consistent(s)
    ensures Typed(s.world.c) && CacheAgrees(s.world.c, s.world.db) && Sound(s.world.db)
  {
  }

  // ---------------------------------------------------------------- who is left to receive

  ghost predicate AcceptedBy(m: Matcher, s: System, e: Event, sid: int) {
    && e.RcptTo? && e.sid == sid && sid in s.sessions && Typed(s.world.c)
    && Rcpt(m, s.world, s.now, s.sessions[sid], e.to, e.rcpt).ok
  }

  /** The recipient and the id that an accepted RCPT leaves in its session: the sender and the id
      of a return path, or the recipient itself and the id as it was. */
  ghost function Left(s: System, e: Event): (string, Uuid)
    requires e.RcptTo? && e.sid in s.sessions && Typed(s.world.c)
  {
    if IsBounce(s.world, s.now, e.to, e.rcpt)
    then (s.world.db.returnPaths[ReturnId(e.to).value].returnTo, ReturnId(e.to).value)
    else (e.to, s.sessions[e.sid].id)
  }

  lemma AcceptedLeaves(m: Matcher, w: World, now: int, s: Session, to: string, e: RcptEnv)
    requires Typed(w.c)
    ensures var r := Rcpt(m, w, now, s, to, e);
            && (!r.ok ==> r.session == s)
            && (IsBounce(w, now, to, e) ==>
                  && r.ok && r.session.returnPath && ReturnId(to).Some? && ReturnId(to).value in w.db.returnPaths
                  && r.session.to == w.db.returnPaths[ReturnId(to).value].returnTo
                  && r.session.id == ReturnId(to).value && r.session.via == to)
            && (r.ok && !IsBounce(w, now, to, e) ==>
                  && r.session.to == to && r.session.id == s.id && r.session.returnPath == s.returnPath
                  && r.session.via == s.via)
            && r.session.from == s.from && r.session.message == s.message
  {
    hide DetectDomain, DetectAlias, ReturnId, Typed, Put;
  }

  predicate Flagged(s: System, sid: int) {
    sid in s.sessions && s.sessions[sid].returnPath
  }

  predicate Resets(e: Event, sid: int) {
    e.Rset? && e.sid == sid
  }

  lemma SessionStep(m: Matcher, s: System, e: Event, sid: int)
    requires Consistent(s) && Feasible(s, e) && Typed(s.world.c) && sid in s.sessions && !Resets(e, sid)
    ensures var a, t := s.sessions[sid], Step(m, s, e);
            && sid in t.sessions
            && (a.returnPath ==> t.sessions[sid].returnPath)
            && (!AcceptedBy(m, s, e, sid) ==>
                  && t.sessions[sid].to == a.to && t.sessions[sid].id == a.id && t.sessions[sid].via == a.via
                  && t.sessions[sid].domain == a.domain && t.sessions[sid].alias == a.alias
                  && t.sessions[sid].returnPath == a.returnPath)
            && (AcceptedBy(m, s, e, sid) ==> (t.sessions[sid].to, t.sessions[sid].id) == Left(s, e))
  {
    hide Consistent, Rcpt, Handle, Possible, AliasRows, DestinationRows, Relay, IsBounce, ReturnId, Typed;
    if e.RcptTo? && e.sid == sid {
      AcceptedLeaves(m, s.world, s.now, s.sessions[sid], e.to, e.rcpt);
    }
    if e.SendData? && e.sid == sid {
      DataKeeps(s.world, s.now, s.sessions[sid], e.data);
    }
  }

  lemma DataKeeps(w: World, now: int, s: Session, e: DataEnv)
    requires Typed(w.c)
    ensures var t := Data(w, now, s, e).session;
            && t.to == s.to && t.id == s.id && t.domain == s.domain && t.returnPath == s.returnPath && t.via == s.via
            && t.alias == s.alias && t.message == s.message + e.body
  {
    hide GetDestinations, Queued, GetRdns, MakeReturnPath, Typed;
  }

  /** Until the next accepted RCPT or Rset the session keeps its recipient, its id and its domain. */
  lemma {:induction false} StaysHeld(m: Matcher, tr: seq<System>, es: seq<Event>, i: nat, n: nat, sid: int)
    requires Run(m, tr, es) && i <= n < |tr| && sid in tr[i].sessions
    requires forall j | i <= j < n :: !AcceptedBy(m, tr[j], es[j], sid) && !Resets(es[j], sid)
    ensures sid in tr[n].sessions
    ensures var a, b := tr[i].sessions[sid], tr[n].sessions[sid];
            b.to == a.to && b.id == a.id && b.domain == a.domain && b.returnPath == a.returnPath && b.via == a.via
  {
    hide Consistent, AcceptedBy, Step, Feasible, Resets;
    if i < n {
      StaysHeld(m, tr, es, i, n - 1, sid);
      OneStep(m, tr, es, n - 1);
      ConsistentTyped(tr[n - 1]);
      SessionStep(m, tr[n - 1], es[n - 1], sid);
    }
  }

  /** Until the next Rset a bounce stays a bounce. */
  lemma {:induction false} StaysFlagged(m: Matcher, tr: seq<System>, es: seq<Event>, i: nat, n: nat, sid: int)
    requires Run(m, tr, es) && i <= n < |tr| && Flagged(tr[i], sid)
    requires forall j | i <= j < n :: !Resets(es[j], sid)
    ensures Flagged(tr[n], sid)
  {
    hide Consistent, AcceptedBy, Step, Feasible, Resets;
    if i < n {
      StaysFlagged(m, tr, es, i, n - 1, sid);
      OneStep(m, tr, es, n - 1);
      ConsistentTyped(tr[n - 1]);
      SessionStep(m, tr[n - 1], es[n - 1], sid);
    }
  }

  /** Step k is the last before step q in which RCPT was accepted for the session. */
  ghost predicate LastAccepted(m: Matcher, tr: seq<System>, es: seq<Event>, sid: int, k: nat, q: nat)
    requires q < |es| && |tr| == |es| + 1
  {
    && k < q && AcceptedBy(m, tr[k], es[k], sid)
    && forall j | k < j < q :: !AcceptedBy(m, tr[j], es[j], sid)
  }

  lemma {:induction false} SomeLastAccepted(m: Matcher, tr: seq<System>, es: seq<Event>, sid: int, n: nat, i: nat,
                                            q: nat)
    returns (k: nat)
    requires |tr| == |es| + 1 && n < i <= q < |es| && AcceptedBy(m, tr[n], es[n], sid)
    requires forall j | i <= j < q :: !AcceptedBy(m, tr[j], es[j], sid)
    ensures n <= k && LastAccepted(m, tr, es, sid, k, q)
  {
    hide AcceptedBy;
    if AcceptedBy(m, tr[i - 1], es[i - 1], sid) {
      k := i - 1;
    } else {
      k := SomeLastAccepted(m, tr, es, sid, n, i - 1, q);
    }
  }

  /** The spam filter, the reader and the broker let a bounce pass. */
  predicate Passes(d: DataEnv) {
    !d.readFails && !d.spamFails && !d.spam && d.publish
  }

  /** One email was queued, a bounce, to this recipient under this id. */
  predicate QueuesBounce(a: seq<Email>, b: seq<Email>, to: string, id: Uuid) {
    |b| == |a| + 1 && b[..|a|] == a && b[|a|].to == to && b[|a|].id == id && b[|a|].bounce != ""
  }

  /** Once a transaction has accepted a return path (step n), the DATA that ends it (step q) queues
      one bounce, and it goes to whatever the last accepted RCPT before it left. */
  lemma BounceGoesToLast(m: Matcher, tr: seq<System>, es: seq<Event>, n: nat, k: nat, q: nat)
    requires Run(m, tr, es) && n <= k < q < |es| && es[q].SendData? && Passes(es[q].data)
    requires AcceptedBy(m, tr[n], es[n], es[q].sid) && IsBounce(tr[n].world, tr[n].now, es[n].to, es[n].rcpt)
    requires forall j | n < j < q :: !Resets(es[j], es[q].sid)
    requires LastAccepted(m, tr, es, es[q].sid, k, q)
    ensures var to := Left(tr[k], es[k]);
            QueuesBounce(tr[q].world.outbox, tr[q + 1].world.outbox, to.0, to.1)
  {
    hide Consistent, Rcpt, Relay, Handle, Possible, AliasRows, DestinationRows, IsBounce, ReturnId, Typed, Left;
    var sid := es[q].sid;
    OneStep(m, tr, es, n);
    AcceptedLeaves(m, tr[n].world, tr[n].now, tr[n].sessions[sid], es[n].to, es[n].rcpt);
    StaysFlagged(m, tr, es, n + 1, q, sid);
    OneStep(m, tr, es, k);
    SessionStep(m, tr[k], es[k], sid);
    StaysHeld(m, tr, es, k + 1, q, sid);
    OneStep(m, tr, es, q);
    ConsistentTyped(tr[q]);
  }

  // ---------------------------------------------------------------- the round trip over a run

  /** A return path that step i stored is the recipient of an RCPT in step n, while its domain has
      been served for a TTL and no query that matters fails. */
  ghost predicate Returned(m: Matcher, tr: seq<System>, es: seq<Event>, i: nat, n: nat)
    requires |tr| == |es| + 1 && i < n < |es|
  {
    && es[i].SendData? && es[i].sid in tr[i].sessions && Typed(tr[i].world.c) && es[n].RcptTo?
    && var s := tr[i].sessions[es[i].sid];
       && s.from != "" && Some(es[n].to) == Issued(tr[i].world, tr[i].now, s, es[i].data)
       && Clean(tr, es, n) && !es[n].rcpt.selectFault && !es[n].rcpt.updateFault
       && forall k: nat | Recent(tr, k, n) :: ServedDomain(tr[k].world.db.domains, s.domain.name).Some?
  }

  lemma ReturnedAccepted(m: Matcher, tr: seq<System>, es: seq<Event>, i: nat, n: nat)
    requires Run(m, tr, es) && i < n < |es| && Returned(m, tr, es, i, n)
    ensures es[i].SendData? && es[i].sid in tr[i].sessions && es[n].RcptTo?
    ensures AcceptedBy(m, tr[n], es[n], es[n].sid) && IsBounce(tr[n].world, tr[n].now, es[n].to, es[n].rcpt)
    ensures var s := tr[i].sessions[es[i].sid];
            && Left(tr[n], es[n]) == (s.from, s.id)
            && es[n].sid in tr[n + 1].sessions && tr[n + 1].sessions[es[n].sid].returnPath
            && tr[n + 1].sessions[es[n].sid].via == es[n].to
            && tr[n + 1].sessions[es[n].sid].domain.id == s.domain.id
            && tr[n + 1].sessions[es[n].sid].domain.account == s.domain.account
            && s.id in tr[n].world.db.returnPaths && tr[n].world.db.returnPaths[s.id].account == s.domain.account
  {
    hide Consistent, Issued, Clean, ServedDomain, ReturnId, ReturnPathText, DestinationRows, AliasRows, Data, Grows,
      Handle, Possible, IsBounce, Rcpt;
    var s := tr[i].sessions[es[i].sid];
    OneStep(m, tr, es, i);
    IssuedRow(tr[i].world, tr[i].now, s, es[i].data);
    IssuedReadsBack(tr[i], es[i].sid, es[i].data);
    RunGrows(m, tr, es, i + 1, n);
    PathsGrow(tr[i + 1].world.db, tr[n].world.db, s.id);
    BounceAccepted(m, tr, es, n, s.id);
    RunGrows(m, tr, es, i, n);
    OneStep(m, tr, es, n);
    AcceptedLeaves(m, tr[n].world, tr[n].now, tr[n].sessions[es[n].sid], es[n].to, es[n].rcpt);
    ConsistentCache(tr[n]);
    SameName(tr[i].world.db, tr[n].world.db, s.domain, tr[n + 1].sessions[es[n].sid].domain);
  }

  /** The bounce of a relayed message reaches its sender: the path that a session stored for the
      envelope sender f (step i), taken as a recipient by any session (step n), makes the DATA that
      follows (step q) queue one email to f, under the relayed message's id, domain and account,
      unless a later RCPT of the transaction was accepted. */
  lemma BounceRoundTrip(m: Matcher, tr: seq<System>, es: seq<Event>, i: nat, n: nat, q: nat)
    requires Run(m, tr, es) && i < n < q < |es| && Returned(m, tr, es, i, n)
    requires es[q].SendData? && es[q].sid == es[n].sid && Passes(es[q].data)
    requires forall j | n < j < q :: !AcceptedBy(m, tr[j], es[j], es[q].sid) && !Resets(es[j], es[q].sid)
    ensures var s, a, b := tr[i].sessions[es[i].sid], tr[q].world.outbox, tr[q + 1].world.outbox;
            && QueuesBounce(a, b, s.from, s.id) && b[|a|].via == es[n].to
            && b[|a|].domain == s.domain.id && b[|a|].account == s.domain.account
            && s.id in tr[q].world.db.returnPaths && tr[q].world.db.returnPaths[s.id].account == b[|a|].account
  {
    hide Consistent, Returned, AcceptedBy, Resets, Left, Relay, Handle, Possible, AliasRows, DestinationRows, Grows,
      Rcpt, IsBounce;
    ReturnedAccepted(m, tr, es, i, n);
    BounceGoesToLast(m, tr, es, n, n, q);
    StaysHeld(m, tr, es, n + 1, q, es[q].sid);
    StillPassed(m, tr, es, q);
    RunGrows(m, tr, es, n, q);
    PathsGrow(tr[n].world.db, tr[q].world.db, tr[i].sessions[es[i].sid].id);
  }

  /** A queued bounce carries its session's domain and that domain's account. */
  lemma StillPassed(m: Matcher, tr: seq<System>, es: seq<Event>, q: nat)
    requires Run(m, tr, es) && q < |es| && es[q].SendData?
    ensures es[q].sid in tr[q].sessions && Typed(tr[q].world.c)
    ensures var s, a, b := tr[q].sessions[es[q].sid], tr[q].world.outbox, tr[q + 1].world.outbox;
            s.returnPath && |b| == |a| + 1 ==>
              b[|a|].domain == s.domain.id && b[|a|].account == s.domain.account && b[|a|].via == s.via
  {
    hide Consistent, Relay, DestinationRows;
    OneStep(m, tr, es, q);
    ConsistentTyped(tr[q]);
  }

  /** Exactly when the bounce reaches its sender: with the flag surviving every RCPT, it does if and
      only if no later RCPT of the transaction was accepted, or the last one left the same
      recipient and id. */
  lemma BounceReturnsWhen(m: Matcher, tr: seq<System>, es: seq<Event>, i: nat, n: nat, q: nat)
    requires Run(m, tr, es) && i < n < q < |es| && Returned(m, tr, es, i, n)
    requires es[q].SendData? && es[q].sid == es[n].sid && Passes(es[q].data)
    requires forall j | n < j < q :: !Resets(es[j], es[q].sid)
    ensures es[i].sid in tr[i].sessions
    ensures var s := tr[i].sessions[es[i].sid];
            QueuesBounce(tr[q].world.outbox, tr[q + 1].world.outbox, s.from, s.id) <==>
              || (forall j | n < j < q :: !AcceptedBy(m, tr[j], es[j], es[q].sid))
              || (exists k | n < k < q ::
                  LastAccepted(m, tr, es, es[q].sid, k, q) && Left(tr[k], es[k]) == (s.from, s.id))
  {
    hide Returned, AcceptedBy, Resets, Left, IsBounce, Next;
    ReturnedAccepted(m, tr, es, i, n);
    var k := SomeLastAccepted(m, tr, es, es[q].sid, n, q, q);
    BounceGoesToLast(m, tr, es, n, k, q);
    forall l | n < l < q && LastAccepted(m, tr, es, es[q].sid, l, q)
      ensures l == k
    {
    }
  }

  /** A domain keeps its id and owner, so two copies of one name are copies of one row. */
  lemma SameName(a: Db, b: Db, d: Domain, e: Domain)
    requires KnownDomain(a, d) && KnownDomain(b, e) && d.name == e.name && Grows(a, b) && Sound(b)
    ensures d.id == e.id && d.account == e.account
  {
  }

  lemma PathsGrow(a: Db, b: Db, id: Uuid)
    requires Grows(a, b) && id in a.returnPaths
    ensures id in b.returnPaths && b.returnPaths[id].returnTo == a.returnPaths[id].returnTo
    ensures b.returnPaths[id].account == a.returnPaths[id].account
  {
  }

  /** The path printed for a session is read back as its id, and its domain part is the domain's name. */
  lemma IssuedReadsBack(s: System, sid: int, e: DataEnv)
    requires Consistent(s) && Typed(s.world.c) && sid in s.sessions && Issued(s.world, s.now, s.sessions[sid], e).Some?
    ensures KnownDomain(s.world.db, s.sessions[sid].domain)
    ensures var p := Issued(s.world, s.now, s.sessions[sid], e).value;
            ReturnId(p) == Some(s.sessions[sid].id) && DomainOf(p) == Some(s.sessions[sid].domain.name)
  {
    hide WorldAgrees, VerifiedOk, GetRdns, ReturnId, ReturnPathText, Typed;
    var t := s.sessions[sid];
    assert SessionAgrees(s.world.db, t);
    RecipientNeeded(s.world.db, t, e.relay.insertFault);
    var p := Issued(s.world, s.now, t, e).value;
    NameIsPlain(t.to);
    ReturnPathRoundTrip(t.to, t.id, t.domain.name);
  }

  lemma NameIsPlain(email: string)
    requires DomainOf(email).Some?
    ensures '@' !in DomainOf(email).value && Lower(DomainOf(email).value) == DomainOf(email).value
  {
    hide Lower;
    var parts := Split(Lower(email), '@');
    SplitTwo(Lower(email), '@');
    var head := parts[0] + ['@'];
    LowerIdempotent(email);
    LowerConcat(head, parts[1]);
    assert Lower(head) + Lower(parts[1]) == head + parts[1];
    assert Lower(parts[1]) == (Lower(head) + Lower(parts[1]))[|head|..] == parts[1];
  }
}
