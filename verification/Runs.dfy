/** Whole runs of the service: control-panel requests, SMTP sessions, the clock and cache
    eviction interleaved in any order, one call at a time. */
module Runs {
  import opened Text
  import opened Uuid
  import opened Schema
  import opened Store
  import opened Integrity
  import opened Panel
  import opened Cache
  import opened Router
  import opened Sessions
  import opened Agreement

  datatype System = System(world: World, now: int, sessions: map<int, Session>)

  datatype Event =
    | Tick(step: nat)
    | Evict(slots: set<Slot>)
    | Request(me: int, plan: Plan, request: Panel.Request)
    | Connect(sid: int, id: Uuid)
    | MailFrom(sid: int, from: string, tcp: bool, spfFail: bool)
    | RcptTo(sid: int, to: string, rcpt: RcptEnv)
    | SendData(sid: int, data: DataEnv)
    | Rset(sid: int)

  /** What the clock, the sequences, the id generator and the database may supply: a fresh
      version-4 id is never nil, and rows are answers to the queries on the current tables. */
  ghost predicate Feasible(s: System, e: Event) {
    match e
    case Tick(_) => true
    case Evict(_) => true
    case Request(_, _, request) => Possible(s.world.db, request)
    case Connect(sid, id) => sid !in s.sessions && !IsNil(id)
    case MailFrom(sid, _, _, _) => sid in s.sessions
    case RcptTo(sid, to, rcpt) =>
      sid in s.sessions && (DomainOf(to).Some? ==> AliasRows(s.world.db, DomainOf(to).value, rcpt.rows))
    case SendData(sid, data) => sid in s.sessions &&
        DestinationRows(s.world.db, s.sessions[sid].alias.id, data.relay.rows)
    case Rset(sid) => sid in s.sessions
  }

  ghost function Step(m: Matcher, s: System, e: Event): System
    requires Feasible(s, e) && Typed(s.world.c)
  {
    match e
    case Tick(step) => s.(now := s.now + step)
    case Evict(slots) => s.(world := s.world.(c := s.world.c - slots))
    case Request(me, plan, request) => s.(world := s.world.(db := Handle(s.world.db, me, plan, request, s.now)))
    case Connect(sid, id) => s.(sessions := s.sessions[sid := NewSession(id)])
    case MailFrom(sid, from, tcp, spfFail) =>
        s.(sessions := s.sessions[sid := Mail(s.sessions[sid], from, tcp, spfFail).0])
    case RcptTo(sid, to, rcpt) => After(s, sid, Rcpt(m, s.world, s.now, s.sessions[sid], to, rcpt))
    case SendData(sid, data) => After(s, sid, Data(s.world, s.now, s.sessions[sid], data))
    case Rset(sid) => s.(sessions := s.sessions[sid := Reset(s.sessions[sid])])
  }

  function After(s: System, sid: int, d: Done): System {
    s.(world := d.world, sessions := s.sessions[sid := d.session])
  }

  /** A cast of a cached value to the wrong type would promise nothing about the next state. */
  ghost predicate Next(m: Matcher, s: System, e: Event, t: System) {
    Feasible(s, e) && (Typed(s.world.c) ==> t == Step(m, s, e))
  }

  const START: System := System(World(map[], EMPTY, []), 0, map[])

  /** A run: es[i] leads from tr[i] to tr[i + 1], and the run begins with nothing. */
  ghost predicate Run(m: Matcher, tr: seq<System>, es: seq<Event>) {
    && |tr| == |es| + 1
    && tr[0] == START
    && forall i :: 0 <= i < |es| ==> Next(m, tr[i], es[i], tr[i + 1])
  }

  // ---------------------------------------------------------------- consistency in every state

  ghost predicate Consistent(s: System) {
    && WorldAgrees(s.world)
    && VerifiedOk(s.world.db)
    && forall i :: i in s.sessions ==> SessionAgrees(s.world.db, s.sessions[i])
  }

  lemma SessionsStable(s: System, b: Db)
    requires Consistent(s) && Grows(s.world.db, b)
    ensures forall i :: i in s.sessions ==> SessionAgrees(b, s.sessions[i])
  {
    forall i | i in s.sessions
      ensures SessionAgrees(b, s.sessions[i])
    {
      SessionStable(s.sessions[i], s.world.db, b);
    }
  }

  lemma StartConsistent()
    ensures Consistent(START)
  {
    EmptySound();
  }

  lemma RequestConsistent(m: Matcher, s: System, e: Event)
    requires Consistent(s) && Feasible(s, e) && e.Request?
    ensures Consistent(Step(m, s, e)) && Grows(s.world.db, Step(m, s, e).world.db)
  {
    hide Sound, VerifiedOk, Typed, CacheAgrees, OutboxAgrees, SessionAgrees, Grows, Handle, Possible;
    var b := Handle(s.world.db, e.me, e.plan, e.request, s.now);
    HandleKeeps(s.world.db, e.me, e.plan, e.request, s.now);
    HandleVerified(s.world.db, e.me, e.plan, e.request, s.now);
    CacheStable(s.world.c, s.world.db, b);
    OutboxStable(s.world.outbox, s.world.db, b);
    SessionsStable(s, b);
  }

  /** Router calls change nothing in the tables but the return paths. */
  lemma CallConsistent(s: System, sid: int, d: Done)
    requires Consistent(s) && sid in s.sessions
    requires WorldAgrees(d.world) && Grows(s.world.db, d.world.db) && SessionAgrees(d.world.db, d.session)
    requires d.world.db == s.world.db.(returnPaths := d.world.db.returnPaths)
    ensures Consistent(After(s, sid, d))
  {
    hide WorldAgrees, SessionAgrees, Grows;
    SessionsStable(s, d.world.db);
  }

  lemma RcptTables(m: Matcher, w: World, now: int, s: Session, to: string, e: RcptEnv)
    requires Typed(w.c)
    ensures var r := Rcpt(m, w, now, s, to, e).world;
            r.outbox == w.outbox && r.db == w.db.(returnPaths := r.db.returnPaths)
  {
    hide DetectDomain, DetectAlias;
  }

  lemma DataTables(w: World, now: int, s: Session, e: DataEnv)
    requires Typed(w.c)
    ensures var r := Data(w, now, s, e).world; r.db == w.db.(returnPaths := r.db.returnPaths)
  {
    hide GetDestinations, Queued, GetRdns, ReturnPathText;
  }

  lemma StepConsistent(m: Matcher, s: System, e: Event)
    requires Consistent(s) && Feasible(s, e)
    ensures Consistent(Step(m, s, e)) && Grows(s.world.db, Step(m, s, e).world.db)
  {
    hide Sound, Typed, CacheAgrees, OutboxAgrees, Grows, Rcpt, Data, Handle, Possible, VerifiedOk, AliasRows,
      DestinationRows;
    GrowsReflexive(s.world.db);
    match e
    case Request(_, _, _) => RequestConsistent(m, s, e);
    case Evict(slots) => Evicted(s.world.c, s.world.db, slots);
    case RcptTo(sid, to, rcpt) =>
      RcptAgrees(m, s.world, s.now, s.sessions[sid], to, rcpt);
      RcptTables(m, s.world, s.now, s.sessions[sid], to, rcpt);
      CallConsistent(s, sid, Rcpt(m, s.world, s.now, s.sessions[sid], to, rcpt));
    case SendData(sid, data) =>
      DataAgrees(s.world, s.now, s.sessions[sid], data);
      DataTables(s.world, s.now, s.sessions[sid], data);
      CallConsistent(s, sid, Data(s.world, s.now, s.sessions[sid], data));
    case _ =>
  }

  /** In every reachable state the tables are sound, the cache, the sessions and everything ever
      queued agree with them, and no cast of a cached value has failed. */
  lemma {:induction false} RunConsistent(m: Matcher, tr: seq<System>, es: seq<Event>, n: nat)
    requires Run(m, tr, es) && n < |tr|
    ensures Consistent(tr[n])
    ensures n < |es| ==> Feasible(tr[n], es[n]) && Typed(tr[n].world.c) && tr[n + 1] == Step(m, tr[n], es[n])
  {
    hide Consistent;
    if n == 0 {
      StartConsistent();
    } else {
      RunConsistent(m, tr, es, n - 1);
      assert Next(m, tr[n - 1], es[n - 1], tr[n]);
      StepConsistent(m, tr[n - 1], es[n - 1]);
    }
    assert n < |es| ==> Next(m, tr[n], es[n], tr[n + 1]);
    ConsistentTyped(tr[n]);
  }

  lemma ConsistentTyped(s: System)
    requires Consistent(s)
    ensures Typed(s.world.c)
  {
  }

  /** Nothing that identifies a row ever changes or disappears, and time does not run back. */
  lemma {:induction false} RunGrows(m: Matcher, tr: seq<System>, es: seq<Event>, i: nat, n: nat)
    requires Run(m, tr, es) && i <= n < |tr|
    ensures Grows(tr[i].world.db, tr[n].world.db) && tr[i].now <= tr[n].now
  {
    hide Consistent, Grows;
    if i == n {
      GrowsReflexive(tr[n].world.db);
    } else {
      RunGrows(m, tr, es, i, n - 1);
      OneStep(m, tr, es, n - 1);
      GrowsTransitive(tr[i].world.db, tr[n - 1].world.db, tr[n].world.db);
    }
  }

  lemma OneStep(m: Matcher, tr: seq<System>, es: seq<Event>, k: nat)
    requires Run(m, tr, es) && k < |es|
    ensures Consistent(tr[k]) && Feasible(tr[k], es[k]) && tr[k + 1] == Step(m, tr[k], es[k])
    ensures Grows(tr[k].world.db, tr[k + 1].world.db) && tr[k].now <= tr[k + 1].now
  {
    hide Consistent, Grows, Handle, Rcpt, Data, AliasRows, DestinationRows, Possible;
    RunConsistent(m, tr, es, k);
    assert Next(m, tr[k], es[k], tr[k + 1]);
    StepConsistent(m, tr[k], es[k]);
  }

  /** Every email queued by the relay carries the account of its domain, of its alias and of
      its destination; its alias is on its domain and its destination is the alias's. */
  lemma QueuedIdsAgree(m: Matcher, tr: seq<System>, es: seq<Event>, n: nat, i: nat)
    requires Run(m, tr, es) && n < |tr| && i < |tr[n].world.outbox| && tr[n].world.outbox[i].bounce == ""
    ensures var e, db := tr[n].world.outbox[i], tr[n].world.db;
            && e.domain in db.domains && e.alias in db.aliases && e.destination in db.destinations
            && db.domains[e.domain].account == e.account
            && db.aliases[e.alias].account == e.account && db.aliases[e.alias].domain == e.domain
            && db.destinations[e.destination].account == e.account && db.destinations[e.destination].address == e.to
            && (e.alias, e.destination) in db.links
            && e.id in db.returnPaths && db.returnPaths[e.id].alias == e.alias
  {
    RunConsistent(m, tr, es, n);
  }
}
