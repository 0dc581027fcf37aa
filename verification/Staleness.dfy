/** How old an answer of the router can be: every cached value was true of the database at an
    instant at most one TTL ago, and a domain that stopped being served is refused after one. */
module Staleness {
  import opened Text
  import opened Uuid
  import opened Schema
  import opened Store
  import opened Integrity
  import opened Panel
  import opened Cache
  import opened Router
  import opened Sessions
  import opened Agreement
  import opened Runs
  import Rule

  // ---------------------------------------------------------------- what an entry was true of

  /** The query for the domain of this name failed in this event, so that it cached an absence
      without grounds. No other failed query leaves anything in the cache that is ever read. */
  predicate Faulty(e: Event, name: string) {
    e.RcptTo? && e.rcpt.domainFault && DomainOf(e.to) == Some(name)
  }

  /** What the value of a slot said about the database it was written from. */
  ghost predicate Fact(m: Matcher, db: Db, e: Event, s: Slot, v: Value) {
    match s.ns
    case DomainName => v.DomainV? && v.domain in db.domains.Values && Served(v.domain, s.key)
    case NxDomain => Faulty(e, s.key) || ServedDomain(db.domains, s.key).None?
    case AliasMatch => v.AliasV? && DomainOf(s.key).Some? && Answers(m, db, s.key, Some(v.alias))
    case Destinations =>
      v.DestinationsV? && forall a | s == DestinationSlot(a) :: DestinationRows(db, a, v.destinations)
    case Rdns => v.RdnsV? && e.SendData? && e.data.relay.wire.ip == s.key && e.data.relay.rdns == Some(v.name)
    case _ => true
  }

  /** Every entry is either an old one or was written just now, and was then true. */
  ghost predicate Written(m: Matcher, c: Contents, db: Db, now: int, e: Event, d: Contents) {
    forall s :: s in d ==>
      || (s in c && c[s] == d[s])
      || (d[s].expires == now + TTL && Fact(m, db, e, s, d[s].value))
  }

  lemma WrittenTwice(m: Matcher, a: Contents, b: Contents, c: Contents, db: Db, now: int, e: Event)
    requires Written(m, a, db, now, e, b) && Written(m, b, db, now, e, c)
    ensures Written(m, a, db, now, e, c)
  {
  }

  lemma WrittenOne(m: Matcher, c: Contents, db: Db, now: int, e: Event, s: Slot, v: Value)
    requires Fact(m, db, e, s, v)
    ensures Written(m, c, db, now, e, Put(c, s, v, now))
  {
  }

  lemma DetectDomainWrites(m: Matcher, c: Contents, db: Db, now: int, e: Event)
    requires Typed(c) && e.RcptTo?
    ensures Written(m, c, db, now, e, DetectDomain(c, db, now, e.to, e.rcpt.domainFault).c)
  {
    hide Typed, Written, Put;
    assert Written(m, c, db, now, e, c) by { Unwritten(m, c, db, now, e); }
    var name := DomainOf(e.to);
    if name.Some? {
      var row := if e.rcpt.domainFault then None else ServedDomain(db.domains, name.value);
      if row.Some? {
        WrittenOne(m, c, db, now, e, Slot(DomainName, name.value), DomainV(db.domains[row.value]));
      } else {
        WrittenOne(m, c, db, now, e, Slot(NxDomain, name.value), Nothing);
      }
    }
  }

  lemma Unwritten(m: Matcher, c: Contents, db: Db, now: int, e: Event)
    ensures Written(m, c, db, now, e, c)
  {
  }

  lemma AnswersLower(m: Matcher, db: Db, email: string, a: Option<Alias>)
    requires Answers(m, db, email, a)
    ensures Answers(m, db, Lower(email), a)
  {
    LowerIdempotent(email);
  }

  lemma MatchRowsWrites(m: Matcher, c: Contents, db: Db, now: int, email: string, rows: seq<Alias>, e: Event)
    requires DomainOf(email).Some? && AliasRows(db, DomainOf(email).value, rows)
    ensures Written(m, c, db, now, e, MatchRows(m, c, now, email, UserOf(email).value, rows).c)
  {
    hide Written, Put, AliasRows, Answers;
    var r := FirstMatch(m, rows, UserOf(email).value);
    SearchAnswers(m, db, email, rows);
    AnswersLower(m, db, email, r);
    LowerDomainOf(email);
    if r.Some? {
      WrittenOne(m, c, db, now, e, Slot(AliasMatch, Lower(email)), AliasV(r.value));
    } else {
      WrittenOne(m, c, db, now, e, Slot(NxMatch, Lower(email)), Nothing);
    }
  }

  /** The rows cached for a domain are never read: only rows just queried are searched. */
  lemma DetectAliasWrites(m: Matcher, c: Contents, db: Db, now: int, email: string, rows: seq<Alias>, e: Event)
    requires Typed(c) && CacheAgrees(c, db) && e.RcptTo?
    requires DomainOf(email).Some? ==> AliasRows(db, DomainOf(email).value, rows)
    ensures Written(m, c, db, now, e, DetectAlias(m, c, now, email, rows, e.rcpt.aliasFault).c)
  {
    hide Typed, CacheAgrees, EntryAgrees, Written, Put, AliasRows, MatchRows;
    Unwritten(m, c, db, now, e);
    if DomainOf(email).Some? {
      var name := DomainOf(email).value;
      AgreesAt(c, db, Slot(Aliases, name));
      WrittenOne(m, c, db, now, e, Slot(AliasNxDomain, name), Nothing);
      WrittenOne(m, c, db, now, e, Slot(AliasDomain, name), AliasesV(rows));
      var mid := Put(c, Slot(AliasDomain, name), AliasesV(rows), now);
      MatchRowsWrites(m, mid, db, now, email, rows, e);
      WrittenTwice(m, c, mid, MatchRows(m, mid, now, email, UserOf(email).value, rows).c, db, now, e);
    }
  }

  lemma RcptWrites(m: Matcher, w: World, now: int, s: Session, e: Event)
    requires e.RcptTo? && WorldAgrees(w)
    requires DomainOf(e.to).Some? ==> AliasRows(w.db, DomainOf(e.to).value, e.rcpt.rows)
    ensures Written(m, w.c, w.db, now, e, Rcpt(m, w, now, s, e.to, e.rcpt).world.c)
  {
    hide Sound, Typed, CacheAgrees, OutboxAgrees, DetectDomain, DetectAlias, Written, AliasRows, Put;
    var d := DetectDomain(w.c, w.db, now, e.to, e.rcpt.domainFault);
    DetectDomainWrites(m, w.c, w.db, now, e);
    DetectDomainAgrees(w.c, w.db, now, e.to, e.rcpt.domainFault);
    if d.answer.Some? {
      WrittenOne(m, d.c, w.db, now, e, Slot(Nx, e.to), Nothing);
      WrittenTwice(m, w.c, d.c, Put(d.c, Slot(Nx, e.to), Nothing, now), w.db, now, e);
      var b := DetectReturnPath(d.c, w.db, now, e.to, e.rcpt.selectFault, e.rcpt.updateFault);
      BounceAgrees(d.c, w.db, now, e.to, e.rcpt.selectFault, e.rcpt.updateFault);
      if b.answer.None? {
        DetectAliasWrites(m, b.c, w.db, now, e.to, e.rcpt.rows, e);
        WrittenTwice(m, w.c, b.c, DetectAlias(m, b.c, now, e.to, e.rcpt.rows, e.rcpt.aliasFault).c, w.db, now, e);
      }
    }
  }

  lemma DestinationFact(m: Matcher, db: Db, e: Event, alias: int, rows: seq<Destination>)
    requires DestinationRows(db, alias, rows)
    ensures Fact(m, db, e, DestinationSlot(alias), DestinationsV(rows))
  {
    forall a | DestinationSlot(a) == DestinationSlot(alias)
      ensures a == alias
    {
      SignedInjective(a, alias);
    }
  }

  lemma DataWrites(m: Matcher, w: World, now: int, s: Session, e: Event)
    requires e.SendData? && Typed(w.c) && DestinationRows(w.db, s.alias.id, e.data.relay.rows)
    ensures Written(m, w.c, w.db, now, e, Data(w, now, s, e.data).world.c)
  {
    hide Typed, Written, Put, DestinationRows, DestinationSlot, Queued, MakeReturnPath, Fact;
    var r := e.data.relay;
    Unwritten(m, w.c, w.db, now, e);
    DestinationFact(m, w.db, e, s.alias.id, r.rows);
    WrittenOne(m, w.c, w.db, now, e, DestinationSlot(s.alias.id), DestinationsV(r.rows));
    var rd := GetRdns(w.c, now, r.wire.ip, r.rdns);
    RdnsWrites(m, w, now, r, e);
    WrittenOne(m, rd.c, w.db, now, e, DestinationSlot(s.alias.id), DestinationsV(r.rows));
    WrittenTwice(m, w.c, rd.c, Put(rd.c, DestinationSlot(s.alias.id), DestinationsV(r.rows), now), w.db, now, e);
  }

  lemma RdnsWrites(m: Matcher, w: World, now: int, r: RelayEnv, e: Event)
    requires Typed(w.c) && e.SendData? && r == e.data.relay
    ensures Written(m, w.c, w.db, now, e, GetRdns(w.c, now, r.wire.ip, r.rdns).c)
    ensures Typed(GetRdns(w.c, now, r.wire.ip, r.rdns).c)
  {
  }

  lemma StepWrites(m: Matcher, s: System, e: Event)
    requires Consistent(s) && Feasible(s, e)
    ensures Written(m, s.world.c, s.world.db, s.now, e, Step(m, s, e).world.c)
  {
    hide Sound, Typed, CacheAgrees, Handle, Possible, Rcpt, Data, Fact, AliasRows, DestinationRows;
    match e
    case RcptTo(sid, to, rcpt) => RcptWrites(m, s.world, s.now, s.sessions[sid], e);
    case SendData(sid, data) => DataWrites(m, s.world, s.now, s.sessions[sid], e);
    case _ =>
  }

  // ---------------------------------------------------------------- the history of an entry

  /** The entry under a slot was written in step k, and was then true. */
  ghost predicate WrittenAt(m: Matcher, tr: seq<System>, es: seq<Event>, s: Slot, x: Entry, k: nat)
    requires k < |es| && |tr| == |es| + 1
  {
    x.expires == tr[k].now + TTL && Fact(m, tr[k].world.db, es[k], s, x.value)
  }

  lemma {:induction false} EntryHistory(m: Matcher, tr: seq<System>, es: seq<Event>, n: nat, s: Slot) returns (k: nat)
    requires Run(m, tr, es) && n < |tr| && s in tr[n].world.c
    ensures k < n && WrittenAt(m, tr, es, s, tr[n].world.c[s], k)
  {
    hide Consistent, Fact, Step, Feasible;
    assert n > 0;
    OneStep(m, tr, es, n - 1);
    StepWrites(m, tr[n - 1], es[n - 1]);
    var c, d := tr[n - 1].world.c, tr[n].world.c;
    if s in c && c[s] == d[s] {
      k := EntryHistory(m, tr, es, n - 1, s);
    } else {
      k := n - 1;
    }
  }

  /** A hit was written at most one TTL ago. */
  lemma HitHistory(m: Matcher, tr: seq<System>, es: seq<Event>, n: nat, s: Slot) returns (k: nat)
    requires Run(m, tr, es) && n < |tr| && Lookup(tr[n].world.c, s, tr[n].now).Some?
    ensures k < n && WrittenAt(m, tr, es, s, tr[n].world.c[s], k)
    ensures tr[n].now - TTL <= tr[k].now <= tr[n].now
  {
    k := EntryHistory(m, tr, es, n, s);
    RunGrows(m, tr, es, k, n);
  }

  // ---------------------------------------------------------------- bounded staleness of answers

  /** Step k happened no longer than one TTL before step n. */
  predicate Recent(tr: seq<System>, k: nat, n: nat)
    requires n < |tr|
  {
    k <= n && tr[n].now - TTL <= tr[k].now <= tr[n].now
  }

  /** No query for the recipient's domain failed in the last TTL. */
  ghost predicate Clean(tr: seq<System>, es: seq<Event>, n: nat)
    requires n < |es| && |tr| == |es| + 1 && es[n].RcptTo?
  {
    DomainOf(es[n].to).Some? ==> forall k: nat | Recent(tr, k, n) :: !Faulty(es[k], DomainOf(es[n].to).value)
  }

  /** A hit at any point of step n is on an entry written at most one TTL ago, or in this step. */
  lemma FreshHit(m: Matcher, tr: seq<System>, es: seq<Event>, n: nat, c: Contents, s: Slot) returns (k: nat)
    requires Run(m, tr, es) && n < |es| && Written(m, tr[n].world.c, tr[n].world.db, tr[n].now, es[n], c)
    requires Lookup(c, s, tr[n].now).Some?
    ensures Recent(tr, k, n) && Fact(m, tr[k].world.db, es[k], s, c[s].value)
  {
    hide Fact, Step, Feasible, Consistent;
    if s in tr[n].world.c && tr[n].world.c[s] == c[s] {
      k := HitHistory(m, tr, es, n, s);
    } else {
      k := n;
    }
  }

  lemma Unserved(m: Matcher, db: Db, email: string)
    requires DomainOf(email).Some? ==> ServedDomain(db.domains, DomainOf(email).value).None?
    ensures Answers(m, db, email, None)
  {
  }

  lemma AnswersUnlowered(m: Matcher, db: Db, email: string, a: Option<Alias>)
    requires Answers(m, db, Lower(email), a)
    ensures Answers(m, db, email, a)
  {
    LowerIdempotent(email);
  }

  /** An alias found is always an answer of the search without a cache; none found is, unless a
      query failed. */
  lemma DetectAliasStale(m: Matcher, tr: seq<System>, es: seq<Event>, n: nat, c: Contents) returns (k: nat)
    requires Run(m, tr, es) && n < |es| && es[n].RcptTo?
    requires Written(m, tr[n].world.c, tr[n].world.db, tr[n].now, es[n], c)
    requires Typed(c) && CacheAgrees(c, tr[n].world.db)
    requires DomainOf(es[n].to).Some? ==>
               AliasRows(tr[n].world.db, DomainOf(es[n].to).value, es[n].rcpt.rows)
    ensures Recent(tr, k, n)
    ensures var a := DetectAlias(m, c, tr[n].now, es[n].to, es[n].rcpt.rows, es[n].rcpt.aliasFault).answer;
            a.Some? || (Clean(tr, es, n) && !es[n].rcpt.aliasFault) ==> Answers(m, tr[k].world.db, es[n].to, a)
  {
    hide Written, Typed, CacheAgrees, AliasRows, Answers, Put;
    var to, now := es[n].to, tr[n].now;
    var hit := Slot(AliasMatch, Lower(to));
    k := n;
    assert Recent(tr, n, n);
    AgreesAt(c, tr[n].world.db, Slot(AliasNxMatch, Lower(to)));
    if Lookup(c, hit, now).Some? {
      k := FreshHit(m, tr, es, n, c, hit);
      AnswersUnlowered(m, tr[k].world.db, to, Some(c[hit].value.alias));
    } else if DomainOf(to).None? {
      Unserved(m, tr[n].world.db, to);
    } else {
      var name := DomainOf(to).value;
      AgreesAt(c, tr[n].world.db, Slot(Aliases, name));
      if Lookup(c, Slot(NxDomain, name), now).Some? {
        k := FreshHit(m, tr, es, n, c, Slot(NxDomain, name));
        if Clean(tr, es, n) {
          Unserved(m, tr[k].world.db, to);
        }
      } else {
        SearchAnswers(m, tr[n].world.db, to, es[n].rcpt.rows);
      }
    }
  }

  /** What RCPT decides through the alias branch, however much of it comes from the cache, is
      what the search without a cache gives on the database as it was at some instant at most
      one TTL ago: the alias it accepts, whatever queries failed; and, if the queries of a
      refusal did not fail, that there is none. */
  lemma RcptStale(m: Matcher, tr: seq<System>, es: seq<Event>, n: nat) returns (k: nat)
    requires Run(m, tr, es) && n < |es| && es[n].RcptTo?
    ensures Recent(tr, k, n) && es[n].sid in tr[n].sessions && Typed(tr[n].world.c)
    ensures !IsBounce(tr[n].world, tr[n].now, es[n].to, es[n].rcpt) ==>
              var r := Rcpt(m, tr[n].world, tr[n].now, tr[n].sessions[es[n].sid], es[n].to, es[n].rcpt);
              r.ok || (Clean(tr, es, n) && !es[n].rcpt.aliasFault) ==>
                Answers(m, tr[k].world.db, es[n].to, if r.ok then Some(r.session.alias) else None)
  {
    hide Written, Typed, CacheAgrees, AliasRows, Answers, DetectAlias, DetectReturnPath, Put, Clean, Sound,
      OutboxAgrees, SessionAgrees, VerifiedOk;
    OneStep(m, tr, es, n);
    var w, now, to, e := tr[n].world, tr[n].now, es[n].to, es[n].rcpt;
    var d := DetectDomain(w.c, w.db, now, to, e.domainFault);
    DetectDomainWrites(m, w.c, w.db, now, es[n]);
    DetectDomainAgrees(w.c, w.db, now, to, e.domainFault);
    k := n;
    if d.answer.None? {
      if Clean(tr, es, n) {
        k := DomainRefusedStale(m, tr, es, n);
      }
    } else {
      var b := DetectReturnPath(d.c, w.db, now, to, e.selectFault, e.updateFault);
      BounceWrites(m, d.c, w.db, now, es[n]);
      BounceAgrees(d.c, w.db, now, to, e.selectFault, e.updateFault);
      if b.answer.None? {
        WrittenTwice(m, w.c, d.c, b.c, w.db, now, es[n]);
        k := DetectAliasStale(m, tr, es, n, b.c);
      }
    }
  }

  /** With the rules of the alias store for a matcher: the alias that RCPT accepts has a rule that
      the whole local part matches, unless the rule has alternation outside a group, begins with
      "^*" or "^?", or ends in an escaped '$'. */
  lemma AcceptedInFull(tr: seq<System>, es: seq<Event>, n: nat)
    requires Run(Rule.Verdict, tr, es) && n < |es| && es[n].RcptTo?
    requires es[n].sid in tr[n].sessions && Typed(tr[n].world.c)
    requires !IsBounce(tr[n].world, tr[n].now, es[n].to, es[n].rcpt)
    ensures var r := Rcpt(Rule.Verdict, tr[n].world, tr[n].now, tr[n].sessions[es[n].sid], es[n].to, es[n].rcpt);
            var rule := r.session.alias.rule;
            var alts := Rule.Alternatives(Lower(rule));
            r.ok && alts.Some? && |alts.value| == 1 && !Rule.FreeFront(rule) && !Rule.FreeEnd(rule) ==>
              UserOf(es[n].to).Some? && Rule.Whole(Rule.Compile(Lower(rule)).value, UserOf(es[n].to).value)
  {
    hide Rcpt, IsBounce, Clean, Typed, Rule.Alternatives, Rule.Whole, Rule.Anchored, Rule.Compile,
      Rule.FreeFront, Rule.FreeEnd;
    var k := RcptStale(Rule.Verdict, tr, es, n);
    var r := Rcpt(Rule.Verdict, tr[n].world, tr[n].now, tr[n].sessions[es[n].sid], es[n].to, es[n].rcpt);
    var rule := r.session.alias.rule;
    var alts := Rule.Alternatives(Lower(rule));
    if r.ok && alts.Some? && |alts.value| == 1 && !Rule.FreeFront(rule) && !Rule.FreeEnd(rule) {
      Rule.CompiledIs(Lower(rule));
      Rule.CheckIsFullMatch(rule, UserOf(es[n].to).value);
    }
  }

  lemma BounceWrites(m: Matcher, c: Contents, db: Db, now: int, e: Event)
    requires e.RcptTo?
    ensures Written(m, c, db, now, e, DetectReturnPath(c, db, now, e.to, e.rcpt.selectFault, e.rcpt.updateFault).c)
  {
    hide Written, Put;
    Unwritten(m, c, db, now, e);
    WrittenOne(m, c, db, now, e, Slot(Nx, e.to), Nothing);
  }

  /** A refusal for want of a domain: none was served under that name at some recent instant. */
  lemma DomainRefusedStale(m: Matcher, tr: seq<System>, es: seq<Event>, n: nat) returns (k: nat)
    requires Run(m, tr, es) && n < |es| && es[n].RcptTo? && Clean(tr, es, n)
    requires Typed(tr[n].world.c)
    requires DetectDomain(tr[n].world.c, tr[n].world.db, tr[n].now, es[n].to, es[n].rcpt.domainFault).answer.None?
    ensures Recent(tr, k, n) && Answers(m, tr[k].world.db, es[n].to, None)
  {
    hide Answers, Put, Typed;
    k := n;
    assert Recent(tr, n, n);
    var name := DomainOf(es[n].to);
    if name.Some? && Lookup(tr[n].world.c, Slot(NxDomain, name.value), tr[n].now).Some? {
      Unwritten(m, tr[n].world.c, tr[n].world.db, tr[n].now, es[n]);
      k := FreshHit(m, tr, es, n, tr[n].world.c, Slot(NxDomain, name.value));
    }
    Unserved(m, tr[k].world.db, es[n].to);
  }

  /** An accepted recipient's domain was live and verified at some instant at most one TTL ago. */
  lemma DomainStale(m: Matcher, tr: seq<System>, es: seq<Event>, n: nat) returns (k: nat)
    requires Run(m, tr, es) && n < |es| && es[n].RcptTo? && Typed(tr[n].world.c)
    requires DetectDomain(tr[n].world.c, tr[n].world.db, tr[n].now, es[n].to, es[n].rcpt.domainFault).answer.Some?
    ensures Recent(tr, k, n) && DomainOf(es[n].to).Some?
    ensures ServedDomain(tr[k].world.db.domains, DomainOf(es[n].to).value).Some?
    ensures var d := DetectDomain(tr[n].world.c, tr[n].world.db, tr[n].now, es[n].to,
                                  es[n].rcpt.domainFault).answer.value;
            d in tr[k].world.db.domains.Values && Served(d, DomainOf(es[n].to).value)
  {
    hide Put, Typed;
    k := n;
    assert Recent(tr, n, n);
    var slot := Slot(DomainName, DomainOf(es[n].to).value);
    if Lookup(tr[n].world.c, slot, tr[n].now).Some? {
      Unwritten(m, tr[n].world.c, tr[n].world.db, tr[n].now, es[n]);
      k := FreshHit(m, tr, es, n, tr[n].world.c, slot);
    }
  }

  // ---------------------------------------------------------------- refusal after deletion

  /** The one request that can make a domain of this name served. */
  predicate Verifies(e: Event, name: string) {
    e.Request? && e.request.ViewDomain? && e.request.q.name == name && e.request.q.code
  }

  lemma CreateDomainServes(db: Db, me: int, name: string, code: string, n: NewDomain, served: string)
    requires FreshFor(db, n) && CreateDomain(db, me, name, code, n).Ok? && ServedDomain(db.domains, served).None?
    ensures ServedDomain(CreateDomain(db, me, name, code, n).value.domains, served).None?
  {
    hide FreshFor, NewRecords, Wanted, DeletedNamesakes, DomainTarget;
  }

  lemma DomainPageServes(db: Db, me: int, allowed: bool, q: PageRequest, now: int, served: string)
    requires q.form.Some? ==> q.form.value.serial !in db.aliases
    requires DomainPage(db, me, allowed, q, now).Ok? && ServedDomain(db.domains, served).None?
    requires !(q.name == served && q.code)
    ensures ServedDomain(DomainPage(db, me, allowed, q, now).value.domains, served).None?
  {
    hide SeenRecords, AllComplete, FindAlias;
  }

  lemma HandleServes(db: Db, me: int, plan: Plan, r: Panel.Request, now: int, name: string)
    requires Possible(db, r) && ServedDomain(db.domains, name).None?
    requires !(r.ViewDomain? && r.q.name == name && r.q.code)
    ensures ServedDomain(Handle(db, me, plan, r, now).domains, name).None?
  {
    hide FreshFor, MayAddDomain, MayAddDestination, MayAddAlias, CreateDomain, DomainPage;
    match r
    case Dashboard(domain, code, n, address, valid, serial) =>
      if CreateDomain(db, me, domain, code, n).Ok? {
        CreateDomainServes(db, me, domain, code, n, name);
      }
    case ViewDomain(q) =>
      if DomainPage(db, me, MayAddAlias(db, me, plan), q, now).Ok? {
        DomainPageServes(db, me, MayAddAlias(db, me, plan), q, now, name);
      }
    case _ =>
  }

  lemma StepServes(m: Matcher, s: System, e: Event, name: string)
    requires Consistent(s) && Feasible(s, e) && !Verifies(e, name) && ServedDomain(s.world.db.domains, name).None?
    ensures ServedDomain(Step(m, s, e).world.db.domains, name).None?
  {
    hide WorldAgrees, VerifiedOk, SessionAgrees, Handle, Possible, Rcpt, Data, AliasRows, DestinationRows;
    assert Typed(s.world.c) by { ConsistentTyped(s); }
    match e
    case Request(me, plan, request) => HandleServes(s.world.db, me, plan, request, s.now, name);
    case RcptTo(sid, to, rcpt) => RcptTables(m, s.world, s.now, s.sessions[sid], to, rcpt);
    case SendData(sid, data) => DataTables(s.world, s.now, s.sessions[sid], data);
    case _ =>
  }

  lemma {:induction false} StaysUnserved(m: Matcher, tr: seq<System>, es: seq<Event>, i: nat, n: nat, name: string)
    requires Run(m, tr, es) && i <= n < |tr| && ServedDomain(tr[i].world.db.domains, name).None?
    requires forall j :: i <= j < n ==> !Verifies(es[j], name)
    ensures ServedDomain(tr[n].world.db.domains, name).None?
  {
    hide Consistent, Step, Feasible, Verifies;
    if i < n {
      StaysUnserved(m, tr, es, i, n - 1, name);
      OneStep(m, tr, es, n - 1);
      StepServes(m, tr[n - 1], es[n - 1], name);
    }
  }

  /** Once a name is not served, and until its verification succeeds anew, every recipient
      under it is refused from one TTL on, as an alias and as a return path alike, whatever
      was cached before. */
  lemma RefusedAfterTtl(m: Matcher, tr: seq<System>, es: seq<Event>, i: nat, n: nat)
    requires Run(m, tr, es) && i <= n < |es| && es[n].RcptTo? && DomainOf(es[n].to).Some?
    requires ServedDomain(tr[i].world.db.domains, DomainOf(es[n].to).value).None?
    requires forall j :: i <= j < n ==> !Verifies(es[j], DomainOf(es[n].to).value)
    requires tr[n].now > tr[i].now + TTL
    ensures es[n].sid in tr[n].sessions && Typed(tr[n].world.c)
    ensures !Rcpt(m, tr[n].world, tr[n].now, tr[n].sessions[es[n].sid], es[n].to, es[n].rcpt).ok
    ensures tr[n + 1].sessions == tr[n].sessions && tr[n + 1].world.db == tr[n].world.db
  {
    hide Consistent, DetectDomain, DetectReturnPath, DetectAlias, Verifies, ServedDomain, AliasRows;
    OneStep(m, tr, es, n);
    ConsistentTyped(tr[n]);
    var d := DetectDomain(tr[n].world.c, tr[n].world.db, tr[n].now, es[n].to, es[n].rcpt.domainFault);
    if d.answer.Some? {
      var k := DomainStale(m, tr, es, n);
      if k < i {
        RunGrows(m, tr, es, k, i);
      } else {
        StaysUnserved(m, tr, es, i, k, DomainOf(es[n].to).value);
      }
      assert false;
    }
    assert tr[n].sessions[es[n].sid := tr[n].sessions[es[n].sid]] == tr[n].sessions;
  }

  lemma DeletionUnserves(db: Db, me: int, plan: Plan, name: string, now: int)
    requires Sound(db) && Serve(db, me, plan, RemoveDomain(name), now).Ok?
    ensures ServedDomain(Handle(db, me, plan, RemoveDomain(name), now).domains, name).None?
  {
    hide AliasesOk, LinksOk, OwnedByDomain, BooksOk, UniqueRules, UniqueAddresses, OneLiveKey;
  }

  /** A domain that its owner deleted and nobody has verified again is refused one TTL later. */
  lemma RefusedAfterDelete(m: Matcher, tr: seq<System>, es: seq<Event>, i: nat, n: nat)
    requires Run(m, tr, es) && i < n < |es|
    requires es[i].Request? && es[i].request.RemoveDomain? &&
             Serve(tr[i].world.db, es[i].me, es[i].plan, es[i].request, tr[i].now).Ok?
    requires es[n].RcptTo? && DomainOf(es[n].to) == Some(es[i].request.name)
    requires forall j :: i < j < n ==> !Verifies(es[j], es[i].request.name)
    requires tr[n].now > tr[i].now + TTL
    ensures es[n].sid in tr[n].sessions && Typed(tr[n].world.c)
    ensures !Rcpt(m, tr[n].world, tr[n].now, tr[n].sessions[es[n].sid], es[n].to, es[n].rcpt).ok
  {
    hide Sound, VerifiedOk, CacheAgrees, OutboxAgrees, SessionAgrees, Typed, Handle, Serve, ServedDomain, Rcpt,
      Verifies;
    OneStep(m, tr, es, i);
    DeletionUnserves(tr[i].world.db, es[i].me, es[i].plan, es[i].request.name, tr[i].now);
    RefusedAfterTtl(m, tr, es, i + 1, n);
  }

  // ---------------------------------------------------------------- staleness of destinations

  /** The destinations a relay fans out to. */
  function Targets(w: World, now: int, s: Session, e: RelayEnv): Option<seq<Destination>>
    requires Typed(w.c)
  {
    GetDestinations(GetRdns(w.c, now, e.wire.ip, e.rdns).c, now, s.alias.id, e.rows, e.destinationFault).answer
  }

  /** What a relay adds to the queue: one email a target in order, all of them on success. */
  ghost predicate Fans(a: seq<Email>, b: seq<Email>, ds: seq<Destination>, ok: bool) {
    && |a| <= |b| <= |a| + |ds| && b[..|a|] == a
    && (forall i :: |a| <= i < |b| ==> b[i].destination == ds[i - |a|].id && b[i].bounce == "")
    && (ok ==> |b| == |a| + |ds|)
  }

  lemma QueuedFans(a: seq<Email>, w: Wire, rdns: string, s: Session, path: string, ds: seq<Destination>)
    ensures var q := Queued(w, rdns, s, path, ds, 0); Fans(a, a + q, ds, |q| == |ds|)
  {
    FanOutConserves(w, rdns, s, path, ds, 0);
  }

  lemma RelayFans(w: World, now: int, s: Session, e: RelayEnv)
    requires Typed(w.c)
    ensures var r := Relay(w, now, s, e);
            if r.world.outbox == w.outbox && !r.ok then true
            else Targets(w, now, s, e).Some? && Fans(w.outbox, r.world.outbox, Targets(w, now, s, e).value, r.ok)
  {
    hide GetDestinations, GetRdns, ReturnPathText, Typed, Fans, Queued;
    var r := Relay(w, now, s, e);
    if r.world.outbox != w.outbox || r.ok {
      var rd := GetRdns(w.c, now, e.wire.ip, e.rdns);
      var p := MakeReturnPath(w.db, s, e.insertFault);
      var ds := Targets(w, now, s, e).value;
      QueuedFans(w.outbox, e.wire, rd.answer.value, s.(from := e.header.value), p.answer.value, ds);
    }
  }

  lemma TargetsStale(m: Matcher, tr: seq<System>, es: seq<Event>, n: nat, s: Session) returns (k: nat)
    requires Run(m, tr, es) && n < |es| && es[n].SendData? && Typed(tr[n].world.c)
    requires DestinationRows(tr[n].world.db, s.alias.id, es[n].data.relay.rows)
    requires Targets(tr[n].world, tr[n].now, s, es[n].data.relay).Some?
    ensures Recent(tr, k, n)
    ensures DestinationRows(tr[k].world.db, s.alias.id, Targets(tr[n].world, tr[n].now, s, es[n].data.relay).value)
  {
    hide DestinationRows, DestinationSlot, GetRdns, Put, Written, Typed;
    var w, now, r := tr[n].world, tr[n].now, es[n].data.relay;
    var rd := GetRdns(w.c, now, r.wire.ip, r.rdns);
    k := n;
    RdnsWrites(m, w, now, r, es[n]);
    var slot := DestinationSlot(s.alias.id);
    if Lookup(rd.c, slot, now).Some? {
      k := FreshHit(m, tr, es, n, rd.c, slot);
      SlotFact(m, tr[k].world.db, es[k], s.alias.id, rd.c[slot].value);
    }
  }

  lemma SlotFact(m: Matcher, db: Db, e: Event, alias: int, v: Value)
    requires Fact(m, db, e, DestinationSlot(alias), v)
    ensures v.DestinationsV? && DestinationRows(db, alias, v.destinations)
  {
  }

  /** The peer's address was looked up, by that name, at an instant at most one TTL ago. */
  ghost predicate LookedUp(tr: seq<System>, es: seq<Event>, n: nat, ip: string, name: string)
    requires n < |es| && |tr| == |es| + 1
  {
    exists k: nat | Recent(tr, k, n) ::
      es[k].SendData? && es[k].data.relay.wire.ip == ip && es[k].data.relay.rdns == Some(name)
  }

  /** The reverse name that a relay uses, cached or not, was looked up for that address. */
  lemma RdnsStale(m: Matcher, tr: seq<System>, es: seq<Event>, n: nat)
    requires Run(m, tr, es) && n < |es| && es[n].SendData? && Typed(tr[n].world.c)
    ensures var r := es[n].data.relay;
            var name := GetRdns(tr[n].world.c, tr[n].now, r.wire.ip, r.rdns).answer;
            name.Some? ==> LookedUp(tr, es, n, r.wire.ip, name.value)
  {
    hide Put, Typed;
    var c, r := tr[n].world.c, es[n].data.relay;
    var slot := Slot(Rdns, r.wire.ip);
    assert Recent(tr, n, n);
    if Lookup(c, slot, tr[n].now).Some? {
      Unwritten(m, c, tr[n].world.db, tr[n].now, es[n]);
      var k := FreshHit(m, tr, es, n, c, slot);
    }
  }

  /** A message is handed on to the destinations that were live and linked to the recipient's
      alias at one instant at most one TTL ago: never to any other and, on success, to every
      one of them exactly once. */
  lemma DeliveredStale(m: Matcher, tr: seq<System>, es: seq<Event>, n: nat) returns (k: nat)
    requires Run(m, tr, es) && n < |es| && es[n].SendData?
    requires es[n].sid in tr[n].sessions && !tr[n].sessions[es[n].sid].returnPath
    ensures Recent(tr, k, n) && Typed(tr[n].world.c)
    ensures var a, b, s := tr[n].world.outbox, tr[n + 1].world.outbox, tr[n].sessions[es[n].sid];
            && |a| <= |b| && b[..|a|] == a
            && (forall i :: |a| <= i < |b| ==> Linked(tr[k].world.db, s.alias.id, b[i].destination))
            && (forall i, j :: |a| <= i < j < |b| ==> b[i].destination != b[j].destination)
            && (Data(tr[n].world, tr[n].now, s, es[n].data).ok ==>
                  forall d :: Linked(tr[k].world.db, s.alias.id, d) ==> exists i ::
                      |a| <= i < |b| && b[i].destination == d)
  {
    hide Consistent, Relay, Targets, Typed, DestinationRows;
    OneStep(m, tr, es, n);
    ConsistentTyped(tr[n]);
    var w, s, e := tr[n].world, tr[n].sessions[es[n].sid], es[n].data;
    var s1 := s.(message := s.message + e.body);
    RelayFans(w, tr[n].now, s1, e.relay);
    k := n;
    if Targets(w, tr[n].now, s1, e.relay).Some? {
      k := TargetsStale(m, tr, es, n, s1);
      var ds := Targets(w, tr[n].now, s1, e.relay).value;
      RunConsistent(m, tr, es, k);
      ConsistentNumbered(tr[k]);
      RowsLinked(tr[k].world.db, s.alias.id, ds);
      var a, b := w.outbox, tr[n + 1].world.outbox;
      if Data(w, tr[n].now, s, e).ok {
        forall d | Linked(tr[k].world.db, s.alias.id, d)
          ensures exists i :: |a| <= i < |b| && b[i].destination == d
        {
          var i :| 0 <= i < |ds| && ds[i].id == d;
          assert b[|a| + i].destination == d;
        }
      }
    }
  }

  lemma ConsistentNumbered(s: System)
    requires Consistent(s)
    ensures Numbered(s.world.db)
  {
  }

  lemma RowsLinked(db: Db, alias: int, rows: seq<Destination>)
    requires DestinationRows(db, alias, rows) && Numbered(db)
    ensures forall i :: 0 <= i < |rows| ==> Linked(db, alias, rows[i].id)
    ensures forall i, j :: 0 <= i < j < |rows| ==> rows[i].id != rows[j].id
    ensures forall d :: Linked(db, alias, d) ==> exists i :: 0 <= i < |rows| && rows[i].id == d
  {
    forall d | Linked(db, alias, d)
      ensures exists i :: 0 <= i < |rows| && rows[i].id == d
    {
      var i :| 0 <= i < |rows| && rows[i] == db.destinations[d];
    }
  }

  // ---------------------------------------------------------------- relaying after deletion

  /** While nobody serves the domain of an alias, nothing is linked to the alias. */
  lemma UnservedUnlinked(a: System, b: System, sid: int)
    requires Consistent(a) && Consistent(b) && Grows(a.world.db, b.world.db)
    requires sid in b.sessions && b.sessions[sid].to != "" && !b.sessions[sid].returnPath
    requires ServedDomain(a.world.db.domains, b.sessions[sid].domain.name).None?
    ensures forall d :: !Linked(a.world.db, b.sessions[sid].alias.id, d)
  {
    hide Constraints, OwnedByDomain, BooksOk, Typed, CacheAgrees, OutboxAgrees;
    var s := b.sessions[sid];
    assert SessionAgrees(b.world.db, s);
  }

  lemma SuccessQueues(w: World, now: int, s: Session, e: DataEnv)
    requires Typed(w.c) && !s.returnPath && Data(w, now, s, e).ok
    ensures |Data(w, now, s, e).world.outbox| > |w.outbox|
  {
    hide GetDestinations, GetRdns, MakeReturnPath, Queued, Typed;
  }

  /** From one TTL after a name stopped being served, and until it is verified anew, a session
      relays nothing to an alias under it, whenever that alias was accepted as its recipient. */
  lemma RelaysNothingAfterTtl(m: Matcher, tr: seq<System>, es: seq<Event>, i: nat, n: nat)
    requires Run(m, tr, es) && i <= n < |es| && es[n].SendData? && es[n].sid in tr[n].sessions
    requires tr[n].sessions[es[n].sid].to != "" && !tr[n].sessions[es[n].sid].returnPath
    requires ServedDomain(tr[i].world.db.domains, tr[n].sessions[es[n].sid].domain.name).None?
    requires forall j :: i <= j < n ==> !Verifies(es[j], tr[n].sessions[es[n].sid].domain.name)
    requires tr[n].now > tr[i].now + TTL
    ensures Typed(tr[n].world.c)
    ensures !Data(tr[n].world, tr[n].now, tr[n].sessions[es[n].sid], es[n].data).ok
    ensures tr[n + 1].world.outbox == tr[n].world.outbox
  {
    hide Consistent, Data, Verifies, ServedDomain, Linked, Typed, Grows;
    var s := tr[n].sessions[es[n].sid];
    OneStep(m, tr, es, n);
    var k := DeliveredStale(m, tr, es, n);
    if k < i {
      RunGrows(m, tr, es, k, i);
      assert false;
    }
    StaysUnserved(m, tr, es, i, k, s.domain.name);
    RunConsistent(m, tr, es, k);
    RunGrows(m, tr, es, k, n);
    var a, b := tr[n].world.outbox, tr[n + 1].world.outbox;
    if |b| > |a| {
      assert Linked(tr[k].world.db, s.alias.id, b[|a|].destination);
      UnservedUnlinked(tr[k], tr[n], es[n].sid);
      assert false;
    }
    if Data(tr[n].world, tr[n].now, s, es[n].data).ok {
      SuccessQueues(tr[n].world, tr[n].now, s, es[n].data);
    }
    assert b[..|a|] == b;
  }

  /** The same from the deletion of the domain on. */
  lemma RelaysNothingAfterDelete(m: Matcher, tr: seq<System>, es: seq<Event>, i: nat, n: nat)
    requires Run(m, tr, es) && i < n < |es|
    requires es[i].Request? && es[i].request.RemoveDomain? &&
             Serve(tr[i].world.db, es[i].me, es[i].plan, es[i].request, tr[i].now).Ok?
    requires es[n].SendData? && es[n].sid in tr[n].sessions
    requires tr[n].sessions[es[n].sid].to != "" && !tr[n].sessions[es[n].sid].returnPath
    requires tr[n].sessions[es[n].sid].domain.name == es[i].request.name
    requires forall j :: i < j < n ==> !Verifies(es[j], es[i].request.name)
    requires tr[n].now > tr[i].now + TTL
    ensures Typed(tr[n].world.c)
    ensures !Data(tr[n].world, tr[n].now, tr[n].sessions[es[n].sid], es[n].data).ok
    ensures tr[n + 1].world.outbox == tr[n].world.outbox
  {
    hide Sound, VerifiedOk, CacheAgrees, OutboxAgrees, SessionAgrees, Typed, Handle, Serve, ServedDomain, Data,
      Verifies;
    OneStep(m, tr, es, i);
    DeletionUnserves(tr[i].world.db, es[i].me, es[i].plan, es[i].request.name, tr[i].now);
    RelaysNothingAfterTtl(m, tr, es, i + 1, n);
  }
}
