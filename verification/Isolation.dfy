/** Accounts do not reach into each other: over a whole run, what the others do changes no row of an
    account, no answer for its domains and no destination of its aliases. */
module Isolation {
  import opened Text
  import opened Schema
  import opened Store
  import opened Integrity
  import opened Panel
  import opened Cache
  import opened Router
  import opened Sessions
  import opened Agreement
  import opened Runs
  import opened Frames

  // ---------------------------------------------------------------- one account's rows

  ghost predicate SameDomains(a: Db, b: Db, x: int) {
    forall i :: (i in a.domains && a.domains[i].account == x) || (i in b.domains && b.domains[i].account == x) ==>
      i in a.domains && i in b.domains && a.domains[i] == b.domains[i]
  }

  ghost predicate SameAliases(a: Db, b: Db, x: int) {
    forall i :: (i in a.aliases && a.aliases[i].account == x) || (i in b.aliases && b.aliases[i].account == x) ==>
      i in a.aliases && i in b.aliases && a.aliases[i] == b.aliases[i]
  }

  ghost predicate SameDestinations(a: Db, b: Db, x: int) {
    forall i ::
      (i in a.destinations && a.destinations[i].account == x) ||
      (i in b.destinations && b.destinations[i].account == x) ==>
        i in a.destinations && i in b.destinations && a.destinations[i] == b.destinations[i]
  }

  ghost predicate SameLinks(a: Db, b: Db, x: int) {
    forall k :: (k in a.links && a.links[k].account == x) || (k in b.links && b.links[k].account == x) ==>
      k in a.links && k in b.links && a.links[k] == b.links[k]
  }

  ghost predicate SameKeys(a: Db, b: Db, x: int) {
    forall k :: (k in a.keys && a.keys[k].account == x) || (k in b.keys && b.keys[k].account == x) ==>
      k in a.keys && k in b.keys && a.keys[k] == b.keys[k]
  }

  ghost predicate SameRecords(a: Db, b: Db, x: int) {
    forall r :: (r in a.records && a.records[r].account == x) || (r in b.records && b.records[r].account == x) ==>
      r in a.records && r in b.records && a.records[r] == b.records[r]
  }

  /** Account x has the same rows in both. */
  ghost predicate SameFor(a: Db, b: Db, x: int) {
    && SameDomains(a, b, x) && SameAliases(a, b, x) && SameDestinations(a, b, x)
    && SameLinks(a, b, x) && SameKeys(a, b, x) && SameRecords(a, b, x)
  }

  lemma SameForReflexive(a: Db, x: int)
    ensures SameFor(a, a, x)
  {
  }

  lemma SameForTransitive(a: Db, b: Db, c: Db, x: int)
    requires SameFor(a, b, x) && SameFor(b, c, x)
    ensures SameFor(a, c, x)
  {
  }

  // ---------------------------------------------------------------- a request by another account

  lemma DomainGoneApart(a: Db, b: Db, d: int, x: int)
    requires Sound(a) && DomainGone(a, b, d) && a.domains[d].account != x
    ensures SameFor(a, b, x)
  {
    hide Constraints, BooksOk;
    assert forall i :: i in AliasesUnder(a, d) ==> a.aliases[i].account != x;
    forall k | k in LinksOf(a, AliasesUnder(a, d))
      ensures a.links[k].account != x
    {
      assert k.0 in AliasesUnder(a, d);
    }
  }

  lemma AliasGoneApart(a: Db, b: Db, alias: int, x: int)
    requires Sound(a) && AliasGone(a, b, alias) && a.aliases[alias].account != x
    ensures SameFor(a, b, x)
  {
    hide Constraints, BooksOk, OwnedByDomain;
    assert forall k :: k in LinksOf(a, {alias}) ==> k.0 == alias;
  }

  lemma DestinationGoneApart(a: Db, b: Db, destination: int, x: int)
    requires Sound(a) && DestinationGone(a, b, destination) && a.destinations[destination].account != x
    ensures SameFor(a, b, x)
  {
    hide Constraints, BooksOk, OwnedByDomain;
    assert forall k :: k in LinksTo(a, destination) ==> a.links[k].account == a.destinations[k.1].account;
  }

  lemma LinkGoneApart(a: Db, b: Db, k: (int, int), x: int)
    requires Sound(a) && LinkGone(a, b, k) && k.0 in a.aliases && a.aliases[k.0].account != x
    ensures SameFor(a, b, x)
  {
    hide Constraints, BooksOk, OwnedByDomain;
  }

  lemma AttachedApart(a: Db, b: Db, me: int, k: (int, int), x: int)
    requires Sound(a) && Attached(a, b, me, k) && k.0 in a.aliases && a.aliases[k.0].account == me != x
    ensures SameFor(a, b, x)
  {
    hide Constraints, BooksOk, OwnedByDomain;
  }

  lemma AliasMadeApart(a: Db, b: Db, row: Alias, destination: int, x: int)
    requires Sound(a) && AliasMade(a, b, row, destination) && row.account != x
    requires row.domain in a.domains && a.domains[row.domain].account == row.account
    ensures SameFor(a, b, x)
  {
    hide Constraints, BooksOk, OwnedByDomain;
  }

  lemma DestinationMadeApart(a: Db, b: Db, row: Destination, x: int)
    requires DestinationMade(a, b, row) && row.account != x
    ensures SameFor(a, b, x)
  {
  }

  lemma CreatedApart(a: Db, b: Db, me: int, name: string, code: string, n: NewDomain, id: int, x: int)
    requires FreshFor(a, n) && Created(a, b, me, name, code, n, id) && me != x
    ensures SameFor(a, b, x)
  {
    hide LiveKeys, LiveContents, WantedSet;
  }

  lemma RecheckedApart(a: Db, b: Db, me: int, d: int, published: set<int>, now: int, x: int)
    requires Rechecked(a, b, me, d, published, now) && me != x
    ensures SameFor(a, b, x)
  {
  }

  lemma RecheckedSound(a: Db, b: Db, me: int, d: int, published: set<int>, now: int)
    requires Sound(a) && Rechecked(a, b, me, d, published, now)
    ensures Sound(b)
  {
    hide Constraints, OwnedByDomain, Grows, BooksOk, AliasesOk, LinksOk;
    RecheckedRows(a, b, me, d, published, now);
    SameRowsIntegrity(a, b);
  }

  lemma RecheckedRows(a: Db, b: Db, me: int, d: int, published: set<int>, now: int)
    requires Rechecked(a, b, me, d, published, now)
    ensures SameRows(a, b) && (AliasesOk(a) ==> AliasesOk(b)) && (LinksOk(a) ==> LinksOk(b))
    ensures forall r :: r in a.records ==> b.records[r].live == a.records[r].live
  {
  }

  lemma VisitApart(a: Db, b: Db, me: int, allowed: bool, q: PageRequest, now: int, d: int, x: int)
    requires Sound(a) && SeesDomain(a, me, d) && me != x
    requires if a.domains[d].verified then RecordVisit(a, b, me, allowed, q, now, d) else CodeVisit(a, b, q, d)
    ensures SameFor(a, b, x)
  {
    hide Sound, Rechecked, AliasMade, Proven, SameFor;
    SameForReflexive(a, x);
    if !a.domains[d].verified {
      CodeVisitApart(a, b, q, d, x);
    } else if !Proven(a, me, d, q.published, now) || q.form.None? {
      RecheckedApart(a, b, me, d, q.published, now, x);
    } else if q.form.value.destination.Some? {
      var f := q.form.value;
      var mid :| Rechecked(a, mid, me, d, q.published, now) &&
        if allowed && f.rule != "" && f.compiles && SeesDestination(a, me, f.destination.value) then
          exists id :: AliasMade(mid, b, Alias(id, me, d, f.rule, true), f.destination.value)
        else b == mid;
      RecheckedApart(a, mid, me, d, q.published, now, x);
      RecheckedSound(a, mid, me, d, q.published, now);
      if b != mid {
        var id :| AliasMade(mid, b, Alias(id, me, d, f.rule, true), f.destination.value);
        assert mid.domains == a.domains by { RecheckedDomains(a, mid, me, d, q.published, now); }
        AliasMadeApart(mid, b, Alias(id, me, d, f.rule, true), f.destination.value, x);
        SameForTransitive(a, mid, b, x);
      }
    }
  }

  lemma RecheckedDomains(a: Db, b: Db, me: int, d: int, published: set<int>, now: int)
    requires Rechecked(a, b, me, d, published, now)
    ensures b.domains == a.domains
  {
  }

  lemma CodeVisitApart(a: Db, b: Db, q: PageRequest, d: int, x: int)
    requires CodeVisit(a, b, q, d) && a.domains[d].account != x
    ensures SameFor(a, b, x)
  {
  }

  lemma HandleApart(db: Db, me: int, plan: Plan, r: Panel.Request, now: int, x: int)
    requires Sound(db) && Possible(db, r) && me != x
    ensures SameFor(db, Handle(db, me, plan, r, now), x)
  {
    hide Sound, Handle, FreshFor, Created, DestinationMade, RecordVisit, CodeVisit, DomainGone, AliasGone, LinkGone,
      Attached, DestinationGone, Creatable, OwnDomains, OwnDestinations, OwnAliases, SameFor;
    var b := Handle(db, me, plan, r, now);
    HandleDoes(db, me, plan, r, now);
    SameForReflexive(db, x);
    if b != db {
      match r
      case Dashboard(domain, code, n, address, _, _) =>
        if id :| Created(db, b, me, domain, code, n, id) {
          CreatedApart(db, b, me, domain, code, n, id, x);
        } else {
          var id :| DestinationMade(db, b, Destination(id, me, Lower(address), true));
          DestinationMadeApart(db, b, Destination(id, me, Lower(address), true), x);
        }
      case ViewDomain(q) =>
        var d :| SeesName(db, me, q.name, d) &&
          if db.domains[d].verified
          then RecordVisit(db, b, me, plan.Subscription? || |OwnAliases(db, me)| < 2, q, now, d)
          else CodeVisit(db, b, q, d);
        VisitApart(db, b, me, plan.Subscription? || |OwnAliases(db, me)| < 2, q, now, d, x);
      case RemoveDomain(name) =>
        var d :| SeesName(db, me, name, d) && DomainGone(db, b, d);
        DomainGoneApart(db, b, d, x);
      case RemoveAlias(alias) => AliasGoneApart(db, b, alias, x);
      case RemoveLink(alias, destination) => LinkGoneApart(db, b, (alias, destination), x);
      case Attach(alias, destination) => AttachedApart(db, b, me, (alias, destination), x);
      case RemoveDestination(destination) => DestinationGoneApart(db, b, destination, x);
    }
  }

  // ---------------------------------------------------------------- what it means for mail

  ghost predicate OwnsName(db: Db, x: int, name: string) {
    exists d :: d in db.domains && db.domains[d].name == name && db.domains[d].account == x
  }

  lemma CandidateOwner(m: Matcher, db: Db, name: string, user: string, r: Alias, x: int)
    requires Sound(db) && OwnsName(db, x, name) && Candidate(m, db, name, user, r)
    ensures r.account == x && db.domains[r.domain].account == x
  {
    hide BooksOk, LinksOk, OwnedByDomain, Fires;
    var d :| d in db.domains && db.domains[d].name == name && db.domains[d].account == x;
    assert r.domain == d;
  }

  lemma CandidateStays(m: Matcher, a: Db, b: Db, name: string, user: string, r: Alias, x: int)
    requires Sound(a) && OwnsName(a, x, name) && SameFor(a, b, x) && Candidate(m, a, name, user, r)
    ensures Candidate(m, b, name, user, r)
  {
    CandidateOwner(m, a, name, user, r, x);
    hide Sound, Fires, SameDestinations, SameLinks, SameKeys, SameRecords;
  }

  lemma NameStays(a: Db, b: Db, name: string, x: int)
    requires OwnsName(a, x, name) && SameFor(a, b, x)
    ensures OwnsName(b, x, name)
  {
    hide SameAliases, SameDestinations, SameLinks, SameKeys, SameRecords;
    var d :| d in a.domains && a.domains[d].name == name && a.domains[d].account == x;
    assert b.domains[d] == a.domains[d];
  }

  lemma SameForSymmetric(a: Db, b: Db, x: int)
    requires SameFor(a, b, x)
    ensures SameFor(b, a, x)
  {
  }

  /** Mail for an account's domains is answered alike. */
  lemma AnswersApart(m: Matcher, a: Db, b: Db, x: int, email: string, answer: Option<Alias>)
    requires Sound(a) && Sound(b) && SameFor(a, b, x)
    requires DomainOf(email).Some? && OwnsName(a, x, DomainOf(email).value)
    ensures Answers(m, a, email, answer) <==> Answers(m, b, email, answer)
  {
    hide Sound, SameFor, Candidate, OwnsName;
    var name, user := DomainOf(email).value, UserOf(email).value;
    NameStays(a, b, name, x);
    SameForSymmetric(a, b, x);
    forall r: Alias
      ensures Candidate(m, a, name, user, r) <==> Candidate(m, b, name, user, r)
    {
      if Candidate(m, a, name, user, r) {
        CandidateStays(m, a, b, name, user, r, x);
      }
      if Candidate(m, b, name, user, r) {
        CandidateStays(m, b, a, name, user, r, x);
      }
    }
    SameCandidates(m, a, b, name, user, answer);
  }

  /** And goes to the same destinations. */
  lemma LinkedApart(a: Db, b: Db, x: int, alias: int, to: int)
    requires Sound(a) && Sound(b) && SameFor(a, b, x) && alias in a.aliases && a.aliases[alias].account == x
    ensures Linked(a, alias, to) <==> Linked(b, alias, to)
  {
    hide Constraints, BooksOk, OwnedByDomain, AliasesOk, SameDomains, SameKeys, SameRecords;
    assert alias in b.aliases && b.aliases[alias].account == x;
  }

  // ---------------------------------------------------------------- over a run

  lemma StepApart(m: Matcher, s: System, e: Event, x: int)
    requires Consistent(s) && Feasible(s, e) && Typed(s.world.c) && !(e.Request? && e.me == x)
    ensures SameFor(s.world.db, Step(m, s, e).world.db, x)
  {
    hide Typed, CacheAgrees, OutboxAgrees, VerifiedOk, SessionAgrees, Sound, SameFor, Handle, Possible, Rcpt, Data,
      AliasRows, DestinationRows;
    SameForReflexive(s.world.db, x);
    match e
    case Request(me, plan, request) => HandleApart(s.world.db, me, plan, request, s.now, x);
    case RcptTo(sid, to, rcpt) =>
      RcptTables(m, s.world, s.now, s.sessions[sid], to, rcpt);
      PathsApart(s.world.db, Step(m, s, e).world.db, x);
    case SendData(sid, data) =>
      DataTables(s.world, s.now, s.sessions[sid], data);
      PathsApart(s.world.db, Step(m, s, e).world.db, x);
    case _ =>
  }

  lemma PathsApart(a: Db, b: Db, x: int)
    requires b == a.(returnPaths := b.returnPaths)
    ensures SameFor(a, b, x)
  {
  }

  lemma {:induction false} RunApart(m: Matcher, tr: seq<System>, es: seq<Event>, i: nat, n: nat, x: int)
    requires Run(m, tr, es) && i <= n < |tr|
    requires forall j :: i <= j < n ==> !(es[j].Request? && es[j].me == x)
    ensures SameFor(tr[i].world.db, tr[n].world.db, x)
  {
    hide Consistent, Step, Feasible, SameFor;
    if i == n {
      SameForReflexive(tr[i].world.db, x);
    } else {
      RunApart(m, tr, es, i, n - 1, x);
      OneStep(m, tr, es, n - 1);
      ConsistentTyped(tr[n - 1]);
      StepApart(m, tr[n - 1], es[n - 1], x);
      SameForTransitive(tr[i].world.db, tr[n - 1].world.db, tr[n].world.db, x);
    }
  }

  /** However many requests other accounts make, and whatever mail comes: as long as an account itself
      makes none, its rows stay as they are, and so do the answers for its domains and the destinations
      of its aliases. */
  lemma OthersChangeNothing(m: Matcher, tr: seq<System>, es: seq<Event>, i: nat, n: nat, x: int, email: string,
                            answer: Option<Alias>, alias: int, to: int)
    requires Run(m, tr, es) && i <= n < |tr|
    requires forall j :: i <= j < n ==> !(es[j].Request? && es[j].me == x)
    ensures SameFor(tr[i].world.db, tr[n].world.db, x)
    ensures DomainOf(email).Some? && OwnsName(tr[i].world.db, x, DomainOf(email).value) ==>
              (Answers(m, tr[i].world.db, email, answer) <==> Answers(m, tr[n].world.db, email, answer))
    ensures alias in tr[i].world.db.aliases && tr[i].world.db.aliases[alias].account == x ==>
              (Linked(tr[i].world.db, alias, to) <==> Linked(tr[n].world.db, alias, to))
  {
    hide SameFor, Answers, Linked, OwnsName, Consistent, Next;
    RunApart(m, tr, es, i, n, x);
    RunSound(m, tr, es, i);
    RunSound(m, tr, es, n);
    var a, b := tr[i].world.db, tr[n].world.db;
    if DomainOf(email).Some? && OwnsName(a, x, DomainOf(email).value) {
      AnswersApart(m, a, b, x, email, answer);
    }
    if alias in a.aliases && a.aliases[alias].account == x {
      LinkedApart(a, b, x, alias, to);
    }
  }

  lemma RunSound(m: Matcher, tr: seq<System>, es: seq<Event>, n: nat)
    requires Run(m, tr, es) && n < |tr|
    ensures Sound(tr[n].world.db)
  {
    hide Next, Sound;
    RunConsistent(m, tr, es, n);
  }
}
