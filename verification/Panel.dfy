/** The control-panel requests: plan limits in front of the account operations, and what a
    whole run of requests by many accounts keeps. A request that fails is rolled back. */
module Panel {
  import opened Text
  import opened Schema
  import opened Store
  import opened Integrity

  datatype Plan = Free | Subscription

  const DOMAIN_LIMIT: nat := 1
  const DESTINATION_LIMIT: nat := 3
  const ALIAS_LIMIT: nat := 2

  /** What the queries `COUNT(*) … WHERE deleted_at IS NULL` of an account see. */
  ghost function OwnDomains(db: Db, a: int): set<int> {
    set i | i in db.domains && db.domains[i].account == a && db.domains[i].live
  }

  ghost function OwnDestinations(db: Db, a: int): set<int> {
    set i | i in db.destinations && db.destinations[i].account == a && db.destinations[i].live
  }

  ghost function OwnAliases(db: Db, a: int): set<int> {
    set i | i in db.aliases && db.aliases[i].account == a && db.aliases[i].live
  }

  ghost predicate MayAddDomain(db: Db, me: int, plan: Plan) {
    plan.Subscription? || !(|OwnDomains(db, me)| >= DOMAIN_LIMIT)
  }

  ghost predicate MayAddDestination(db: Db, me: int, plan: Plan) {
    plan.Subscription? || !(|OwnDestinations(db, me)| >= DESTINATION_LIMIT)
  }

  ghost predicate MayAddAlias(db: Db, me: int, plan: Plan) {
    plan.Subscription? || !(|OwnAliases(db, me)| >= ALIAS_LIMIT)
  }

  /** The Free plan has room for one live domain, three live destinations and two live aliases. */
  lemma LimitsAre(db: Db, me: int, plan: Plan)
    ensures MayAddDomain(db, me, plan) <==>
              plan.Subscription? ||
              |set i | i in db.domains && db.domains[i].account == me && db.domains[i].live| < 1
    ensures MayAddDestination(db, me, plan) <==>
              plan.Subscription? ||
              |set i | i in db.destinations && db.destinations[i].account == me && db.destinations[i].live| < 3
    ensures MayAddAlias(db, me, plan) <==>
              plan.Subscription? ||
              |set i | i in db.aliases && db.aliases[i].account == me && db.aliases[i].live| < 2
  {
    assert OwnDomains(db, me) == set i | i in db.domains && db.domains[i].account == me && db.domains[i].live;
    assert OwnDestinations(db, me) ==
           set i | i in db.destinations && db.destinations[i].account == me && db.destinations[i].live;
    assert OwnAliases(db, me) == set i | i in db.aliases && db.aliases[i].account == me && db.aliases[i].live;
  }

  /** Serials are what the sequences would hand out; `valid` is the verdict on an address. */
  datatype Request =
    | Dashboard(domain: string, code: string, n: NewDomain, address: string, valid: bool, serial: int)
    | ViewDomain(q: PageRequest)
    | RemoveDomain(name: string)
    | RemoveAlias(alias: int)
    | RemoveLink(alias: int, destination: int)
    | Attach(alias: int, destination: int)
    | RemoveDestination(destination: int)

  ghost predicate Possible(db: Db, r: Request) {
    match r
    case Dashboard(_, _, n, _, _, serial) => FreshFor(db, n) && serial !in db.destinations
    case ViewDomain(q) => q.form.Some? ==> q.form.value.serial !in db.aliases
    case _ => true
  }

  ghost function Serve(db: Db, me: int, plan: Plan, r: Request, now: int): Outcome
    requires Possible(db, r)
  {
    match r
    case Dashboard(domain, code, n, address, valid, serial) =>
      if domain != "" && MayAddDomain(db, me, plan) then CreateDomain(db, me, domain, code, n)
      else if address != "" && valid && MayAddDestination(db, me, plan)
      then Ok(CreateDestination(db, me, Lower(address), serial))
      else Ok(db)
    case ViewDomain(q) => DomainPage(db, me, MayAddAlias(db, me, plan), q, now)
    case RemoveDomain(name) =>
      var found := FindDomain(db.domains, name);
      if found.None? || !SeesDomain(db, me, found.value) then Err(NoRows) else Ok(DeleteDomain(db, me, found.value))
    case RemoveAlias(alias) => DeleteAlias(db, me, alias)
    case RemoveLink(alias, destination) => DeleteLink(db, me, alias, destination)
    case Attach(alias, destination) => AttachDestination(db, me, alias, destination)
    case RemoveDestination(destination) => DeleteDestination(db, me, destination)
  }

  ghost function Handle(db: Db, me: int, plan: Plan, r: Request, now: int): Db
    requires Possible(db, r)
  {
    var o := Serve(db, me, plan, r, now);
    if o.Ok? then o.value else db
  }

  // ---------------------------------------------------------------- integrity

  /** Aliases come to life only on verified domains, and stay on them. */
  ghost predicate VerifiedOk(db: Db) {
    forall a :: a in db.aliases && db.aliases[a].live ==>
      db.aliases[a].domain in db.domains && db.domains[db.aliases[a].domain].verified
  }

  lemma HandleKeeps(db: Db, me: int, plan: Plan, r: Request, now: int)
    requires Sound(db) && Possible(db, r)
    ensures Sound(Handle(db, me, plan, r, now)) && Grows(db, Handle(db, me, plan, r, now))
  {
    hide Sound, Grows, FreshFor, CreateDomain, DomainPage, DeleteDomain, DeleteAlias, DeleteLink,
      AttachDestination, DeleteDestination, CreateDestination;
    GrowsReflexive(db);
    match r
    case Dashboard(domain, code, n, address, valid, serial) =>
      CreateDomainKeeps(db, me, domain, code, n);
      CreateDestinationKeeps(db, me, Lower(address), serial);
    case ViewDomain(q) =>
      DomainPageKeeps(db, me, MayAddAlias(db, me, plan), q, now);
    case RemoveDomain(name) =>
      var found := FindDomain(db.domains, name);
      if found.Some? && SeesDomain(db, me, found.value) {
        DeleteDomainKeeps(db, me, found.value);
      }
    case RemoveAlias(alias) => DeleteAliasKeeps(db, me, alias);
    case RemoveLink(alias, destination) => DeleteLinkKeeps(db, me, alias, destination);
    case Attach(alias, destination) => AttachKeeps(db, me, alias, destination);
    case RemoveDestination(destination) => DeleteDestinationKeeps(db, me, destination);
  }

  lemma CreateDomainVerified(db: Db, me: int, name: string, code: string, n: NewDomain)
    requires Sound(db) && VerifiedOk(db) && FreshFor(db, n) && CreateDomain(db, me, name, code, n).Ok?
    ensures VerifiedOk(CreateDomain(db, me, name, code, n).value)
  {
    hide BooksOk, LinksOk, Constraints, OwnedByDomain, NewRecords, Wanted;
    var b := CreateDomain(db, me, name, code, n).value;
    TargetDead(db, me, name, code, n);
  }

  lemma CreateAliasVerified(db: Db, me: int, rule: string, domain: int, destination: int, serial: int)
    requires VerifiedOk(db) && serial !in db.aliases && domain in db.domains && db.domains[domain].verified
    requires CreateAlias(db, me, rule, domain, destination, serial).Ok?
    ensures VerifiedOk(CreateAlias(db, me, rule, domain, destination, serial).value)
  {
  }

  lemma DomainPageVerified(db: Db, me: int, allowed: bool, q: PageRequest, now: int)
    requires VerifiedOk(db) && (q.form.Some? ==> q.form.value.serial !in db.aliases)
    requires DomainPage(db, me, allowed, q, now).Ok?
    ensures VerifiedOk(DomainPage(db, me, allowed, q, now).value)
  {
    hide CreateAlias, AllComplete;
    var found := FindDomain(db.domains, q.name);
    var d := found.value;
    if db.domains[d].verified && q.form.Some? && q.form.value.destination.Some? {
      var f := q.form.value;
      var checked := RecheckRecords(db, SeenRecords(db, me, d), now, q.published);
      if CreateAlias(checked, me, f.rule, d, f.destination.value, f.serial).Ok? {
        CreateAliasVerified(checked, me, f.rule, d, f.destination.value, f.serial);
      }
    }
  }

  lemma DeleteDomainVerified(db: Db, me: int, domain: int)
    requires VerifiedOk(db)
    ensures VerifiedOk(DeleteDomain(db, me, domain))
  {
    var b := DeleteDomain(db, me, domain);
    assert forall a :: a in b.aliases && b.aliases[a].live ==>
        db.aliases[a].live && b.aliases[a].domain == db.aliases[a].domain;
  }

  /** No other request touches an alias, but to delete it. */
  lemma OthersVerified(db: Db, me: int, r: Request, plan: Plan, now: int)
    requires VerifiedOk(db) && Possible(db, r) && !r.ViewDomain? && !r.RemoveDomain? && !r.Dashboard?
    ensures VerifiedOk(Handle(db, me, plan, r, now))
  {
  }

  lemma DestinationVerified(db: Db, me: int, address: string, serial: int)
    requires VerifiedOk(db) && serial !in db.destinations
    ensures VerifiedOk(CreateDestination(db, me, address, serial))
  {
  }

  lemma HandleVerified(db: Db, me: int, plan: Plan, r: Request, now: int)
    requires Sound(db) && VerifiedOk(db) && Possible(db, r)
    ensures VerifiedOk(Handle(db, me, plan, r, now))
  {
    hide Sound, FreshFor, CreateDomain, DomainPage, DeleteDomain, MayAddDomain, MayAddDestination, MayAddAlias,
      CreateDestination, DeleteDestination, DeleteAlias, DeleteLink, AttachDestination, VerifiedOk;
    match r
    case RemoveDomain(name) =>
      var found := FindDomain(db.domains, name);
      if found.Some? {
        DeleteDomainVerified(db, me, found.value);
      }
    case Dashboard(domain, code, n, address, valid, serial) =>
      if CreateDomain(db, me, domain, code, n).Ok? {
        CreateDomainVerified(db, me, domain, code, n);
      }
      DestinationVerified(db, me, Lower(address), serial);
    case ViewDomain(q) =>
      if DomainPage(db, me, MayAddAlias(db, me, plan), q, now).Ok? {
        DomainPageVerified(db, me, MayAddAlias(db, me, plan), q, now);
      }
    case _ => OthersVerified(db, me, r, plan, now);
  }

  lemma PageGate(db: Db, me: int, allowed: bool, q: PageRequest, now: int, a: int)
    requires Sound(db) && (q.form.Some? ==> q.form.value.serial !in db.aliases) &&
        DomainPage(db, me, allowed, q, now).Ok?
    requires var b := DomainPage(db, me, allowed, q, now).value; a in b.aliases && b.aliases[a].live
    requires !(a in db.aliases && db.aliases[a].live)
    ensures var d := DomainPage(db, me, allowed, q, now).value.aliases[a].domain;
            && allowed && SeesDomain(db, me, d) && db.domains[d].verified
            && |LiveRecords(db, d)| == 5
            && forall x :: x in LiveRecords(db, d) ==> db.records[x].lastVerified.Some?
  {
    hide Sound, LiveRecords, SeenRecords, FindAlias;
    var d := FindDomain(db.domains, q.name).value;
    SeenAreLive(db, me, d);
  }

  /** An alias comes to life only through the page of a live, verified domain of the account,
      within its plan, and after each of the domain's five records has been seen published. */
  lemma AliasGate(db: Db, me: int, plan: Plan, r: Request, now: int, a: int)
    requires Sound(db) && Possible(db, r)
    requires a in Handle(db, me, plan, r, now).aliases && Handle(db, me, plan, r, now).aliases[a].live
    requires !(a in db.aliases && db.aliases[a].live)
    ensures var d := Handle(db, me, plan, r, now).aliases[a].domain;
            && r.ViewDomain? && MayAddAlias(db, me, plan)
            && SeesDomain(db, me, d) && db.domains[d].verified
            && |LiveRecords(db, d)| == 5
            && forall x :: x in LiveRecords(db, d) ==> db.records[x].lastVerified.Some?
  {
    hide Sound, FreshFor, MayAddDomain, MayAddDestination, MayAddAlias, NewRecords, Wanted, DeletedNamesakes,
      DomainPage, LiveRecords;
    if r.ViewDomain? {
      PageGate(db, me, MayAddAlias(db, me, plan), r.q, now, a);
    }
  }

  // ---------------------------------------------------------------- plan limits

  /** Of the rows now live, all but row `t` were live before, under the same account; row `t`
      may be new, if permitted, and then belongs to `me`. */
  ghost predicate DomainsGain(may: bool, me: int, t: int, a: Db, b: Db) {
    forall i :: i in b.domains && b.domains[i].live ==>
      || (i in a.domains && a.domains[i].live && a.domains[i].account == b.domains[i].account)
      || (may && i == t && b.domains[i].account == me)
  }

  ghost predicate DestinationsGain(may: bool, me: int, t: int, a: Db, b: Db) {
    forall i :: i in b.destinations && b.destinations[i].live ==>
      || (i in a.destinations && a.destinations[i].live && a.destinations[i].account == b.destinations[i].account)
      || (may && i == t && b.destinations[i].account == me)
  }

  ghost predicate AliasesGain(may: bool, me: int, t: int, a: Db, b: Db) {
    forall i :: i in b.aliases && b.aliases[i].live ==>
      || (i in a.aliases && a.aliases[i].live && a.aliases[i].account == b.aliases[i].account)
      || (may && i == t && b.aliases[i].account == me)
  }

  /** The one row that a request may bring to life. */
  ghost function Target(db: Db, me: int, plan: Plan, r: Request): int {
    match r
    case Dashboard(domain, _, n, address, _, serial) =>
      if domain != "" && MayAddDomain(db, me, plan) then DomainTarget(db, domain, n.id)
      else
        var found := FindDestination(db.destinations, me, Lower(address));
        if found.Some? then found.value else serial
    case ViewDomain(q) =>
      var d := FindDomain(db.domains, q.name);
      if d.None? || q.form.None? then 0
      else
        var found := FindAlias(db.aliases, d.value, q.form.value.rule);
        if found.Some? then found.value else q.form.value.serial
    case _ => 0
  }

  lemma AliasStepPuts(db: Db, me: int, allowed: bool, domain: int, f: AliasForm)
    requires f.serial !in db.aliases && AliasStep(db, me, allowed, domain, f).Ok?
    ensures var b := AliasStep(db, me, allowed, domain, f).value;
            var found := FindAlias(db.aliases, domain, f.rule);
            var id := if found.Some? then found.value else f.serial;
            && b.domains == db.domains && b.destinations == db.destinations
            && (b.aliases != db.aliases ==>
                  allowed && b.aliases == db.aliases[id := Alias(id, me, domain, f.rule, true)])
  {
  }

  /** A visit to a page brings no row to life but the alias of its form. */
  lemma PageGains(db: Db, me: int, allowed: bool, q: PageRequest, now: int, t: int)
    requires Possible(db, ViewDomain(q)) && DomainPage(db, me, allowed, q, now).Ok?
    ensures var b := DomainPage(db, me, allowed, q, now).value;
            DomainsGain(false, me, t, db, b) && DestinationsGain(false, me, t, db, b)
  {
    hide SeenRecords, AllComplete, AliasesGain, FindAlias, AliasStep;
    var d := FindDomain(db.domains, q.name).value;
    if db.domains[d].verified && q.form.Some? {
      var checked := RecheckRecords(db, SeenRecords(db, me, d), now, q.published);
      assert checked.aliases == db.aliases;
      if AliasStep(checked, me, allowed, d, q.form.value).Ok? {
        AliasStepPuts(checked, me, allowed, d, q.form.value);
      }
    }
  }

  lemma StepAliases(a: Db, db: Db, me: int, allowed: bool, domain: int, f: AliasForm)
    requires a.aliases == db.aliases && f.serial !in db.aliases && AliasStep(db, me, allowed, domain, f).Ok?
    ensures var found := FindAlias(a.aliases, domain, f.rule);
            AliasesGain(allowed, me, if found.Some? then found.value else f.serial, a,
                        AliasStep(db, me, allowed, domain, f).value)
  {
    hide AliasStep;
    AliasStepPuts(db, me, allowed, domain, f);
  }

  lemma SameAliases(may: bool, me: int, t: int, a: Db, b: Db)
    requires a.aliases == b.aliases
    ensures AliasesGain(may, me, t, a, b)
  {
  }

  lemma PageAliases(db: Db, me: int, plan: Plan, q: PageRequest, now: int)
    requires Possible(db, ViewDomain(q)) && DomainPage(db, me, MayAddAlias(db, me, plan), q, now).Ok?
    ensures AliasesGain(MayAddAlias(db, me, plan), me, Target(db, me, plan, ViewDomain(q)), db,
                        DomainPage(db, me, MayAddAlias(db, me, plan), q, now).value)
  {
    hide SeenRecords, AllComplete, MayAddAlias, AliasStep, AliasesGain, FindAlias;
    var d, allowed := FindDomain(db.domains, q.name).value, MayAddAlias(db, me, plan);
    var b := DomainPage(db, me, allowed, q, now).value;
    if b.aliases == db.aliases {
      SameAliases(allowed, me, Target(db, me, plan, ViewDomain(q)), db, b);
    } else {
      StepAliases(db, RecheckRecords(db, SeenRecords(db, me, d), now, q.published), me, allowed, d, q.form.value);
    }
  }

  lemma HandleDomains(db: Db, me: int, plan: Plan, r: Request, now: int)
    requires Possible(db, r)
    ensures DomainsGain(MayAddDomain(db, me, plan), me, Target(db, me, plan, r), db, Handle(db, me, plan, r, now))
  {
    hide FreshFor, MayAddDomain, MayAddDestination, MayAddAlias, NewRecords, Wanted, DeletedNamesakes, DomainPage;
    if r.ViewDomain? && DomainPage(db, me, MayAddAlias(db, me, plan), r.q, now).Ok? {
      PageGains(db, me, MayAddAlias(db, me, plan), r.q, now, Target(db, me, plan, r));
    }
  }

  lemma HandleDestinations(db: Db, me: int, plan: Plan, r: Request, now: int)
    requires Possible(db, r)
    ensures DestinationsGain(MayAddDestination(db, me, plan), me, Target(db, me, plan, r), db,
                             Handle(db, me, plan, r, now))
  {
    hide FreshFor, MayAddDomain, MayAddDestination, MayAddAlias, NewRecords, Wanted, DeletedNamesakes, DomainPage;
    if r.ViewDomain? && DomainPage(db, me, MayAddAlias(db, me, plan), r.q, now).Ok? {
      PageGains(db, me, MayAddAlias(db, me, plan), r.q, now, Target(db, me, plan, r));
    }
  }

  lemma HandleAliases(db: Db, me: int, plan: Plan, r: Request, now: int)
    requires Possible(db, r)
    ensures AliasesGain(MayAddAlias(db, me, plan), me, Target(db, me, plan, r), db, Handle(db, me, plan, r, now))
  {
    hide FreshFor, MayAddDomain, MayAddDestination, MayAddAlias, NewRecords, Wanted, DeletedNamesakes, DomainPage;
    if r.ViewDomain? && DomainPage(db, me, MayAddAlias(db, me, plan), r.q, now).Ok? {
      PageAliases(db, me, plan, r.q, now);
    }
  }

  lemma {:induction false} Smaller(a: set<int>, b: set<int>)
    requires a <= b
    ensures |a| <= |b|
  {
    if a != {} {
      var x := Member(a);
      Smaller(a - {x}, b - {x});
    }
  }

  /** With at most one new member, and that only below the limit, a count cannot pass it. */
  lemma Bounded(a: set<int>, b: set<int>, t: int, may: bool, limit: nat)
    requires b <= a + {t} && (!may ==> b <= a) && (may ==> |a| < limit)
    ensures |b| <= |a| || |b| <= limit
  {
    Smaller(b, if may then a + {t} else a);
  }

  // ---------------------------------------------------------------- whole runs

  datatype Call = Call(me: int, plan: Plan, request: Request, now: int)

  ghost predicate RunPossible(db: Db, calls: seq<Call>)
    decreases |calls|
  {
    calls == [] ||
    (Possible(db, calls[0].request) &&
     RunPossible(Handle(db, calls[0].me, calls[0].plan, calls[0].request, calls[0].now), calls[1..]))
  }

  ghost function RunCalls(db: Db, calls: seq<Call>): Db
    requires RunPossible(db, calls)
    decreases |calls|
  {
    if calls == [] then db
    else RunCalls(Handle(db, calls[0].me, calls[0].plan, calls[0].request, calls[0].now), calls[1..])
  }

  /** Referential integrity, single ownership and the five records hold in every reachable store. */
  lemma {:induction false} RunKeeps(db: Db, calls: seq<Call>)
    requires Sound(db) && VerifiedOk(db) && RunPossible(db, calls)
    ensures Sound(RunCalls(db, calls)) && VerifiedOk(RunCalls(db, calls)) && Grows(db, RunCalls(db, calls))
    decreases |calls|
  {
    hide Sound, VerifiedOk, Grows, Handle, Possible;
    GrowsReflexive(db);
    if calls != [] {
      var c := calls[0];
      var mid := Handle(db, c.me, c.plan, c.request, c.now);
      HandleKeeps(db, c.me, c.plan, c.request, c.now);
      HandleVerified(db, c.me, c.plan, c.request, c.now);
      RunKeeps(mid, calls[1..]);
      GrowsTransitive(db, mid, RunCalls(mid, calls[1..]));
    }
  }

  lemma EmptySound()
    ensures Sound(EMPTY) && VerifiedOk(EMPTY)
  {
  }

  /** While an account acts as Free its counts never rise above the limits, nor above what
      they already were: reviving a row counts like inserting one. */
  ghost predicate WithinQuota(a: Db, b: Db, account: int) {
    && (|OwnDomains(b, account)| <= |OwnDomains(a, account)| || |OwnDomains(b, account)| <= DOMAIN_LIMIT)
    && (|OwnDestinations(b, account)| <= |OwnDestinations(a, account)| ||
        |OwnDestinations(b, account)| <= DESTINATION_LIMIT)
    && (|OwnAliases(b, account)| <= |OwnAliases(a, account)| || |OwnAliases(b, account)| <= ALIAS_LIMIT)
  }

  lemma DomainsWithin(may: bool, me: int, t: int, a: Db, b: Db, account: int)
    requires DomainsGain(may, me, t, a, b)
    requires me == account && may ==> |OwnDomains(a, account)| < DOMAIN_LIMIT
    ensures |OwnDomains(b, account)| <= |OwnDomains(a, account)| || |OwnDomains(b, account)| <= DOMAIN_LIMIT
  {
    var before, after := OwnDomains(a, account), OwnDomains(b, account);
    assert forall i :: i in after ==> i in before || (may && me == account && i == t);
    Bounded(before, after, t, may && me == account, DOMAIN_LIMIT);
  }

  lemma DestinationsWithin(may: bool, me: int, t: int, a: Db, b: Db, account: int)
    requires DestinationsGain(may, me, t, a, b)
    requires me == account && may ==> |OwnDestinations(a, account)| < DESTINATION_LIMIT
    ensures |OwnDestinations(b, account)| <= |OwnDestinations(a, account)| ||
        |OwnDestinations(b, account)| <= DESTINATION_LIMIT
  {
    var before, after := OwnDestinations(a, account), OwnDestinations(b, account);
    assert forall i :: i in after ==> i in before || (may && me == account && i == t);
    Bounded(before, after, t, may && me == account, DESTINATION_LIMIT);
  }

  lemma AliasesWithin(may: bool, me: int, t: int, a: Db, b: Db, account: int)
    requires AliasesGain(may, me, t, a, b)
    requires me == account && may ==> |OwnAliases(a, account)| < ALIAS_LIMIT
    ensures |OwnAliases(b, account)| <= |OwnAliases(a, account)| || |OwnAliases(b, account)| <= ALIAS_LIMIT
  {
    var before, after := OwnAliases(a, account), OwnAliases(b, account);
    assert forall i :: i in after ==> i in before || (may && me == account && i == t);
    Bounded(before, after, t, may && me == account, ALIAS_LIMIT);
  }

  lemma HandleQuota(db: Db, me: int, plan: Plan, r: Request, now: int, account: int)
    requires Possible(db, r)
    requires me == account ==> plan.Free?
    ensures WithinQuota(db, Handle(db, me, plan, r, now), account)
  {
    hide Possible, Handle, Target, DomainsGain, DestinationsGain, AliasesGain, OwnDomains, OwnDestinations, OwnAliases;
    var b, t := Handle(db, me, plan, r, now), Target(db, me, plan, r);
    HandleDomains(db, me, plan, r, now);
    HandleDestinations(db, me, plan, r, now);
    HandleAliases(db, me, plan, r, now);
    DomainsWithin(MayAddDomain(db, me, plan), me, t, db, b, account);
    DestinationsWithin(MayAddDestination(db, me, plan), me, t, db, b, account);
    AliasesWithin(MayAddAlias(db, me, plan), me, t, db, b, account);
  }

  lemma {:induction false} RunQuota(db: Db, calls: seq<Call>, account: int)
    requires RunPossible(db, calls)
    requires forall c :: c in calls && c.me == account ==> c.plan.Free?
    ensures WithinQuota(db, RunCalls(db, calls), account)
    decreases |calls|
  {
    hide Possible, Handle;
    if calls != [] {
      var c := calls[0];
      var mid := Handle(db, c.me, c.plan, c.request, c.now);
      HandleQuota(db, c.me, c.plan, c.request, c.now, account);
      RunQuota(mid, calls[1..], account);
    }
  }
}
