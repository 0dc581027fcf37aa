/** What each account operation leaves alone, and what it leaves behind: row by row, without the
    functions that compute it. */
module Frames {
  import opened Text
  import opened Schema
  import opened Store
  import opened Integrity
  import opened Panel
  import opened Router
  import Dkim

  // ---------------------------------------------------------------- what a step may change

  /** The same rows, of which those outside the sets are as they were. */
  ghost predicate OnlyDomains(a: Db, b: Db, ids: set<int>) {
    a.domains.Keys == b.domains.Keys && forall i :: i in a.domains && i !in ids ==> b.domains[i] == a.domains[i]
  }

  ghost predicate OnlyAliases(a: Db, b: Db, ids: set<int>) {
    a.aliases.Keys == b.aliases.Keys && forall i :: i in a.aliases && i !in ids ==> b.aliases[i] == a.aliases[i]
  }

  ghost predicate OnlyLinks(a: Db, b: Db, ids: set<(int, int)>) {
    a.links.Keys == b.links.Keys && forall k :: k in a.links && k !in ids ==> b.links[k] == a.links[k]
  }

  ghost predicate OnlyDestinations(a: Db, b: Db, ids: set<int>) {
    && a.destinations.Keys == b.destinations.Keys
    && forall i :: i in a.destinations && i !in ids ==> b.destinations[i] == a.destinations[i]
  }

  ghost predicate SameBooks(a: Db, b: Db) {
    a.keys == b.keys && a.records == b.records && a.returnPaths == b.returnPaths
  }

  // ---------------------------------------------------------------- deleting

  ghost function AliasesUnder(db: Db, d: int): set<int> {
    set i | i in db.aliases && db.aliases[i].domain == d
  }

  ghost function LinksOf(db: Db, aliases: set<int>): set<(int, int)> {
    set k | k in db.links && k.0 in aliases
  }

  /** The two differ in the rows of one domain alone: all of another domain's keys, records, aliases
      and links, every other domain and every destination are as they were. */
  ghost predicate OnlyUnder(a: Db, b: Db, d: int) {
    && OnlyDomains(a, b, {d}) && OnlyAliases(a, b, AliasesUnder(a, d))
    && OnlyLinks(a, b, LinksOf(a, AliasesUnder(a, d)))
    && a.keys.Keys == b.keys.Keys && (forall k :: k in a.keys && a.keys[k].domain != d ==> b.keys[k] == a.keys[k])
    && a.records.Keys == b.records.Keys
    && (forall r :: r in a.records && a.records[r].domain != d ==> b.records[r] == a.records[r])
    && a.destinations == b.destinations && a.returnPaths == b.returnPaths
  }

  lemma DeleteDomainFrame(db: Db, me: int, d: int)
    ensures OnlyUnder(db, DeleteDomain(db, me, d), d)
  {
    var b := DeleteDomain(db, me, d);
    forall k | k in db.links && k !in LinksOf(db, AliasesUnder(db, d))
      ensures b.links[k] == db.links[k]
    {
      assert k.0 !in AliasesUnder(db, d);
      assert !OwnAliasOf(db, me, k.0, d);
    }
  }

  /** A change under one domain changes no answer of the router for an address at another, and no
      destination of an alias on another. */
  lemma OtherDomainsRoute(m: Matcher, a: Db, b: Db, d: int, email: string, x: Option<Alias>)
    requires OnlyUnder(a, b, d) && Numbered(a) && Numbered(b) && d in a.domains
    requires DomainOf(email) != Some(a.domains[d].name) && b.domains[d].name == a.domains[d].name
    requires forall i :: i in a.aliases ==> b.aliases[i].domain == a.aliases[i].domain
    ensures Answers(m, a, email, x) <==> Answers(m, b, email, x)
  {
    if DomainOf(email).Some? {
      var name, user := DomainOf(email).value, UserOf(email).value;
      forall r: Alias
        ensures Candidate(m, a, name, user, r) <==> Candidate(m, b, name, user, r)
      {
        assert r.id in a.aliases && a.aliases[r.id].domain != d ==> r.id !in AliasesUnder(a, d);
      }
      SameCandidates(m, a, b, name, user, x);
    }
  }

  /** Two tables with the same candidates have the same answers. */
  lemma SameCandidates(m: Matcher, a: Db, b: Db, name: string, user: string, x: Option<Alias>)
    requires forall r: Alias :: Candidate(m, a, name, user, r) <==> Candidate(m, b, name, user, r)
    ensures AnswersIn(m, a, name, user, x) <==> AnswersIn(m, b, name, user, x)
  {
    hide Selected, Fires;
    AnswersByCandidates(m, a, name, user, x);
    AnswersByCandidates(m, b, name, user, x);
  }

  lemma AnswersByCandidates(m: Matcher, db: Db, name: string, user: string, x: Option<Alias>)
    ensures AnswersIn(m, db, name, user, x) <==>
            if x.None? then forall r: Alias :: !Candidate(m, db, name, user, r)
            else Candidate(m, db, name, user, x.value) &&
                 forall r: Alias | Candidate(m, db, name, user, r) :: |r.rule| <= |x.value.rule|
  {
    hide Selected, Fires;
    assert forall r: Alias :: Candidate(m, db, name, user, r) ==> r in db.aliases.Values;
  }

  lemma OtherAliasesLinked(a: Db, b: Db, d: int, alias: int, x: int)
    requires OnlyUnder(a, b, d) && alias in a.aliases && a.aliases[alias].domain != d
    ensures Linked(a, alias, x) <==> Linked(b, alias, x)
  {
    assert (alias, x) !in LinksOf(a, AliasesUnder(a, d));
  }

  /** The domain and everything under it is dead, and nothing else is touched. */
  ghost predicate DomainGone(a: Db, b: Db, d: int) {
    && OnlyUnder(a, b, d) && d in a.domains && b.domains[d] == a.domains[d].(live := false)
    && (forall i :: i in AliasesUnder(a, d) ==> b.aliases[i] == a.aliases[i].(live := false))
    && (forall k :: k in LinksOf(a, AliasesUnder(a, d)) ==> b.links[k] == a.links[k].(live := false))
    && (forall k :: k in a.keys && a.keys[k].domain == d ==> b.keys[k] == a.keys[k].(live := false))
    && (forall r :: r in a.records && a.records[r].domain == d ==> b.records[r] == a.records[r].(live := false))
  }

  lemma DeleteDomainDoes(db: Db, me: int, d: int)
    requires Sound(db) && SeesDomain(db, me, d)
    ensures DomainGone(db, DeleteDomain(db, me, d), d)
  {
    DeleteDomainFrame(db, me, d);
    DeleteDomainRows(db, me, d);
    hide DeleteDomain, OnlyUnder, Sound;
  }

  /** For mail to any other domain a deletion changes nothing: neither which alias answers nor where
      it delivers. */
  lemma DeletionElsewhere(m: Matcher, a: Db, b: Db, d: int, email: string, x: Option<Alias>, alias: int, to: int)
    requires DomainGone(a, b, d) && Numbered(a) && Numbered(b)
    ensures DomainOf(email) != Some(a.domains[d].name) ==> (Answers(m, a, email, x) <==> Answers(m, b, email, x))
    ensures alias in a.aliases && a.aliases[alias].domain != d ==> (Linked(a, alias, to) <==> Linked(b, alias, to))
  {
    AliasesStay(a, b, d);
    hide Answers, Linked, OnlyUnder;
    if DomainOf(email) != Some(a.domains[d].name) {
      OtherDomainsRoute(m, a, b, d, email, x);
    }
    if alias in a.aliases && a.aliases[alias].domain != d {
      OtherAliasesLinked(a, b, d, alias, to);
    }
  }

  lemma AliasesStay(a: Db, b: Db, d: int)
    requires DomainGone(a, b, d)
    ensures forall i :: i in a.aliases ==> i in b.aliases && b.aliases[i].domain == a.aliases[i].domain
  {
    assert forall i :: i in a.aliases && a.aliases[i].domain == d ==> i in AliasesUnder(a, d);
    assert forall i :: i in a.aliases && a.aliases[i].domain != d ==> i !in AliasesUnder(a, d);
  }

  lemma AliasOwner(db: Db, alias: int)
    requires AliasesOk(db) && alias in db.aliases
    ensures db.aliases[alias].domain in db.domains
    ensures db.domains[db.aliases[alias].domain].account == db.aliases[alias].account
  {
  }

  lemma DeleteDomainRows(db: Db, me: int, d: int)
    requires Sound(db) && SeesDomain(db, me, d)
    ensures var b := DeleteDomain(db, me, d);
            && b.domains[d] == db.domains[d].(live := false)
            && (forall i :: i in AliasesUnder(db, d) ==> b.aliases[i] == db.aliases[i].(live := false))
            && (forall k :: k in LinksOf(db, AliasesUnder(db, d)) ==> b.links[k] == db.links[k].(live := false))
            && (forall k :: k in db.keys && db.keys[k].domain == d ==> b.keys[k] == db.keys[k].(live := false))
            && (forall r :: r in db.records && db.records[r].domain == d ==>
                  b.records[r] == db.records[r].(live := false))
  {
    hide Constraints, BooksOk;
    forall k | k in LinksOf(db, AliasesUnder(db, d))
      ensures db.links[k].account == me && OwnAliasOf(db, me, k.0, d)
    {
      assert k.0 in AliasesUnder(db, d);
      AliasOwner(db, k.0);
    }
  }

  /** The alias and its links are dead, so that nothing is linked to it; every other row is as it was. */
  ghost predicate AliasGone(a: Db, b: Db, alias: int) {
    && OnlyAliases(a, b, {alias}) && OnlyLinks(a, b, LinksOf(a, {alias}))
    && b.domains == a.domains && b.destinations == a.destinations && SameBooks(a, b)
    && alias in a.aliases && b.aliases[alias] == a.aliases[alias].(live := false)
    && (forall k :: k in LinksOf(a, {alias}) ==> b.links[k] == a.links[k].(live := false))
    && (forall x :: !Linked(b, alias, x))
  }

  lemma DeleteAliasDoes(db: Db, me: int, alias: int)
    requires Sound(db) && SeesAlias(db, me, alias)
    ensures var r := DeleteAlias(db, me, alias); r.Ok? && AliasGone(db, r.value, alias)
  {
    hide Constraints, BooksOk, OwnedByDomain;
  }

  /** The one link is dead, if there was one; every other row is as it was. */
  ghost predicate LinkGone(a: Db, b: Db, k: (int, int)) {
    && b == a.(links := b.links) && OnlyLinks(a, b, {k}) && !Linked(b, k.0, k.1)
    && (k in a.links ==> b.links[k] == a.links[k].(live := false))
  }

  lemma DeleteLinkDoes(db: Db, me: int, alias: int, destination: int)
    requires Sound(db) && SeesAlias(db, me, alias) && SeesDestination(db, me, destination)
    ensures var r := DeleteLink(db, me, alias, destination); r.Ok? && LinkGone(db, r.value, (alias, destination))
  {
    hide Constraints, BooksOk, OwnedByDomain;
  }

  ghost function LinksTo(db: Db, destination: int): set<(int, int)> {
    set k | k in db.links && k.1 == destination
  }

  /** The destination and the links to it are dead; every other row is as it was. */
  ghost predicate DestinationGone(a: Db, b: Db, destination: int) {
    && OnlyDestinations(a, b, {destination}) && OnlyLinks(a, b, LinksTo(a, destination))
    && b.domains == a.domains && b.aliases == a.aliases && SameBooks(a, b)
    && destination in a.destinations && b.destinations[destination] == a.destinations[destination].(live := false)
    && (forall k :: k in LinksTo(a, destination) ==> b.links[k] == a.links[k].(live := false))
    && (forall alias :: !Linked(b, alias, destination))
    && (forall alias, x | x != destination :: Linked(b, alias, x) <==> Linked(a, alias, x))
  }

  lemma DeleteDestinationDoes(db: Db, me: int, destination: int)
    requires Sound(db) && SeesDestination(db, me, destination)
    ensures var r := DeleteDestination(db, me, destination); r.Ok? && DestinationGone(db, r.value, destination)
  {
    hide Constraints, BooksOk, OwnedByDomain;
  }

  // ---------------------------------------------------------------- creating

  ghost predicate OtherLinksKept(a: Db, b: Db, k: (int, int)) {
    forall l :: l != k ==> (l in b.links <==> l in a.links) && (l in a.links ==> b.links[l] == a.links[l])
  }

  /** Mail to the alias goes to the destination from now on; every other row is as it was. */
  ghost predicate Attached(a: Db, b: Db, me: int, k: (int, int)) {
    && b == a.(links := b.links) && OtherLinksKept(a, b, k)
    && Linked(b, k.0, k.1) && b.links[k] == Link(me, true)
  }

  lemma AttachDoes(db: Db, me: int, alias: int, destination: int)
    requires Sound(db) && SeesAlias(db, me, alias) && SeesDestination(db, me, destination)
    ensures var r := AttachDestination(db, me, alias, destination);
            r.Ok? && Attached(db, r.value, me, (alias, destination))
  {
    hide Sound;
    AttachKeeps(db, me, alias, destination);
  }

  /** The alias is live under its rule on its domain and has its destination. It is the row that had
      the rule before, or a new one; every other row is as it was. */
  ghost predicate AliasMade(a: Db, b: Db, row: Alias, destination: int) {
    && row.live && row.id in b.aliases && b.aliases[row.id] == row
    && (row.id in a.aliases ==> a.aliases[row.id].domain == row.domain && a.aliases[row.id].rule == row.rule)
    && Linked(b, row.id, destination) && b.links[(row.id, destination)] == Link(row.account, true)
    && b == a.(aliases := b.aliases, links := b.links)
    && (forall i :: i != row.id ==>
          (i in b.aliases <==> i in a.aliases) && (i in a.aliases ==> b.aliases[i] == a.aliases[i]))
    && OtherLinksKept(a, b, (row.id, destination))
  }

  lemma CreateAliasDoes(db: Db, me: int, rule: string, domain: int, destination: int, serial: int)
    requires Sound(db) && serial !in db.aliases
    requires SeesDomain(db, me, domain) && SeesDestination(db, me, destination)
    ensures var r := CreateAlias(db, me, rule, domain, destination, serial);
            r.Ok? && exists id :: AliasMade(db, r.value, Alias(id, me, domain, rule, true), destination)
  {
    hide Sound;
    CreateAliasKeeps(db, me, rule, domain, destination, serial);
    var found := FindAlias(db.aliases, domain, rule);
    var id := if found.Some? then found.value else serial;
    var b := CreateAlias(db, me, rule, domain, destination, serial).value;
    assert AliasMade(db, b, Alias(id, me, domain, rule, true), destination);
  }

  /** The destination is live under its address. It is the row that had the address before, or a new
      one; every other row is as it was. */
  ghost predicate DestinationMade(a: Db, b: Db, row: Destination) {
    && row.live && row.id in b.destinations && b.destinations[row.id] == row
    && (row.id in a.destinations ==>
          a.destinations[row.id].account == row.account && a.destinations[row.id].address == row.address)
    && b == a.(destinations := b.destinations)
    && (forall i :: i != row.id ==>
          (i in b.destinations <==> i in a.destinations) &&
          (i in a.destinations ==> b.destinations[i] == a.destinations[i]))
  }

  lemma CreateDestinationDoes(db: Db, me: int, address: string, serial: int)
    requires serial !in db.destinations
    ensures var b := CreateDestination(db, me, address, serial);
            exists id :: DestinationMade(db, b, Destination(id, me, address, true))
  {
    var found := FindDestination(db.destinations, me, address);
    var id := if found.Some? then found.value else serial;
    assert DestinationMade(db, CreateDestination(db, me, address, serial), Destination(id, me, address, true));
  }

  /** A new domain is live and unverified under its name and code; it is the row that had the name
      before, or a new one. It has one new key and five new records, and every other row is as it was. */
  lemma CreateDomainDoes(db: Db, me: int, name: string, code: string, n: NewDomain, b: Db)
    requires Sound(db) && FreshFor(db, n) && CreateDomain(db, me, name, code, n) == Ok(b)
    ensures exists id :: Created(db, b, me, name, code, n, id)
  {
    hide Sound, Wanted, NewRecords, Opened, LiveKeys, LiveRecords, LiveContents, WantedSet, Created, CreateDomain;
    var id := DomainTarget(db, name, n.id);
    var added := NewRecords(me, id, Wanted(n.public), n.records);
    var row, key := Domain(id, me, name, code, false, true), Key(me, id, n.public, true);
    CreateDomainOpens(db, me, name, code, n, b);
    TargetDead(db, me, name, code, n);
    NewRecordsFresh(db, me, id, n);
    OpenedCreates(db, b, me, n, row, added);
  }

  /** b is a with this domain created: one new key, five new records, and no other row touched. */
  ghost predicate Created(a: Db, b: Db, me: int, name: string, code: string, n: NewDomain, id: int) {
    && id in b.domains && b.domains[id] == Domain(id, me, name, code, false, true)
    && (id in a.domains ==> a.domains[id].account == me && a.domains[id].name == name)
    && b == a.(domains := b.domains, keys := b.keys, records := b.records)
    && (forall i :: i != id ==>
          (i in b.domains <==> i in a.domains) && (i in a.domains ==> b.domains[i] == a.domains[i]))
    && LiveKeys(b, id) == {n.key} && n.key in b.keys && b.keys[n.key] == Key(me, id, n.public, true)
    && LiveContents(b, id) == WantedSet(n.public)
    && (forall k :: k != n.key ==> (k in b.keys <==> k in a.keys) && (k in a.keys ==> b.keys[k] == a.keys[k]))
    && (forall r :: r in a.records ==> r in b.records && b.records[r] == a.records[r])
    && (forall r :: r in b.records && r !in a.records ==> b.records[r].account == me && b.records[r].domain == id)
  }

  lemma OpenedCreates(db: Db, b: Db, me: int, n: NewDomain, row: Domain, added: map<int, Record>)
    requires row == Domain(row.id, me, row.name, row.code, false, true)
    requires Opened(db, b, me, row.id, row, n.key, Key(me, row.id, n.public, true), added)
    requires LiveRecords(db, row.id) == {} && (set r | r in added :: added[r].content) == WantedSet(n.public)
    ensures Created(db, b, me, row.name, row.code, n, row.id)
  {
    hide LiveKeys, LiveRecords, LiveContents, WantedSet;
    OpenedKeys(db, b, me, row.id, row, n.key, Key(me, row.id, n.public, true), added);
    RecordsAdded(db, b, row.id, added);
  }

  // ---------------------------------------------------------------- the records of a domain

  const DKIM_HOST: string := "mxax._domainkey"

  /** The five records of a key: the DKIM record publishes that key in strings that fit, and the others
      name the two exchangers and the two policies. */
  lemma WantedPublishes(public: string)
    requires Dkim.QUOTE !in public
    ensures exists v ::
              && WantedSet(public) == {Content(DKIM_HOST, "TXT", v), Content("@", "MX", "10 ehlo.mx.ax."),
                                       Content("@", "MX", "20 helo.mx.ax."),
                                       Content("@", "TXT", "\"v=spf1 include:spf.mx.ax ~all\""),
                                       Content("_dmarc", "TXT", "\"v=DMARC1; p=quarantine\"")}
              && Dkim.Publishes(v, "v=DKIM1; k=rsa; p=" + public)
  {
    hide Dkim.PrintKey, Dkim.Publishes;
    Dkim.KeyPublishes(public);
    var v := Dkim.PrintKey(public);
    var w := Wanted(public);
    assert w == [w[0], w[1], w[2], w[3], w[4]];
    assert Dkim.Publishes(v, "v=DKIM1; k=rsa; p=" + public);
  }

  // ---------------------------------------------------------------- a visit to a domain's page

  /** Nanoseconds of a day. */
  const ONE_DAY: int := 24 * 60 * 60 * 1_000_000_000

  /** The record was never seen published, or last more than a day ago. */
  predicate Stale(r: Record, now: int) {
    r.lastVerified.None? || now - r.lastVerified.value > ONE_DAY
  }

  ghost predicate RecordOf(db: Db, me: int, d: int, r: int) {
    r in db.records && db.records[r].account == me && db.records[r].domain == d && db.records[r].live
  }

  /** The records of the domain that were stale and are published now are checked now, and nothing else
      is touched. */
  ghost predicate Rechecked(a: Db, b: Db, me: int, d: int, published: set<int>, now: int) {
    && b == a.(records := b.records) && a.records.Keys == b.records.Keys
    && forall r :: r in a.records ==>
         b.records[r] ==
           if RecordOf(a, me, d, r) && Stale(a.records[r], now) && r in published
           then a.records[r].(lastVerified := Some(now)) else a.records[r]
  }

  /** Each record of the domain was seen published before, and is not stale or is published now. */
  ghost predicate Proven(db: Db, me: int, d: int, published: set<int>, now: int) {
    forall r :: RecordOf(db, me, d, r) ==>
      db.records[r].lastVerified.Some? && (!Stale(db.records[r], now) || r in published)
  }

  /** The first visits: the domain is served from the one that finds the code. */
  ghost predicate CodeVisit(a: Db, b: Db, q: PageRequest, d: int) {
    && b == a.(domains := b.domains) && OnlyDomains(a, b, {d})
    && d in a.domains && b.domains[d] == a.domains[d].(verified := q.code)
    && (q.code ==> ServedDomain(b.domains, q.name).Some?)
  }

  /** The later ones: stale records are checked, and the form adds its alias when the records were proven
      before this visit and the plan allows it. A form without a destination loses the whole visit. */
  ghost predicate RecordVisit(a: Db, b: Db, me: int, allowed: bool, q: PageRequest, now: int, d: int) {
    if !Proven(a, me, d, q.published, now) || q.form.None? then Rechecked(a, b, me, d, q.published, now)
    else if q.form.value.destination.None? then b == a
    else
      var f := q.form.value;
      exists mid :: Rechecked(a, mid, me, d, q.published, now) &&
        if allowed && f.rule != "" && f.compiles && SeesDestination(a, me, f.destination.value) then
          exists id :: AliasMade(mid, b, Alias(id, me, d, f.rule, true), f.destination.value)
        else b == mid
  }

  lemma PageVerifies(db: Db, me: int, allowed: bool, q: PageRequest, now: int, d: int)
    requires Sound(db) && Possible(db, ViewDomain(q)) && SeesDomain(db, me, d) && db.domains[d].name == q.name
    requires !db.domains[d].verified
    ensures var r := DomainPage(db, me, allowed, q, now); r.Ok? && CodeVisit(db, r.value, q, d)
  {
    hide BooksOk, AliasesOk, LinksOk, OwnedByDomain;
    FoundByName(db, q.name, d);
    var b := DomainPage(db, me, allowed, q, now).value;
    assert q.code ==> Served(b.domains[d], q.name);
  }

  lemma FoundByName(db: Db, name: string, d: int)
    requires UniqueNames(db) && d in db.domains && db.domains[d].name == name
    ensures FindDomain(db.domains, name) == Some(d)
  {
  }

  lemma PageRechecks(db: Db, me: int, allowed: bool, q: PageRequest, now: int, d: int)
    requires Sound(db) && Possible(db, ViewDomain(q)) && SeesDomain(db, me, d) && db.domains[d].name == q.name
    requires db.domains[d].verified
    ensures var r := DomainPage(db, me, allowed, q, now);
            RecordVisit(db, if r.Ok? then r.value else db, me, allowed, q, now, d)
  {
    FoundByName(db, q.name, d);
    FiveRecordsSeen(db, me, d);
    var rs := SeenRecords(db, me, d);
    RecordsSeen(db, me, d, q.published, now);
    var mid := RecheckRecords(db, rs, now, q.published);
    RecheckKeeps(db, rs, now, q.published);
    hide Sound, SeenRecords, RecheckRecords, AllComplete, Proven, Rechecked, AliasMade, CreateAlias;
    if Proven(db, me, d, q.published, now) && q.form.Some? && q.form.value.destination.Some? {
      var f := q.form.value;
      if SeesDestination(db, me, f.destination.value) {
        CreateAliasDoes(mid, me, f.rule, d, f.destination.value, f.serial);
      } else {
        CreateAliasRefused(mid, me, f.rule, d, f.destination.value, f.serial);
      }
    }
  }

  lemma CreateAliasRefused(db: Db, me: int, rule: string, domain: int, destination: int, serial: int)
    requires serial !in db.aliases && !(SeesDomain(db, me, domain) && SeesDestination(db, me, destination))
    ensures CreateAlias(db, me, rule, domain, destination, serial) == Err(NoRows)
  {
  }

  lemma RecordsSeen(db: Db, me: int, d: int, published: set<int>, now: int)
    ensures AllComplete(db, SeenRecords(db, me, d), now, published) <==> Proven(db, me, d, published, now)
    ensures var b := RecheckRecords(db, SeenRecords(db, me, d), now, published);
            Rechecked(db, b, me, d, published, now) && b.domains == db.domains && b.destinations == db.destinations &&
            b.aliases == db.aliases
  {
    assert forall r :: r in SeenRecords(db, me, d) <==> RecordOf(db, me, d, r);
  }

  // ---------------------------------------------------------------- every request

  ghost predicate SeesName(db: Db, me: int, name: string, d: int) {
    SeesDomain(db, me, d) && db.domains[d].name == name
  }

  /** The name is new or was deleted by this account, and no other domain has the code. */
  ghost predicate Creatable(db: Db, me: int, name: string, code: string) {
    && (forall i :: i in db.domains && db.domains[i].name == name ==>
          db.domains[i].account == me && !db.domains[i].live)
    && (forall i :: i in db.domains && db.domains[i].code == code ==> db.domains[i].name == name)
  }

  /** What a request does to the tables, case by case; whatever it may not do changes nothing. */
  ghost predicate Does(a: Db, b: Db, me: int, plan: Plan, r: Panel.Request, now: int) {
    match r
    case Dashboard(domain, code, n, address, valid, serial) =>
      if domain != "" && (plan.Subscription? || |OwnDomains(a, me)| < 1) then
        if Creatable(a, me, domain, code) then exists id :: Created(a, b, me, domain, code, n, id) else b == a
      else if address != "" && valid && (plan.Subscription? || |OwnDestinations(a, me)| < 3) then
        exists id :: DestinationMade(a, b, Destination(id, me, Lower(address), true))
      else b == a
    case ViewDomain(q) =>
      if d :| SeesName(a, me, q.name, d) then
        if a.domains[d].verified
        then RecordVisit(a, b, me, plan.Subscription? || |OwnAliases(a, me)| < 2, q, now, d)
        else CodeVisit(a, b, q, d)
      else b == a
    case RemoveDomain(name) => if d :| SeesName(a, me, name, d) then DomainGone(a, b, d) else b == a
    case RemoveAlias(alias) => if SeesAlias(a, me, alias) then AliasGone(a, b, alias) else b == a
    case RemoveLink(alias, destination) =>
      if SeesAlias(a, me, alias) && SeesDestination(a, me, destination) then LinkGone(a, b, (alias, destination))
      else b == a
    case Attach(alias, destination) =>
      if SeesAlias(a, me, alias) && SeesDestination(a, me, destination) then Attached(a, b, me, (alias, destination))
      else b == a
    case RemoveDestination(destination) =>
      if SeesDestination(a, me, destination) then DestinationGone(a, b, destination) else b == a
  }

  lemma DashboardDoes(db: Db, me: int, plan: Plan, r: Panel.Request, now: int)
    requires Sound(db) && Possible(db, r) && r.Dashboard?
    ensures Does(db, Handle(db, me, plan, r, now), me, plan, r, now)
  {
    hide Sound, FreshFor, CreateDomain, CreateDestination, Created, DestinationMade, OwnDomains, OwnDestinations,
      Creatable;
    var o := CreateDomain(db, me, r.domain, r.code, r.n);
    CreatableWhen(db, me, r.domain, r.code, r.n);
    if o.Ok? {
      CreateDomainDoes(db, me, r.domain, r.code, r.n, o.value);
    }
    CreateDestinationDoes(db, me, Lower(r.address), r.serial);
  }

  lemma CreatableWhen(db: Db, me: int, name: string, code: string, n: NewDomain)
    requires Sound(db) && FreshFor(db, n)
    ensures CreateDomain(db, me, name, code, n).Ok? <==> Creatable(db, me, name, code)
  {
    hide CreateDomain, BooksOk, AliasesOk, LinksOk, OwnedByDomain;
    CreateDomainWhen(db, me, name, code, n);
    var found := FindDomain(db.domains, name);
    assert found.Some? ==> forall i :: i in db.domains && db.domains[i].name == name ==> i == found.value;
  }

  lemma ViewDoes(db: Db, me: int, plan: Plan, r: Panel.Request, now: int)
    requires Sound(db) && Possible(db, r) && r.ViewDomain?
    ensures Does(db, Handle(db, me, plan, r, now), me, plan, r, now)
  {
    hide Sound, DomainPage, RecordVisit, CodeVisit, OwnAliases;
    var q, allowed := r.q, MayAddAlias(db, me, plan);
    if d :| SeesName(db, me, q.name, d) {
      forall e | SeesName(db, me, q.name, e)
        ensures e == d
      {
        OneOfName(db, q.name, d, e);
      }
      if db.domains[d].verified {
        PageRechecks(db, me, allowed, q, now, d);
      } else {
        PageVerifies(db, me, allowed, q, now, d);
      }
    } else {
      PageRefused(db, me, allowed, q, now);
    }
  }

  lemma OneOfName(db: Db, name: string, d: int, e: int)
    requires Sound(db) && d in db.domains && e in db.domains && db.domains[d].name == name == db.domains[e].name
    ensures d == e && FindDomain(db.domains, name) == Some(d)
  {
  }

  lemma PageRefused(db: Db, me: int, allowed: bool, q: PageRequest, now: int)
    requires q.form.Some? ==> q.form.value.serial !in db.aliases
    requires forall d :: !SeesName(db, me, q.name, d)
    ensures DomainPage(db, me, allowed, q, now) == Err(NoRows)
  {
    var found := FindDomain(db.domains, q.name);
    assert found.Some? ==> !SeesName(db, me, q.name, found.value);
  }

  lemma RemoveDoes(db: Db, me: int, plan: Plan, name: string, now: int)
    requires Sound(db)
    ensures Does(db, Handle(db, me, plan, RemoveDomain(name), now), me, plan, RemoveDomain(name), now)
  {
    hide Sound, DeleteDomain, DomainGone;
    var found := FindDomain(db.domains, name);
    if d :| SeesName(db, me, name, d) {
      forall e | SeesName(db, me, name, e)
        ensures e == d && found == Some(d)
      {
        OneOfName(db, name, d, e);
      }
      DeleteDomainDoes(db, me, d);
    } else {
      assert found.Some? ==> !SeesName(db, me, name, found.value);
    }
  }

  /** Every request does what its form says to the rows it names, and touches no other row. */
  lemma HandleDoes(db: Db, me: int, plan: Plan, r: Panel.Request, now: int)
    requires Sound(db) && Possible(db, r)
    ensures Does(db, Handle(db, me, plan, r, now), me, plan, r, now)
  {
    hide Sound, DeleteAlias, DeleteLink, AttachDestination, DeleteDestination, AliasGone, LinkGone, Attached,
      DestinationGone;
    match r
    case Dashboard(_, _, _, _, _, _) => DashboardDoes(db, me, plan, r, now);
    case ViewDomain(_) => ViewDoes(db, me, plan, r, now);
    case RemoveDomain(name) => RemoveDoes(db, me, plan, name, now);
    case RemoveAlias(alias) =>
      DeleteAliasKeeps(db, me, alias);
      if SeesAlias(db, me, alias) {
        DeleteAliasDoes(db, me, alias);
      }
    case RemoveLink(alias, destination) => LinkRequests(db, me, alias, destination);
    case Attach(alias, destination) => LinkRequests(db, me, alias, destination);
    case RemoveDestination(destination) =>
      if SeesDestination(db, me, destination) {
        DeleteDestinationDoes(db, me, destination);
      } else {
        DestinationRefused(db, me, destination);
      }
  }

  lemma LinkRequests(db: Db, me: int, alias: int, destination: int)
    requires Sound(db)
    ensures var x, y := DeleteLink(db, me, alias, destination), AttachDestination(db, me, alias, destination);
            if SeesAlias(db, me, alias) && SeesDestination(db, me, destination) then
              && x.Ok? && LinkGone(db, x.value, (alias, destination))
              && y.Ok? && Attached(db, y.value, me, (alias, destination))
            else x.Err? && y.Err?
  {
    hide Sound, LinkGone, Attached;
    if SeesAlias(db, me, alias) && SeesDestination(db, me, destination) {
      DeleteLinkDoes(db, me, alias, destination);
      AttachDoes(db, me, alias, destination);
    }
  }

  lemma DestinationRefused(db: Db, me: int, destination: int)
    requires !SeesDestination(db, me, destination)
    ensures DeleteDestination(db, me, destination).Err?
  {
  }
}
