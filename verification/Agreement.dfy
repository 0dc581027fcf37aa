/** Names, owners and ids agree everywhere: in the cache, in sessions and in queued email,
    however stale each cached answer is. Everything here is stable as the database grows. */
module Agreement {
  import opened Text
  import opened Uuid
  import opened Schema
  import opened Integrity
  import opened Cache
  import opened Router
  import opened Sessions

  // ---------------------------------------------------------------- what agrees

  ghost predicate KnownDomain(db: Db, d: Domain) {
    d.id in db.domains && db.domains[d.id].account == d.account && db.domains[d.id].name == d.name
  }

  ghost predicate KnownAlias(db: Db, a: Alias) {
    && a.id in db.aliases && db.aliases[a.id].account == a.account
    && db.aliases[a.id].domain == a.domain && db.aliases[a.id].rule == a.rule
  }

  ghost predicate KnownDestination(db: Db, alias: int, d: Destination) {
    && (alias, d.id) in db.links
    && d.id in db.destinations
    && db.destinations[d.id].account == d.account && db.destinations[d.id].address == d.address
  }

  ghost predicate AliasNamed(db: Db, a: Alias, name: Option<string>) {
    KnownAlias(db, a) && a.domain in db.domains && name == Some(db.domains[a.domain].name)
  }

  /** What a cached value must say about the rows it was made from, now and ever after. */
  ghost predicate EntryAgrees(db: Db, s: Slot, v: Value) {
    match s.ns
    case DomainName => v.DomainV? && KnownDomain(db, v.domain) && v.domain.name == s.key
    case AliasMatch => v.AliasV? && AliasNamed(db, v.alias, DomainOf(s.key))
    case Destinations =>
      v.DestinationsV? &&
      forall a, i | s == DestinationSlot(a) && 0 <= i < |v.destinations| :: KnownDestination(db, a, v.destinations[i])
    case AliasNxMatch => false
    case Aliases => false
    case NxReturnPath => false
    case _ => true
  }

  ghost predicate CacheAgrees(c: Contents, db: Db) {
    forall s :: s in c ==> EntryAgrees(db, s, c[s].value)
  }

  /** A session that will relay holds an alias of its domain, and a recipient at that domain. */
  ghost predicate SessionAgrees(db: Db, s: Session) {
    && !IsNil(s.id)
    && (s.returnPath ==> s.to != "" && s.id in db.returnPaths)
    && (s.to != "" ==> KnownDomain(db, s.domain))
    && (s.to != "" && !s.returnPath ==>
          && AliasNamed(db, s.alias, DomainOf(s.to)) && s.alias.domain == s.domain.id
          && DomainOf(s.to) == Some(s.domain.name))
  }

  /** Every email carries the id of a stored return path and the account of its domain. The ids of
      a relayed one name rows of that account, the alias is on the domain, and the destination is
      one of the alias's. */
  ghost predicate EmailAgrees(db: Db, e: Email) {
    && e.domain in db.domains && db.domains[e.domain].account == e.account
    && e.id in db.returnPaths
    && (e.bounce == "" ==>
          && e.alias in db.aliases && db.aliases[e.alias].account == e.account && db.aliases[e.alias].domain == e.domain
          && e.destination in db.destinations && db.destinations[e.destination].account == e.account
          && db.destinations[e.destination].address == e.to
          && (e.alias, e.destination) in db.links
          && db.returnPaths[e.id].account == e.account && db.returnPaths[e.id].alias == e.alias)
  }

  ghost predicate OutboxAgrees(q: seq<Email>, db: Db) {
    forall i :: 0 <= i < |q| ==> EmailAgrees(db, q[i])
  }

  ghost predicate WorldAgrees(w: World) {
    Typed(w.c) && Sound(w.db) && CacheAgrees(w.c, w.db) && OutboxAgrees(w.outbox, w.db)
  }

  // ---------------------------------------------------------------- stability

  lemma CacheStable(c: Contents, a: Db, b: Db)
    requires CacheAgrees(c, a) && Grows(a, b)
    ensures CacheAgrees(c, b)
  {
    forall s | s in c
      ensures EntryAgrees(b, s, c[s].value)
    {
      assert EntryAgrees(a, s, c[s].value);
    }
  }

  lemma OutboxStable(q: seq<Email>, a: Db, b: Db)
    requires OutboxAgrees(q, a) && Grows(a, b)
    ensures OutboxAgrees(q, b)
  {
  }

  lemma SessionStable(s: Session, a: Db, b: Db)
    requires SessionAgrees(a, s) && Grows(a, b)
    ensures SessionAgrees(b, s)
  {
  }

  lemma ReturnPathsOnly(a: Db, b: Db)
    requires b == a.(returnPaths := b.returnPaths)
    requires Sound(a)
    requires forall u :: u in a.returnPaths ==>
        u in b.returnPaths && b.returnPaths[u] == a.returnPaths[u].(returned := b.returnPaths[u].returned)
    ensures Sound(b) && Grows(a, b)
  {
    forall d
      ensures LiveKeys(a, d) == LiveKeys(b, d) && LiveRecords(a, d) == LiveRecords(b, d)
      ensures LiveContents(a, d) == LiveContents(b, d)
    {
    }
    forall d | d in b.domains
      ensures BooksFor(b, d)
    {
      assert BooksFor(a, d);
    }
  }

  lemma Evicted(c: Contents, db: Db, slots: set<Slot>)
    requires Typed(c) && CacheAgrees(c, db)
    ensures Typed(c - slots) && CacheAgrees(c - slots, db)
  {
    assert forall s :: s in c - slots ==> s in c && (c - slots)[s] == c[s];
  }

  lemma Cached(c: Contents, db: Db, s: Slot, v: Value, now: int)
    requires Typed(c) && CacheAgrees(c, db) && Fits(s.ns, v) && EntryAgrees(db, s, v)
    ensures Typed(Put(c, s, v, now)) && CacheAgrees(Put(c, s, v, now), db)
  {
  }

  // ---------------------------------------------------------------- lookups

  lemma DetectDomainAgrees(c: Contents, db: Db, now: int, email: string, fault: bool)
    requires Typed(c) && CacheAgrees(c, db) && Sound(db)
    ensures var r := DetectDomain(c, db, now, email, fault);
            && Typed(r.c) && CacheAgrees(r.c, db)
            && (r.answer.Some? ==> KnownDomain(db, r.answer.value) && DomainOf(email) == Some(r.answer.value.name))
  {
    hide EntryAgrees, CacheAgrees, Typed, Put;
    var name := DomainOf(email);
    if name.Some? {
      var slot, nx := Slot(DomainName, name.value), Slot(NxDomain, name.value);
      AgreesAt(c, db, slot);
      NxAgrees(c, db, nx, now);
      var row := ServedDomain(db.domains, name.value);
      if row.Some? {
        DomainAgrees(c, db, slot, row.value, now);
      }
    }
  }

  lemma AgreesAt(c: Contents, db: Db, s: Slot)
    requires CacheAgrees(c, db) && Typed(c)
    ensures s in c ==> EntryAgrees(db, s, c[s].value) && Fits(s.ns, c[s].value)
    ensures s in c && s.ns == DomainName ==> KnownDomain(db, c[s].value.domain) && c[s].value.domain.name == s.key
    ensures s in c && s.ns == AliasMatch ==> AliasNamed(db, c[s].value.alias, DomainOf(s.key))
    ensures s in c ==> s.ns != AliasNxMatch && s.ns != Aliases && s.ns != NxReturnPath
  {
  }

  lemma NxAgrees(c: Contents, db: Db, s: Slot, now: int)
    requires CacheAgrees(c, db) && Typed(c) && s.ns in {NxDomain, AliasNxDomain, NxMatch, Nx}
    ensures Typed(Put(c, s, Nothing, now)) && CacheAgrees(Put(c, s, Nothing, now), db)
  {
    Cached(c, db, s, Nothing, now);
  }

  lemma DomainAgrees(c: Contents, db: Db, s: Slot, id: int, now: int)
    requires CacheAgrees(c, db) && Typed(c) && Sound(db)
    requires s.ns == DomainName && id in db.domains && db.domains[id].name == s.key
    ensures KnownDomain(db, db.domains[id])
    ensures var d := Put(c, s, DomainV(db.domains[id]), now); Typed(d) && CacheAgrees(d, db)
  {
    Cached(c, db, s, DomainV(db.domains[id]), now);
  }

  lemma LowerDomainOf(email: string)
    ensures DomainOf(Lower(email)) == DomainOf(email)
  {
    LowerIdempotent(email);
  }

  lemma {:induction false} MatchedIsRow(m: Matcher, rows: seq<Alias>, user: string)
    ensures FirstMatch(m, rows, user).Some? ==> FirstMatch(m, rows, user).value in rows
  {
    FirstMatchIsFirst(m, rows, user);
  }

  lemma MatchRowsAgree(m: Matcher, c: Contents, db: Db, now: int, email: string, rows: seq<Alias>)
    requires Typed(c) && CacheAgrees(c, db) && Sound(db)
    requires DomainOf(email).Some? && AliasRows(db, DomainOf(email).value, rows)
    ensures var r := MatchRows(m, c, now, email, UserOf(email).value, rows);
            && Typed(r.c) && CacheAgrees(r.c, db)
            && (r.answer.Some? ==> AliasNamed(db, r.answer.value, DomainOf(email)))
  {
    hide Typed, CacheAgrees, Put;
    var r := FirstMatch(m, rows, UserOf(email).value);
    MatchedIsRow(m, rows, UserOf(email).value);
    LowerDomainOf(email);
    if r.Some? {
      assert Selected(db, DomainOf(email).value, r.value);
      Cached(c, db, Slot(AliasMatch, Lower(email)), AliasV(r.value), now);
    } else {
      NxAgrees(c, db, Slot(NxMatch, Lower(email)), now);
    }
  }

  lemma DetectAliasAgrees(m: Matcher, c: Contents, db: Db, now: int, email: string, rows: seq<Alias>, fault: bool)
    requires Typed(c) && CacheAgrees(c, db) && Sound(db)
    requires DomainOf(email).Some? ==> AliasRows(db, DomainOf(email).value, rows)
    ensures var r := DetectAlias(m, c, now, email, rows, fault);
            && Typed(r.c) && CacheAgrees(r.c, db)
            && (r.answer.Some? ==> AliasNamed(db, r.answer.value, DomainOf(email)))
  {
    hide Typed, CacheAgrees, EntryAgrees, Put, MatchRows, AliasRows;
    var key := Lower(email);
    LowerDomainOf(email);
    AgreesAt(c, db, Slot(AliasNxMatch, key));
    AgreesAt(c, db, Slot(AliasMatch, key));
    if DomainOf(email).Some? {
      var name := DomainOf(email).value;
      AgreesAt(c, db, Slot(Aliases, name));
      NxAgrees(c, db, Slot(AliasNxDomain, name), now);
      RowsAgree(c, db, name, rows, now);
      MatchRowsAgree(m, Put(c, Slot(AliasDomain, name), AliasesV(rows), now), db, now, email, rows);
    }
  }

  lemma RowsAgree(c: Contents, db: Db, name: string, rows: seq<Alias>, now: int)
    requires CacheAgrees(c, db) && Typed(c)
    ensures var d := Put(c, Slot(AliasDomain, name), AliasesV(rows), now); Typed(d) && CacheAgrees(d, db)
  {
    Cached(c, db, Slot(AliasDomain, name), AliasesV(rows), now);
  }

  lemma DestinationsAgree(db: Db, alias: int, rows: seq<Destination>)
    requires DestinationRows(db, alias, rows) && Sound(db)
    ensures EntryAgrees(db, DestinationSlot(alias), DestinationsV(rows))
    ensures forall i :: 0 <= i < |rows| ==> KnownDestination(db, alias, rows[i])
  {
    forall a | DestinationSlot(a) == DestinationSlot(alias)
      ensures a == alias
    {
      SignedInjective(a, alias);
    }
  }

  lemma GetDestinationsAgrees(c: Contents, db: Db, now: int, alias: int, rows: seq<Destination>, fault: bool)
    requires Typed(c) && CacheAgrees(c, db) && Sound(db) && DestinationRows(db, alias, rows)
    ensures var r := GetDestinations(c, now, alias, rows, fault);
            && Typed(r.c) && CacheAgrees(r.c, db)
            && (r.answer.Some? ==> forall i :: 0 <= i < |r.answer.value| ==>
                KnownDestination(db, alias, r.answer.value[i]))
  {
    var slot := DestinationSlot(alias);
    DestinationsAgree(db, alias, rows);
    Cached(c, db, slot, DestinationsV(rows), now);
    assert slot in c ==> EntryAgrees(db, slot, c[slot].value);
  }

  lemma GetRdnsAgrees(c: Contents, db: Db, now: int, ip: string, looked: Option<string>)
    requires Typed(c) && CacheAgrees(c, db)
    ensures var r := GetRdns(c, now, ip, looked); Typed(r.c) && CacheAgrees(r.c, db)
  {
    if looked.Some? {
      Cached(c, db, Slot(Rdns, ip), RdnsV(looked.value), now);
    }
  }

  // ---------------------------------------------------------------- session calls

  lemma RcptAgrees(m: Matcher, w: World, now: int, s: Session, to: string, e: RcptEnv)
    requires WorldAgrees(w) && SessionAgrees(w.db, s)
    requires DomainOf(to).Some? ==> AliasRows(w.db, DomainOf(to).value, e.rows)
    ensures var r := Rcpt(m, w, now, s, to, e);
            WorldAgrees(r.world) && Grows(w.db, r.world.db) && SessionAgrees(r.world.db, r.session)
  {
    hide Sound, Typed, CacheAgrees, OutboxAgrees, DetectDomain, DetectAlias, AliasRows, Grows;
    GrowsReflexive(w.db);
    var d := DetectDomain(w.c, w.db, now, to, e.domainFault);
    DetectDomainAgrees(w.c, w.db, now, to, e.domainFault);
    if d.answer.Some? {
      BounceAgrees(d.c, w.db, now, to, e.selectFault, e.updateFault);
      var b := DetectReturnPath(d.c, w.db, now, to, e.selectFault, e.updateFault);
      OutboxStable(w.outbox, w.db, b.db);
      SessionStable(s, w.db, b.db);
      KnownStable(w.db, b.db, d.answer.value);
      if b.answer.None? {
        DetectAliasAgrees(m, b.c, w.db, now, to, e.rows, e.aliasFault);
        var a := DetectAlias(m, b.c, now, to, e.rows, e.aliasFault);
        if a.answer.Some? {
          SameDomain(w.db, a.answer.value, d.answer.value, to);
        }
      }
    }
  }

  lemma KnownStable(a: Db, b: Db, d: Domain)
    requires KnownDomain(a, d) && Grows(a, b)
    ensures KnownDomain(b, d)
  {
  }

  /** Names are unique, so an alias and a domain found for one address belong together, even
      when one of them came from the cache and the other did not. */
  lemma SameDomain(db: Db, a: Alias, d: Domain, email: string)
    requires Sound(db) && AliasNamed(db, a, DomainOf(email)) && KnownDomain(db, d) && DomainOf(email) == Some(d.name)
    ensures a.domain == d.id && a.account == d.account
  {
  }

  lemma IdsAreSet(to: string)
    ensures ReturnId(to).Some? ==> !IsNil(ReturnId(to).value)
  {
  }

  lemma BounceAgrees(c: Contents, db: Db, now: int, to: string, selectFault: bool, updateFault: bool)
    requires Typed(c) && CacheAgrees(c, db) && Sound(db)
    ensures var r := DetectReturnPath(c, db, now, to, selectFault, updateFault);
            && Typed(r.c) && Sound(r.db) && CacheAgrees(r.c, r.db) && Grows(db, r.db)
            && (r.answer.None? ==> r.db == db)
            && (r.answer.Some? ==>
                  !IsNil(r.answer.value.0) && r.answer.value.0 in r.db.returnPaths && r.answer.value.1 != "")
  {
    hide Sound, Typed, CacheAgrees, Grows, Put, ReturnId;
    var r := DetectReturnPath(c, db, now, to, selectFault, updateFault);
    IdsAreSet(to);
    GrowsReflexive(db);
    NxAgrees(c, db, Slot(Nx, to), now);
    ReturnPathsOnly(db, r.db);
    CacheStable(c, db, r.db);
  }

  lemma {:induction false} QueuedAgree(w: Wire, rdns: string, s: Session, path: string, ds: seq<Destination>, db: Db)
    requires KnownDomain(db, s.domain) && KnownAlias(db, s.alias) && s.alias.domain == s.domain.id && Sound(db)
    requires forall i :: 0 <= i < |ds| ==> KnownDestination(db, s.alias.id, ds[i])
    requires s.id in db.returnPaths && db.returnPaths[s.id].account == s.domain.account &&
        db.returnPaths[s.id].alias == s.alias.id
    ensures OutboxAgrees(Queued(w, rdns, s, path, ds, 0), db)
  {
    FanOutConserves(w, rdns, s, path, ds, 0);
    var q := Queued(w, rdns, s, path, ds, 0);
    forall i | 0 <= i < |q|
      ensures EmailAgrees(db, q[i])
    {
      assert KnownDestination(db, s.alias.id, ds[i]);
      assert q[i] == EmailTo(s, path, ds[i], q[i].message);
    }
  }

  lemma MakeReturnPathAgrees(db: Db, s: Session, fault: bool)
    requires Sound(db)
    ensures var r := MakeReturnPath(db, s, fault);
            && Sound(r.db) && Grows(db, r.db)
            && (r.answer.Some? ==>
                  s.id !in db.returnPaths && s.id in r.db.returnPaths &&
                  r.db.returnPaths[s.id] == ReturnPath(s.domain.account, s.alias.id, s.from, false))
  {
    hide Sound, Grows;
    GrowsReflexive(db);
    ReturnPathsOnly(db, MakeReturnPath(db, s, fault).db);
  }

  lemma RelayAgrees(w: World, now: int, s: Session, e: RelayEnv)
    requires WorldAgrees(w) && SessionAgrees(w.db, s) && !s.returnPath
    requires DestinationRows(w.db, s.alias.id, e.rows)
    ensures var r := Relay(w, now, s, e);
            WorldAgrees(r.world) && Grows(w.db, r.world.db) && SessionAgrees(r.world.db, r.session)
  {
    hide Sound, Typed, CacheAgrees, OutboxAgrees, Grows, GetRdns, MakeReturnPath, RelayOn, DestinationRows;
    GrowsReflexive(w.db);
    var r := GetRdns(w.c, now, e.wire.ip, e.rdns);
    GetRdnsAgrees(w.c, w.db, now, e.wire.ip, e.rdns);
    MakeReturnPathAgrees(w.db, s, e.insertFault);
    var p := MakeReturnPath(w.db, s, e.insertFault);
    CacheStable(r.c, w.db, p.db);
    OutboxStable(w.outbox, w.db, p.db);
    SessionStable(s, w.db, p.db);
    if e.tcp && r.answer.Some? && p.answer.Some? {
      RecipientNeeded(w.db, s, e.insertFault);
      SameRowsSeen(w.db, p.db, s, e.insertFault, e.rows);
      RelayOnAgrees(w.(c := r.c, db := p.db), now, s, e, r.answer.value, p.answer.value);
    }
  }

  /** The queries of destinations do not look at return paths. */
  lemma SameRowsSeen(a: Db, b: Db, s: Session, fault: bool, rows: seq<Destination>)
    requires b == MakeReturnPath(a, s, fault).db && DestinationRows(a, s.alias.id, rows)
    ensures DestinationRows(b, s.alias.id, rows)
  {
    assert forall d :: Linked(b, s.alias.id, d) <==> Linked(a, s.alias.id, d);
  }

  lemma RecipientNeeded(db: Db, s: Session, fault: bool)
    requires MakeReturnPath(db, s, fault).answer.Some?
    ensures s.to != ""
  {
    assert s.to == "" ==> Remove(s.to, '=') == "" && Split("", '@') == [""];
  }

  lemma RelayOnAgrees(w: World, now: int, s: Session, e: RelayEnv, rdns: string, path: string)
    requires WorldAgrees(w) && SessionAgrees(w.db, s) && !s.returnPath && s.to != ""
    requires DestinationRows(w.db, s.alias.id, e.rows)
    requires s.id in w.db.returnPaths && w.db.returnPaths[s.id].account == s.domain.account &&
             w.db.returnPaths[s.id].alias == s.alias.id
    ensures var r := RelayOn(w, now, s, e, rdns, path);
            WorldAgrees(r.world) && r.world.db == w.db && SessionAgrees(w.db, r.session)
  {
    hide Sound, Typed, CacheAgrees, GetDestinations, Queued, DestinationRows;
    GetDestinationsAgrees(w.c, w.db, now, s.alias.id, e.rows, e.destinationFault);
    var d := GetDestinations(w.c, now, s.alias.id, e.rows, e.destinationFault);
    if d.answer.Some? && d.answer.value != [] && e.header.Some? {
      QueuedAgree(e.wire, rdns, s.(from := e.header.value), path, d.answer.value, w.db);
    }
  }

  lemma DataAgrees(w: World, now: int, s: Session, e: DataEnv)
    requires WorldAgrees(w) && SessionAgrees(w.db, s)
    requires DestinationRows(w.db, s.alias.id, e.relay.rows)
    ensures var r := Data(w, now, s, e);
            WorldAgrees(r.world) && Grows(w.db, r.world.db) && SessionAgrees(r.world.db, r.session)
  {
    hide Sound, Typed, CacheAgrees, Grows, Relay, DestinationRows;
    GrowsReflexive(w.db);
    var s1 := s.(message := s.message + e.body);
    if !s.returnPath {
      RelayAgrees(w, now, s1, e.relay);
    }
  }
}
