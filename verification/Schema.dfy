/** The account tables. Rows are never removed: `deleted_at` is kept as its negation, `live`. */
module Schema {
  import opened Text
  import opened Uuid

  datatype Domain = Domain(id: int, account: int, name: string, code: string, verified: bool, live: bool)

  datatype Alias = Alias(id: int, account: int, domain: int, rule: string, live: bool)

  datatype Destination = Destination(id: int, account: int, address: string, live: bool)

  /** A row of alias_destinations; the pair of ids is its key. */
  datatype Link = Link(account: int, live: bool)

  datatype Key = Key(account: int, domain: int, public: string, live: bool)

  datatype Record = Record(account: int, domain: int, content: Content, lastVerified: Option<int>, live: bool)

  datatype Content = Content(host: string, rtype: string, value: string)

  datatype ReturnPath = ReturnPath(account: int, alias: int, returnTo: string, returned: bool)

  datatype Db = Db(
    domains: map<int, Domain>,
    aliases: map<int, Alias>,
    destinations: map<int, Destination>,
    links: map<(int, int), Link>,
    keys: map<int, Key>,
    records: map<int, Record>,
    returnPaths: map<Uuid, ReturnPath>)

  const EMPTY: Db := Db(map[], map[], map[], map[], map[], map[], map[])

  /** The zero structs of a session that has accepted no recipient. */
  const NO_DOMAIN: Domain := Domain(0, 0, "", "", false, false)

  const NO_ALIAS: Alias := Alias(0, 0, 0, "", false)

  /** The domains the mail router answers for. */
  predicate Served(d: Domain, name: string) {
    d.name == name && d.live && d.verified
  }

  // ------------------------------------------------ lookups by unique column

  ghost function FindDomain(t: map<int, Domain>, name: string): (r: Option<int>)
    ensures r.Some? ==> r.value in t && t[r.value].name == name
    ensures r.None? ==> forall i :: i in t ==> t[i].name != name
  {
    if i :| i in t && t[i].name == name then Some(i) else None
  }

  ghost function FindAlias(t: map<int, Alias>, domain: int, rule: string): (r: Option<int>)
    ensures r.Some? ==> r.value in t && t[r.value].domain == domain && t[r.value].rule == rule
    ensures r.None? ==> forall i :: i in t ==> !(t[i].domain == domain && t[i].rule == rule)
  {
    if i :| i in t && t[i].domain == domain && t[i].rule == rule then Some(i) else None
  }

  ghost function FindDestination(t: map<int, Destination>, account: int, address: string): (r: Option<int>)
    ensures r.Some? ==> r.value in t && t[r.value].account == account && t[r.value].address == address
    ensures r.None? ==> forall i :: i in t ==> !(t[i].account == account && t[i].address == address)
  {
    if i :| i in t && t[i].account == account && t[i].address == address then Some(i) else None
  }

  // ------------------------------------------------ declared constraints

  ghost predicate Numbered(db: Db) {
    && (forall i :: i in db.domains ==> db.domains[i].id == i)
    && (forall i :: i in db.aliases ==> db.aliases[i].id == i)
    && (forall i :: i in db.destinations ==> db.destinations[i].id == i)
  }

  ghost predicate UniqueNames(db: Db) {
    forall i, j | i in db.domains && j in db.domains && db.domains[i].name == db.domains[j].name :: i == j
  }

  ghost predicate UniqueRules(db: Db) {
    forall i, j | i in db.aliases && j in db.aliases && SameRule(db.aliases[i], db.aliases[j]) :: i == j
  }

  ghost predicate UniqueAddresses(db: Db) {
    forall i, j | i in db.destinations && j in db.destinations &&
                  SameAddress(db.destinations[i], db.destinations[j]) :: i == j
  }

  ghost predicate OneLiveKey(db: Db) {
    forall i, j | i in db.keys && j in db.keys && BothLiveFor(db.keys[i], db.keys[j]) :: i == j
  }

  /** Primary keys and UNIQUE columns of the schema, and the index that allows one live key a domain. */
  ghost predicate Constraints(db: Db) {
    Numbered(db) && UniqueNames(db) && UniqueRules(db) && UniqueAddresses(db) && OneLiveKey(db)
  }

  predicate SameRule(a: Alias, b: Alias) {
    a.domain == b.domain && a.rule == b.rule
  }

  predicate SameAddress(a: Destination, b: Destination) {
    a.account == b.account && a.address == b.address
  }

  predicate BothLiveFor(a: Key, b: Key) {
    a.live && b.live && a.domain == b.domain
  }
}
