/** What every reachable set of account tables keeps: references, single ownership, one live
    key and five live records for a live domain, and identities that are written once. */
module Integrity {
  import opened Text
  import opened Schema
  import opened Store

  // ---------------------------------------------------------------- the invariant

  /** An alias belongs to its domain's account; a live alias is on a live domain. */
  ghost predicate AliasesOk(db: Db) {
    forall a :: a in db.aliases ==>
      var r := db.aliases[a];
      r.domain in db.domains && db.domains[r.domain].account == r.account &&
      (r.live ==> db.domains[r.domain].live)
  }

  /** A link joins rows of its own account; a live link joins live rows. */
  ghost predicate LinksOk(db: Db) {
    forall k :: k in db.links ==>
      var r := db.links[k];
      k.0 in db.aliases && k.1 in db.destinations &&
      db.aliases[k.0].account == r.account && db.destinations[k.1].account == r.account &&
      (r.live ==> db.aliases[k.0].live && db.destinations[k.1].live)
  }

  ghost predicate OwnedByDomain(db: Db) {
    && (forall k :: k in db.keys ==>
          var r := db.keys[k]; r.domain in db.domains && db.domains[r.domain].account == r.account)
    && (forall k :: k in db.records ==>
          var r := db.records[k]; r.domain in db.domains && db.domains[r.domain].account == r.account)
  }

  ghost function LiveKeys(db: Db, domain: int): set<int> {
    set k | k in db.keys && db.keys[k].live && db.keys[k].domain == domain
  }

  ghost function LiveRecords(db: Db, domain: int): set<int> {
    set k | k in db.records && db.records[k].live && db.records[k].domain == domain
  }

  ghost function LiveContents(db: Db, domain: int): set<Content> {
    set k | k in LiveRecords(db, domain) :: db.records[k].content
  }

  function WantedSet(public: string): set<Content> {
    set c | c in Wanted(public)
  }

  /** A live domain has one live key, and its live records are the five it must publish for
      that key; a deleted domain has neither. */
  ghost predicate BooksFor(db: Db, d: int)
    requires d in db.domains
  {
    if db.domains[d].live then
      && |LiveKeys(db, d)| == 1
      && |LiveRecords(db, d)| == 5
      && (forall k :: k in LiveKeys(db, d) ==> LiveContents(db, d) == WantedSet(db.keys[k].public))
    else LiveKeys(db, d) == {} && LiveRecords(db, d) == {}
  }

  ghost predicate BooksOk(db: Db) {
    forall d :: d in db.domains ==> BooksFor(db, d)
  }

  ghost predicate Sound(db: Db) {
    Constraints(db) && AliasesOk(db) && LinksOk(db) && OwnedByDomain(db) && BooksOk(db)
  }

  /** No row disappears, and what identifies a row never changes. */
  ghost predicate Grows(a: Db, b: Db) {
    && (forall i :: i in a.domains ==>
          i in b.domains && b.domains[i].account == a.domains[i].account && b.domains[i].name == a.domains[i].name)
    && (forall i :: i in a.aliases ==>
          i in b.aliases && b.aliases[i].account == a.aliases[i].account &&
          b.aliases[i].domain == a.aliases[i].domain && b.aliases[i].rule == a.aliases[i].rule)
    && (forall i :: i in a.destinations ==>
          i in b.destinations && b.destinations[i].account == a.destinations[i].account &&
          b.destinations[i].address == a.destinations[i].address)
    && (forall k :: k in a.links ==> k in b.links && b.links[k].account == a.links[k].account)
    && (forall k :: k in a.keys ==>
          k in b.keys && b.keys[k].account == a.keys[k].account && b.keys[k].domain == a.keys[k].domain &&
          b.keys[k].public == a.keys[k].public)
    && (forall r :: r in a.records ==>
          r in b.records && b.records[r].account == a.records[r].account &&
          b.records[r].domain == a.records[r].domain && b.records[r].content == a.records[r].content)
    && (forall u :: u in a.returnPaths ==>
          u in b.returnPaths && b.returnPaths[u].returnTo == a.returnPaths[u].returnTo &&
          b.returnPaths[u].account == a.returnPaths[u].account && b.returnPaths[u].alias == a.returnPaths[u].alias)
  }

  lemma GrowsReflexive(a: Db)
    ensures Grows(a, a)
  {
  }

  lemma GrowsTransitive(a: Db, b: Db, c: Db)
    requires Grows(a, b) && Grows(b, c)
    ensures Grows(a, c)
  {
  }

  // ---------------------------------------------------------------- steps that insert nothing

  /** b has the rows of a: only liveness, verification and record dates differ, and no key came to life. */
  ghost predicate SameRows(a: Db, b: Db) {
    && a.domains.Keys == b.domains.Keys
    && (forall i :: i in a.domains ==>
          b.domains[i] == a.domains[i].(live := b.domains[i].live, verified := b.domains[i].verified))
    && a.aliases.Keys == b.aliases.Keys
    && (forall i :: i in a.aliases ==> b.aliases[i] == a.aliases[i].(live := b.aliases[i].live))
    && a.destinations.Keys == b.destinations.Keys
    && (forall i :: i in a.destinations ==> b.destinations[i] == a.destinations[i].(live := b.destinations[i].live))
    && a.links.Keys == b.links.Keys
    && (forall k :: k in a.links ==> b.links[k].account == a.links[k].account)
    && a.keys.Keys == b.keys.Keys
    && (forall k :: k in a.keys ==> b.keys[k] == a.keys[k] || b.keys[k] == a.keys[k].(live := false))
    && a.records.Keys == b.records.Keys
    && (forall r :: r in a.records ==>
          b.records[r] == a.records[r].(live := b.records[r].live, lastVerified := b.records[r].lastVerified))
    && a.returnPaths == b.returnPaths
  }

  lemma SameRowsConstraints(a: Db, b: Db)
    requires SameRows(a, b) && Constraints(a)
    ensures Constraints(b)
  {
  }

  lemma SameRowsKeep(a: Db, b: Db)
    requires SameRows(a, b) && OwnedByDomain(a)
    ensures OwnedByDomain(b) && Grows(a, b)
  {
  }

  /** Operations that leave keys, records and the domains' liveness alone keep the books. */
  lemma SameBooks(a: Db, b: Db)
    requires BooksOk(a) && a.keys == b.keys && a.domains.Keys == b.domains.Keys
    requires forall d :: d in a.domains ==> a.domains[d].live == b.domains[d].live
    requires a.records.Keys == b.records.Keys
    requires forall r :: r in a.records ==>
               b.records[r] == a.records[r].(lastVerified := b.records[r].lastVerified)
    ensures BooksOk(b)
  {
    forall d | d in b.domains
      ensures LiveKeys(b, d) == LiveKeys(a, d) && LiveRecords(b, d) == LiveRecords(a, d)
      ensures LiveContents(b, d) == LiveContents(a, d)
    {
      assert forall k :: k in a.records <==> k in b.records;
      assert forall k :: k in LiveRecords(b, d) <==> k in LiveRecords(a, d);
    }
  }

  /** A step that inserts nothing and leaves keys, records and domains alive as they were has
      only the references of aliases and links to keep. */
  lemma SameRowsIntegrity(a: Db, b: Db)
    requires Sound(a) && SameRows(a, b) && AliasesOk(b) && LinksOk(b)
    requires a.keys == b.keys
    requires forall d :: d in a.domains ==> a.domains[d].live == b.domains[d].live
    requires forall r :: r in a.records ==> b.records[r].live == a.records[r].live
    ensures Sound(b) && Grows(a, b)
  {
    hide Constraints, OwnedByDomain, Grows, BooksOk, AliasesOk, LinksOk;
    SameRowsConstraints(a, b);
    SameRowsKeep(a, b);
    SameBooks(a, b);
  }

  // ---------------------------------------------------------------- links and aliases

  lemma CreateLinkKeeps(db: Db, me: int, alias: int, destination: int)
    requires Sound(db)
    requires SeesAlias(db, me, alias) && SeesDestination(db, me, destination)
    ensures CreateLink(db, me, alias, destination).Ok?
    ensures var b := CreateLink(db, me, alias, destination).value;
            Sound(b) && Grows(db, b) && SeesDomain(b, me, db.aliases[alias].domain)
  {
    hide BooksOk;
    SameBooks(db, CreateLink(db, me, alias, destination).value);
    CreateLinkGrows(db, me, alias, destination);
    hide Grows, LiveKeys, LiveRecords;
  }

  lemma CreateLinkGrows(db: Db, me: int, alias: int, destination: int)
    requires CreateLink(db, me, alias, destination).Ok?
    ensures Grows(db, CreateLink(db, me, alias, destination).value)
  {
  }

  ghost function PutAlias(db: Db, me: int, rule: string, domain: int, serial: int): Db {
    var found := FindAlias(db.aliases, domain, rule);
    var id := if found.Some? then found.value else serial;
    db.(aliases := db.aliases[id := Alias(id, me, domain, rule, true)])
  }

  lemma PutAliasKeeps(db: Db, me: int, rule: string, domain: int, serial: int)
    requires Sound(db) && serial !in db.aliases && SeesDomain(db, me, domain)
    ensures Sound(PutAlias(db, me, rule, domain, serial)) && Grows(db, PutAlias(db, me, rule, domain, serial))
  {
    hide BooksOk, Grows, UniqueNames, UniqueRules, UniqueAddresses, OneLiveKey, LiveKeys, LiveRecords;
    SameBooks(db, PutAlias(db, me, rule, domain, serial));
    PutAliasReferences(db, me, rule, domain, serial);
    PutAliasConstraints(db, me, rule, domain, serial);
    hide Constraints, AliasesOk, LinksOk, OwnedByDomain;
  }

  lemma PutAliasConstraints(db: Db, me: int, rule: string, domain: int, serial: int)
    requires Constraints(db) && serial !in db.aliases
    ensures Constraints(PutAlias(db, me, rule, domain, serial))
  {
  }

  lemma PutAliasReferences(db: Db, me: int, rule: string, domain: int, serial: int)
    requires AliasesOk(db) && LinksOk(db) && OwnedByDomain(db) && Numbered(db)
    requires serial !in db.aliases && SeesDomain(db, me, domain)
    ensures var b := PutAlias(db, me, rule, domain, serial);
            AliasesOk(b) && LinksOk(b) && OwnedByDomain(b) && Grows(db, b)
  {
  }

  lemma CreateAliasKeeps(db: Db, me: int, rule: string, domain: int, destination: int, serial: int)
    requires Sound(db) && serial !in db.aliases
    ensures var r := CreateAlias(db, me, rule, domain, destination, serial);
            r != Err(Violation) && (r.Ok? ==> Sound(r.value) && Grows(db, r.value))
  {
    if SeesDomain(db, me, domain) && SeesDestination(db, me, destination) {
      var found := FindAlias(db.aliases, domain, rule);
      var id := if found.Some? then found.value else serial;
      assert id in db.aliases ==> db.aliases[id].account == me;
      hide Constraints, OwnedByDomain, Grows, BooksOk, AliasesOk, LinksOk;
      var mid := PutAlias(db, me, rule, domain, serial);
      PutAliasKeeps(db, me, rule, domain, serial);
      CreateLinkKeeps(mid, me, id, destination);
      GrowsTransitive(db, mid, CreateLink(mid, me, id, destination).value);
    }
  }

  lemma AttachKeeps(db: Db, me: int, alias: int, destination: int)
    requires Sound(db)
    ensures var r := AttachDestination(db, me, alias, destination);
            && (r.Ok? <==> SeesAlias(db, me, alias) && SeesDestination(db, me, destination))
            && (r.Ok? ==> Sound(r.value) && Grows(db, r.value))
  {
    if SeesAlias(db, me, alias) && SeesDestination(db, me, destination) {
      CreateLinkKeeps(db, me, alias, destination);
    }
  }

  lemma DeleteLinkKeeps(db: Db, me: int, alias: int, destination: int)
    requires Sound(db)
    ensures var r := DeleteLink(db, me, alias, destination);
            r.Ok? ==> Sound(r.value) && Grows(db, r.value) &&
                      ((alias, destination) in r.value.links ==> !r.value.links[(alias, destination)].live)
  {
    hide Constraints, OwnedByDomain, Grows, BooksOk;
    var r := DeleteLink(db, me, alias, destination);
    if r.Ok? {
      SameRowsIntegrity(db, r.value);
    }
  }

  lemma DeleteAliasKeeps(db: Db, me: int, alias: int)
    requires Sound(db)
    ensures var r := DeleteAlias(db, me, alias);
            && (r.Ok? <==> SeesAlias(db, me, alias))
            && (r.Ok? ==> Sound(r.value) && Grows(db, r.value) && !r.value.aliases[alias].live)
  {
    hide Constraints, OwnedByDomain, Grows, BooksOk;
    var r := DeleteAlias(db, me, alias);
    if r.Ok? {
      SameRowsIntegrity(db, r.value);
    }
  }

  lemma CreateDestinationKeeps(db: Db, me: int, address: string, serial: int)
    requires Sound(db) && serial !in db.destinations
    ensures var b := CreateDestination(db, me, address, serial); Sound(b) && Grows(db, b)
  {
    hide BooksOk, UniqueNames, UniqueRules, OneLiveKey, OwnedByDomain;
    var b := CreateDestination(db, me, address, serial);
    SameBooks(db, b);
    SameTables(db, b);
  }

  /** The parts of the invariant that destinations play no part in. */
  lemma SameTables(a: Db, b: Db)
    requires b == a.(destinations := b.destinations)
    requires UniqueNames(a) && UniqueRules(a) && OneLiveKey(a) && OwnedByDomain(a)
    ensures UniqueNames(b) && UniqueRules(b) && OneLiveKey(b) && OwnedByDomain(b)
  {
  }

  lemma DeleteDestinationKeeps(db: Db, me: int, destination: int)
    requires Sound(db)
    ensures var r := DeleteDestination(db, me, destination);
            r.Ok? ==> Sound(r.value) && Grows(db, r.value) && !r.value.destinations[destination].live
  {
    hide Constraints, OwnedByDomain, Grows, BooksOk;
    var r := DeleteDestination(db, me, destination);
    if r.Ok? {
      SameRowsIntegrity(db, r.value);
    }
  }

  // ---------------------------------------------------------------- domains

  lemma Member<T>(s: set<T>) returns (x: T)
    requires s != {}
    ensures x in s
  {
    x :| x in s;
  }

  lemma DeleteDomainLinks(db: Db, me: int, domain: int)
    requires Sound(db) && SeesDomain(db, me, domain)
    ensures AliasesOk(DeleteDomain(db, me, domain)) && LinksOk(DeleteDomain(db, me, domain))
  {
    var b := DeleteDomain(db, me, domain);
    forall k | k in b.links && b.links[k].live
      ensures b.aliases[k.0].live
    {
      assert db.links[k].live;
      assert !OwnAliasOf(db, me, k.0, domain);
    }
  }

  lemma DeleteDomainBooks(db: Db, me: int, domain: int)
    requires OwnedByDomain(db) && BooksOk(db) && SeesDomain(db, me, domain)
    ensures BooksOk(DeleteDomain(db, me, domain))
  {
    var b := DeleteDomain(db, me, domain);
    forall d | d in b.domains
      ensures d == domain ==> LiveKeys(b, d) == {} && LiveRecords(b, d) == {}
      ensures d != domain ==> LiveKeys(b, d) == LiveKeys(db, d) && LiveRecords(b, d) == LiveRecords(db, d)
      ensures d != domain ==> LiveContents(b, d) == LiveContents(db, d)
    {
      assert forall k :: k in b.keys <==> k in db.keys;
      assert forall k :: k in b.records <==> k in db.records;
      if d == domain {
        assert forall k :: k !in LiveKeys(b, d) && k !in LiveRecords(b, d);
      } else {
        assert forall k :: k in LiveKeys(b, d) <==> k in LiveKeys(db, d);
        assert forall k :: k in LiveRecords(b, d) <==> k in LiveRecords(db, d);
      }
    }
  }

  lemma DeleteDomainKeeps(db: Db, me: int, domain: int)
    requires Sound(db) && SeesDomain(db, me, domain)
    ensures var b := DeleteDomain(db, me, domain);
            Sound(b) && Grows(db, b) && !b.domains[domain].live
  {
    var b := DeleteDomain(db, me, domain);
    assert SameRows(db, b);
    SameRowsConstraints(db, b);
    SameRowsKeep(db, b);
    DeleteDomainLinks(db, me, domain);
    DeleteDomainBooks(db, me, domain);
  }

  /** Names are unique, so the guard that counts deleted namesakes is never met. */
  lemma CountGuardNeverFires(db: Db, me: int, name: string)
    requires Constraints(db)
    ensures |DeletedNamesakes(db, me, name)| <= 1
  {
    var s := DeletedNamesakes(db, me, name);
    if s != {} {
      var x := Member(s);
      assert forall y :: y in s ==> y == x;
      assert s == {x};
    }
  }

  /** Creating a live domain again is refused as a whole: the index on live keys stops it. */
  lemma RecreateRefused(db: Db, me: int, name: string, code: string, n: NewDomain)
    requires Sound(db) && FreshFor(db, n)
    requires FindDomain(db.domains, name).Some? && db.domains[FindDomain(db.domains, name).value].live
    ensures CreateDomain(db, me, name, code, n).Err?
  {
    var d := FindDomain(db.domains, name).value;
    var k := Member(LiveKeys(db, d));
  }

  lemma FiveDifferent(ids: seq<int>)
    requires |ids| == 5 && forall i, j :: 0 <= i < j < 5 ==> ids[i] != ids[j]
    ensures |{ids[0], ids[1], ids[2], ids[3], ids[4]}| == 5
  {
    assert |{ids[0], ids[1]}| == 2;
    assert |{ids[0], ids[1], ids[2]}| == 3;
    assert |{ids[0], ids[1], ids[2], ids[3]}| == 4;
  }

  lemma RecordAt(me: int, d: int, w: seq<Content>, ids: seq<int>, i: nat)
    requires |w| == 5 && |ids| == 5 && i < 5 && forall i, j :: 0 <= i < j < 5 ==> ids[i] != ids[j]
    ensures ids[i] in NewRecords(me, d, w, ids) && NewRecords(me, d, w, ids)[ids[i]] == Record(me, d, w[i], None, true)
  {
  }

  lemma NewRecordsAre(me: int, d: int, w: seq<Content>, ids: seq<int>)
    requires |w| == 5 && |ids| == 5 && forall i, j :: 0 <= i < j < 5 ==> ids[i] != ids[j]
    ensures var added := NewRecords(me, d, w, ids);
            && |added.Keys| == 5
            && (forall r :: r in added ==> r in ids && added[r].account == me && added[r].domain == d && added[r].live)
            && (set r | r in added :: added[r].content) == set c | c in w
  {
    var added := NewRecords(me, d, w, ids);
    assert added.Keys == {ids[0], ids[1], ids[2], ids[3], ids[4]};
    FiveDifferent(ids);
    hide NewRecords;
    forall i | 0 <= i < 5
      ensures ids[i] in added && added[ids[i]] == Record(me, d, w[i], None, true)
    {
      RecordAt(me, d, w, ids, i);
    }
    assert forall r :: r in added ==> r in ids;
    var contents := set r | r in added :: added[r].content;
    forall c | c in w
      ensures c in contents
    {
      var i :| 0 <= i < 5 && c == w[i];
      assert ids[i] in added && added[ids[i]].content == w[i];
    }
  }

  lemma RecordsAdded(db: Db, b: Db, d: int, added: map<int, Record>)
    requires added.Keys !! db.records.Keys && b.records == db.records + added
    requires forall r :: r in added ==> added[r].domain == d && added[r].live
    requires LiveRecords(db, d) == {}
    ensures LiveRecords(b, d) == added.Keys
    ensures LiveContents(b, d) == set r | r in added :: added[r].content
    ensures forall e :: e != d ==> LiveRecords(b, e) == LiveRecords(db, e)
    ensures forall e :: e != d ==> LiveContents(b, e) == LiveContents(db, e)
  {
    forall r | r in db.records
      ensures r in b.records && b.records[r] == db.records[r]
      ensures !(db.records[r].live && db.records[r].domain == d)
    {
      assert r !in LiveRecords(db, d);
    }
    assert forall r :: r in LiveRecords(b, d) <==> r in added.Keys;
    forall e | e != d
      ensures LiveRecords(b, e) == LiveRecords(db, e)
      ensures LiveContents(b, e) == LiveContents(db, e)
    {
      assert forall r :: r in LiveRecords(b, e) <==> r in LiveRecords(db, e);
    }
  }

  /** b is db after domain `id` was inserted or revived with one new key and new records. */
  ghost predicate Opened(db: Db, b: Db, me: int, id: int, row: Domain, k: int, key: Key, added: map<int, Record>) {
    && b == db.(domains := db.domains[id := row], keys := db.keys[k := key], records := db.records + added)
    && row.id == id && row.account == me && row.live
    && (id in db.domains ==> db.domains[id].account == me && db.domains[id].name == row.name)
    && (id !in db.domains ==> forall i :: i in db.domains ==> db.domains[i].name != row.name)
    && LiveKeys(db, id) == {}
    && k !in db.keys && key.account == me && key.domain == id && key.live
    && added.Keys !! db.records.Keys
    && (forall r :: r in added ==> added[r].account == me && added[r].domain == id && added[r].live)
  }

  lemma OpenedConstraints(db: Db, b: Db, me: int, id: int, row: Domain, k: int, key: Key, added: map<int, Record>)
    requires Constraints(db) && Opened(db, b, me, id, row, k, key, added)
    ensures Constraints(b)
  {
    forall j | j in db.keys
      ensures !(db.keys[j].live && db.keys[j].domain == id)
    {
      assert j !in LiveKeys(db, id);
    }
  }

  lemma OpenedReferences(db: Db, b: Db, me: int, id: int, row: Domain, k: int, key: Key, added: map<int, Record>)
    requires Opened(db, b, me, id, row, k, key, added)
    requires AliasesOk(db) && LinksOk(db) && OwnedByDomain(db)
    ensures AliasesOk(b) && LinksOk(b) && OwnedByDomain(b) && Grows(db, b)
  {
    hide LiveKeys;
    OpenedGrows(db, b, me, id, row, k, key, added);
    hide Grows;
  }

  lemma OpenedGrows(db: Db, b: Db, me: int, id: int, row: Domain, k: int, key: Key, added: map<int, Record>)
    requires Opened(db, b, me, id, row, k, key, added)
    ensures Grows(db, b)
  {
    hide LiveKeys;
  }

  lemma OpenedKeys(db: Db, b: Db, me: int, id: int, row: Domain, k: int, key: Key, added: map<int, Record>)
    requires Opened(db, b, me, id, row, k, key, added)
    ensures LiveKeys(b, id) == {k}
    ensures forall d :: d != id ==> LiveKeys(b, d) == LiveKeys(db, d)
  {
    assert forall j :: j in db.keys ==> j !in LiveKeys(db, id);
    assert forall j :: j in LiveKeys(b, id) <==> j == k;
    forall d | d != id
      ensures LiveKeys(b, d) == LiveKeys(db, d)
    {
      assert forall j :: j in LiveKeys(b, d) <==> j in LiveKeys(db, d);
    }
  }

  /** A domain whose keys and records are untouched keeps its books. */
  lemma BooksUntouched(a: Db, b: Db, d: int)
    requires d in a.domains && d in b.domains && a.domains[d].live == b.domains[d].live && BooksFor(a, d)
    requires LiveKeys(b, d) == LiveKeys(a, d) && LiveRecords(b, d) == LiveRecords(a, d) &&
        LiveContents(b, d) == LiveContents(a, d)
    requires forall k :: k in LiveKeys(a, d) ==> b.keys[k] == a.keys[k]
    ensures BooksFor(b, d)
  {
  }

  lemma OpenedBooks(db: Db, b: Db, me: int, id: int, row: Domain, k: int, key: Key, added: map<int, Record>)
    requires Opened(db, b, me, id, row, k, key, added)
    requires BooksOk(db) && LiveRecords(db, id) == {}
    requires |added.Keys| == 5
    requires (set r | r in added :: added[r].content) == WantedSet(key.public)
    ensures BooksOk(b)
  {
    hide WantedSet, LiveRecords, LiveContents;
    OpenedKeys(db, b, me, id, row, k, key, added);
    RecordsAdded(db, b, id, added);
    assert BooksFor(b, id) by { hide BooksOk; }
    hide LiveKeys, BooksFor;
    forall d | d in b.domains && d != id
      ensures BooksFor(b, d)
    {
      BooksUntouched(db, b, d);
    }
  }

  lemma NoneLive(db: Db, id: int)
    requires Sound(db) && (id in db.domains ==> !db.domains[id].live)
    ensures LiveKeys(db, id) == {} && LiveRecords(db, id) == {}
  {
    if id in db.domains {
      assert !db.domains[id].live;
    } else {
      assert forall k :: k in db.keys ==> db.keys[k].domain != id;
      assert forall k :: k in db.records ==> db.records[k].domain != id;
    }
  }

  lemma TargetDead(db: Db, me: int, name: string, code: string, n: NewDomain)
    requires Sound(db) && FreshFor(db, n) && CreateDomain(db, me, name, code, n).Ok?
    ensures var id := DomainTarget(db, name, n.id);
            && (id in db.domains ==> !db.domains[id].live)
            && LiveKeys(db, id) == {} && LiveRecords(db, id) == {}
  {
    var id := DomainTarget(db, name, n.id);
    if id in db.domains && db.domains[id].live {
      RecreateRefused(db, me, name, code, n);
    }
    NoneLive(db, id);
  }

  /** Exactly when a domain can be created: its name is new, or was deleted by this account, and
      no other domain has the code. */
  lemma CreateDomainWhen(db: Db, me: int, name: string, code: string, n: NewDomain)
    requires Sound(db) && FreshFor(db, n)
    ensures var found := FindDomain(db.domains, name);
            CreateDomain(db, me, name, code, n).Ok? <==>
              && (found.Some? ==> db.domains[found.value].account == me && !db.domains[found.value].live)
              && forall i | i in db.domains && i != DomainTarget(db, name, n.id) :: db.domains[i].code != code
  {
    hide Sound;
    var id := DomainTarget(db, name, n.id);
    assert Constraints(db) by { SoundConstraints(db); }
    CountGuardNeverFires(db, me, name);
    if id in db.domains && db.domains[id].live {
      RecreateRefused(db, me, name, code, n);
    } else {
      NoneLive(db, id);
      assert forall k :: k in db.keys && db.keys[k].live ==> db.keys[k].domain != id || k in LiveKeys(db, id);
    }
  }

  lemma SoundConstraints(db: Db)
    requires Sound(db)
    ensures Constraints(db)
  {
  }

  lemma NewRecordsFresh(db: Db, me: int, id: int, n: NewDomain)
    requires FreshFor(db, n)
    ensures var added := NewRecords(me, id, Wanted(n.public), n.records);
            && added.Keys !! db.records.Keys
            && |added.Keys| == 5
            && (forall r :: r in added ==> added[r].account == me && added[r].domain == id && added[r].live)
            && (set r | r in added :: added[r].content) == WantedSet(n.public)
  {
    hide Wanted, NewRecords;
    var ids := n.records;
    var added := NewRecords(me, id, Wanted(n.public), ids);
    NewRecordsAre(me, id, Wanted(n.public), ids);
    assert forall r :: r in added.Keys ==> r !in db.records.Keys;
  }

  lemma CreateDomainOpens(db: Db, me: int, name: string, code: string, n: NewDomain, b: Db)
    requires Sound(db) && FreshFor(db, n) && CreateDomain(db, me, name, code, n) == Ok(b)
    ensures var id := DomainTarget(db, name, n.id);
            Opened(db, b, me, id, Domain(id, me, name, code, false, true), n.key, Key(me, id, n.public, true),
                   NewRecords(me, id, Wanted(n.public), n.records))
  {
    hide Sound, Wanted, NewRecords, DeletedNamesakes, LiveKeys, LiveRecords;
    TargetDead(db, me, name, code, n);
    NewRecordsFresh(db, me, DomainTarget(db, name, n.id), n);
  }

  lemma CreateDomainKeeps(db: Db, me: int, name: string, code: string, n: NewDomain)
    requires Sound(db) && FreshFor(db, n)
    ensures var r := CreateDomain(db, me, name, code, n);
            r.Ok? ==> Sound(r.value) && Grows(db, r.value)
  {
    var r := CreateDomain(db, me, name, code, n);
    if r.Ok? {
      var id, w := DomainTarget(db, name, n.id), Wanted(n.public);
      var row, key, added := Domain(id, me, name, code, false, true), Key(me, id, n.public, true),
          NewRecords(me, id, w, n.records);
      hide Wanted, NewRecords, Opened, CreateDomain;
      CreateDomainOpens(db, me, name, code, n, r.value);
      TargetDead(db, me, name, code, n);
      NewRecordsFresh(db, me, id, n);
      OpenedConstraints(db, r.value, me, id, row, n.key, key, added);
      OpenedReferences(db, r.value, me, id, row, n.key, key, added);
      OpenedBooks(db, r.value, me, id, row, n.key, key, added);
    }
  }

  // ---------------------------------------------------------------- the domain page

  lemma SeenAreLive(db: Db, me: int, domain: int)
    requires Sound(db) && SeesDomain(db, me, domain)
    ensures SeenRecords(db, me, domain) == LiveRecords(db, domain)
  {
    assert forall r :: r in SeenRecords(db, me, domain) <==> r in LiveRecords(db, domain);
  }

  /** The completeness test of five records is met by construction for every live domain. */
  lemma FiveRecordsSeen(db: Db, me: int, domain: int)
    requires Sound(db) && SeesDomain(db, me, domain)
    ensures |SeenRecords(db, me, domain)| == 5
  {
    SeenAreLive(db, me, domain);
    assert BooksFor(db, domain);
  }

  lemma RecheckKeeps(db: Db, rs: set<int>, now: int, published: set<int>)
    requires Sound(db)
    ensures Sound(RecheckRecords(db, rs, now, published)) && Grows(db, RecheckRecords(db, rs, now, published))
  {
    hide Constraints, OwnedByDomain, Grows, BooksOk;
    var b := RecheckRecords(db, rs, now, published);
    SameRowsIntegrity(db, b);
  }

  lemma VerifyKeeps(db: Db, d: int)
    requires Sound(db) && d in db.domains
    ensures var b := db.(domains := db.domains[d := db.domains[d].(verified := true)]); Sound(b) && Grows(db, b)
  {
    hide Constraints, OwnedByDomain, Grows, BooksOk;
    var b := db.(domains := db.domains[d := db.domains[d].(verified := true)]);
    SameRowsIntegrity(db, b);
  }

  lemma AliasStepKeeps(db: Db, me: int, allowed: bool, domain: int, f: AliasForm)
    requires Sound(db) && f.serial !in db.aliases
    ensures var r := AliasStep(db, me, allowed, domain, f);
            r != Err(Violation) && (r.Ok? ==> Sound(r.value) && Grows(db, r.value))
  {
    if f.destination.Some? {
      CreateAliasKeeps(db, me, f.rule, domain, f.destination.value, f.serial);
    }
  }

  lemma DomainPageKeeps(db: Db, me: int, allowed: bool, q: PageRequest, now: int)
    requires Sound(db) && (q.form.Some? ==> q.form.value.serial !in db.aliases)
    ensures var r := DomainPage(db, me, allowed, q, now);
            r != Err(Violation) && (r.Ok? ==> Sound(r.value) && Grows(db, r.value))
  {
    hide Sound, Grows, AllComplete, AliasStep;
    GrowsReflexive(db);
    var found := FindDomain(db.domains, q.name);
    if found.Some? && SeesDomain(db, me, found.value) {
      var d := found.value;
      if !db.domains[d].verified {
        VerifyKeeps(db, d);
      } else {
        var rs := SeenRecords(db, me, d);
        var checked := RecheckRecords(db, rs, now, q.published);
        RecheckKeeps(db, rs, now, q.published);
        if q.form.Some? {
          AliasStepKeeps(checked, me, allowed, d, q.form.value);
          var r := AliasStep(checked, me, allowed, d, q.form.value);
          if r.Ok? {
            GrowsTransitive(db, checked, r.value);
          }
        }
      }
    }
  }
}
