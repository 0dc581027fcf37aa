/** What each account operation does to the tables, as one step on the database value.
    `me` is the account of the session: with row-level security an operation sees and
    changes only rows of that account, and a conflict with another account's row fails. */
module Store {
  import opened Text
  import opened Schema
  import Dkim

  /** NoRows: a query that needs a row found none. Violation: a statement failed, which
      aborts the transaction. */
  datatype SqlError = NoRows | Violation

  type Outcome = Result<Db, SqlError>

  /** What the sequences and the key generator supply to CreateDomain. */
  datatype NewDomain = NewDomain(id: int, key: int, records: seq<int>, public: string)

  ghost predicate FreshFor(db: Db, n: NewDomain) {
    && n.id !in db.domains
    && n.key !in db.keys
    && |n.records| == 5
    && (forall i :: 0 <= i < 5 ==> n.records[i] !in db.records)
    && (forall i, j :: 0 <= i < j < 5 ==> n.records[i] != n.records[j])
  }

  /** The five records a domain must publish. */
  function Wanted(public: string): (w: seq<Content>)
    ensures |w| == 5
  {
    [ Content("mxax._domainkey", "TXT", Dkim.PrintKey(public)),
      Content("@", "MX", "10 ehlo.mx.ax."),
      Content("@", "MX", "20 helo.mx.ax."),
      Content("@", "TXT", "\"v=spf1 include:spf.mx.ax ~all\""),
      Content("_dmarc", "TXT", "\"v=DMARC1; p=quarantine\"") ]
  }

  function NewRecords(me: int, domain: int, w: seq<Content>, ids: seq<int>): map<int, Record>
    requires |w| == 5 && |ids| == 5
  {
    map[ids[0] := Record(me, domain, w[0], None, true),
        ids[1] := Record(me, domain, w[1], None, true),
        ids[2] := Record(me, domain, w[2], None, true),
        ids[3] := Record(me, domain, w[3], None, true),
        ids[4] := Record(me, domain, w[4], None, true)]
  }

  /** Five inserts, one after the other. */
  lemma InsertedInOrder(t: map<int, Record>, me: int, domain: int, w: seq<Content>, ids: seq<int>)
    requires |w| == 5 && |ids| == 5
    ensures t + NewRecords(me, domain, w, ids) ==
            t[ids[0] := Record(me, domain, w[0], None, true)][ids[1] := Record(me, domain, w[1], None, true)]
             [ids[2] := Record(me, domain, w[2], None, true)][ids[3] := Record(me, domain, w[3], None, true)]
             [ids[4] := Record(me, domain, w[4], None, true)]
  {
  }

  // ------------------------------------------------ domains

  ghost function DeletedNamesakes(db: Db, me: int, name: string): set<int> {
    set i | i in db.domains && db.domains[i].account == me && db.domains[i].name == name && !db.domains[i].live
  }

  /** The row that the upsert on `name` writes. */
  ghost function DomainTarget(db: Db, name: string, serial: int): int {
    var found := FindDomain(db.domains, name);
    if found.Some? then found.value else serial
  }

  ghost function CreateDomain(db: Db, me: int, name: string, code: string, n: NewDomain): Outcome
    requires FreshFor(db, n)
  {
    if |DeletedNamesakes(db, me, name)| > 1 then Err(Violation)
    else
      var id := DomainTarget(db, name, n.id);
      if id in db.domains && db.domains[id].account != me then Err(Violation)
      else if exists i :: i in db.domains && i != id && db.domains[i].code == code then Err(Violation)
      else if exists k :: k in db.keys && db.keys[k].live && db.keys[k].domain == id then Err(Violation)
      else Ok(db.(domains := db.domains[id := Domain(id, me, name, code, false, true)],
                  keys := db.keys[n.key := Key(me, id, n.public, true)],
                  records := db.records + NewRecords(me, id, Wanted(n.public), n.records)))
  }

  ghost predicate OwnAliasOf(db: Db, me: int, alias: int, domain: int) {
    alias in db.aliases && db.aliases[alias].account == me && db.aliases[alias].domain == domain
  }

  ghost function DeleteDomain(db: Db, me: int, domain: int): Db {
    db.(keys := map k | k in db.keys ::
                  var r := db.keys[k]; if r.domain == domain && r.account == me then r.(live := false) else r,
        records := map k | k in db.records ::
                     var r := db.records[k]; if r.domain == domain && r.account == me then r.(live := false) else r,
        links := map k | k in db.links ::
                   var r := db.links[k];
                   if r.account == me && OwnAliasOf(db, me, k.0, domain) then r.(live := false) else r,
        aliases := map k | k in db.aliases ::
                     var r := db.aliases[k]; if r.domain == domain && r.account == me then r.(live := false) else r,
        domains := map k | k in db.domains ::
                     var r := db.domains[k]; if k == domain && r.account == me then r.(live := false) else r)
  }

  /** No part of the deletion looks at a table that another part has changed by then. */
  lemma DeletedApart(a: Db, b: Db, me: int, domain: int)
    ensures var x, y := DeleteDomain(a, me, domain), DeleteDomain(b, me, domain);
            && (a.aliases == b.aliases && a.links == b.links ==> x.links == y.links && x.aliases == y.aliases)
            && (a.domains == b.domains ==> x.domains == y.domains)
            && x.destinations == a.destinations && x.returnPaths == a.returnPaths
  {
  }

  // ------------------------------------------------ aliases, destinations and links

  predicate SeesDomain(db: Db, me: int, id: int) {
    id in db.domains && db.domains[id].account == me && db.domains[id].live
  }

  predicate SeesAlias(db: Db, me: int, id: int) {
    id in db.aliases && db.aliases[id].account == me && db.aliases[id].live
  }

  predicate SeesDestination(db: Db, me: int, id: int) {
    id in db.destinations && db.destinations[id].account == me && db.destinations[id].live
  }

  ghost function CreateLink(db: Db, me: int, alias: int, destination: int): Outcome {
    if alias !in db.aliases || destination !in db.destinations then Err(Violation)
    else if (alias, destination) in db.links && db.links[(alias, destination)].account != me then Err(Violation)
    else Ok(db.(links := db.links[(alias, destination) := Link(me, true)]))
  }

  ghost function CreateAlias(db: Db, me: int, rule: string, domain: int, destination: int, serial: int): Outcome
    requires serial !in db.aliases
  {
    if !SeesDomain(db, me, domain) || !SeesDestination(db, me, destination) then Err(NoRows)
    else
      var found := FindAlias(db.aliases, domain, rule);
      var id := if found.Some? then found.value else serial;
      if found.Some? && db.aliases[id].account != me then Err(Violation)
      else CreateLink(db.(aliases := db.aliases[id := Alias(id, me, domain, rule, true)]), me, id, destination)
  }

  ghost function AttachDestination(db: Db, me: int, alias: int, destination: int): Outcome {
    if !SeesAlias(db, me, alias) || !SeesDestination(db, me, destination) then Err(NoRows)
    else
      var r := CreateLink(db, me, alias, destination);
      if r.Err? then r
      else if !SeesDomain(r.value, me, db.aliases[alias].domain) then Err(NoRows)
      else r
  }

  ghost function DeleteLink(db: Db, me: int, alias: int, destination: int): Outcome {
    if !SeesAlias(db, me, alias) || !SeesDestination(db, me, destination) then Err(NoRows)
    else Ok(db.(links := map k | k in db.links ::
                           var r := db.links[k];
                           if k == (alias, destination) && r.account == me then r.(live := false) else r))
  }

  ghost function DeleteAlias(db: Db, me: int, alias: int): Outcome {
    if !SeesAlias(db, me, alias) || !SeesDomain(db, me, db.aliases[alias].domain) then Err(NoRows)
    else Ok(db.(links := map k | k in db.links ::
                           var r := db.links[k]; if k.0 == alias && r.account == me then r.(live := false) else r,
                aliases := db.aliases[alias := db.aliases[alias].(live := false)]))
  }

  ghost function CreateDestination(db: Db, me: int, address: string, serial: int): Db
    requires serial !in db.destinations
  {
    var found := FindDestination(db.destinations, me, address);
    var id := if found.Some? then found.value else serial;
    db.(destinations := db.destinations[id := Destination(id, me, address, true)])
  }

  ghost function DeleteDestination(db: Db, me: int, destination: int): Outcome {
    if !SeesDestination(db, me, destination) then Err(NoRows)
    else Ok(db.(links := map k | k in db.links ::
                           var r := db.links[k]; if k.1 == destination && r.account == me then r.(live := false) else r,
                destinations := db.destinations[destination := db.destinations[destination].(live := false)]))
  }

  // ------------------------------------------------ the domain page

  const DAY: int := 86_400_000_000_000

  /** The records of a domain that its owner sees. */
  ghost function SeenRecords(db: Db, me: int, domain: int): set<int> {
    set r | r in db.records && db.records[r].account == me && db.records[r].domain == domain && db.records[r].live
  }

  predicate Due(r: Record, now: int) {
    r.lastVerified.None? || now - r.lastVerified.value > DAY
  }

  ghost predicate AllComplete(db: Db, rs: set<int>, now: int, published: set<int>)
    requires rs <= db.records.Keys
  {
    forall r :: r in rs ==> db.records[r].lastVerified.Some? && (!Due(db.records[r], now) || r in published)
  }

  ghost function RecheckRecords(db: Db, rs: set<int>, now: int, published: set<int>): Db {
    db.(records := map r | r in db.records ::
                     if r in rs && Due(db.records[r], now) && r in published
                     then db.records[r].(lastVerified := Some(now)) else db.records[r])
  }

  lemma RecheckNone(db: Db, now: int, published: set<int>)
    ensures RecheckRecords(db, {}, now, published).records == db.records
    ensures AllComplete(db, {}, now, published)
  {
  }

  lemma RecheckOneMore(db: Db, done: set<int>, r: int, now: int, published: set<int>)
    requires done <= db.records.Keys && r in db.records && r !in done
    ensures r in RecheckRecords(db, done, now, published).records
    ensures RecheckRecords(db, done, now, published).records[r] == db.records[r]
    ensures RecheckRecords(db, done + {r}, now, published).records ==
            if Due(db.records[r], now) && r in published
            then RecheckRecords(db, done, now, published).records[r := db.records[r].(lastVerified := Some(now))]
            else RecheckRecords(db, done, now, published).records
    ensures AllComplete(db, done + {r}, now, published) <==>
            AllComplete(db, done, now, published) &&
            db.records[r].lastVerified.Some? && (!Due(db.records[r], now) || r in published)
  {
  }

  /** `code`: the verify CNAME was found. `published`: the records whose DNS answer agreed.
      `form`: the alias form of a POST. `allowed`: the plan lets the account add an alias. */
  datatype PageRequest = PageRequest(name: string, code: bool, published: set<int>, form: Option<AliasForm>)

  /** `destination` is None when the field is not a number. */
  datatype AliasForm = AliasForm(rule: string, compiles: bool, destination: Option<int>, serial: int)

  ghost function DomainPage(db: Db, me: int, allowed: bool, q: PageRequest, now: int): Outcome
    requires q.form.Some? ==> q.form.value.serial !in db.aliases
  {
    var found := FindDomain(db.domains, q.name);
    if found.None? || !SeesDomain(db, me, found.value) then Err(NoRows)
    else
      var d := found.value;
      if !db.domains[d].verified then
        Ok(if q.code then db.(domains := db.domains[d := db.domains[d].(verified := true)]) else db)
      else
        var rs := SeenRecords(db, me, d);
        if |rs| != 5 then Ok(db)
        else
          var checked := RecheckRecords(db, rs, now, q.published);
          if !AllComplete(db, rs, now, q.published) || q.form.None? then Ok(checked)
          else AliasStep(checked, me, allowed, d, q.form.value)
  }

  ghost function AliasStep(db: Db, me: int, allowed: bool, domain: int, f: AliasForm): Outcome
    requires f.serial !in db.aliases
  {
    if f.destination.None? then Err(NoRows)
    else if !allowed || f.rule == "" || !f.compiles then Ok(db)
    else
      var r := CreateAlias(db, me, f.rule, domain, f.destination.value, f.serial);
      if r == Err(NoRows) then Ok(db) else r
  }
}
