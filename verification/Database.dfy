/** The account tables as the handlers change them: one statement after another, inside
    transactions that are rolled back when a statement fails. */
module Database {
  import opened Text
  import opened Uuid
  import opened Schema
  import S = Store
  import Dkim

  class Tables {
    var domains: map<int, Domain>
    var aliases: map<int, Alias>
    var destinations: map<int, Destination>
    var links: map<(int, int), Link>
    var keys: map<int, Key>
    var records: map<int, Record>
    var returnPaths: map<Uuid, ReturnPath>

    function View(): Db
      reads this
    {
      Db(domains, aliases, destinations, links, keys, records, returnPaths)
    }

    constructor ()
      ensures View() == EMPTY
    {
      domains, aliases, destinations, links := map[], map[], map[], map[];
      keys, records, returnPaths := map[], map[], map[];
    }

    /** What an operation that returned `error` did, against what it had to do. */
    ghost predicate Did(outcome: S.Outcome, before: Db, error: Option<S.SqlError>)
      reads this
    {
      match outcome
      case Ok(after) => error.None? && View() == after
      case Err(e) => error == Some(e) && View() == before
    }

    // ------------------------------------------------ queries

    method SelectDomain(name: string) returns (r: Option<int>)
      requires UniqueNames(View())
      ensures r == FindDomain(domains, name)
    {
      if i :| i in domains && domains[i].name == name {
        return Some(i);
      }
      return None;
    }

    method SelectAlias(domain: int, rule: string) returns (r: Option<int>)
      requires UniqueRules(View())
      ensures r == FindAlias(aliases, domain, rule)
    {
      if i :| i in aliases && aliases[i].domain == domain && aliases[i].rule == rule {
        assert forall j | j in aliases && aliases[j].domain == domain && aliases[j].rule == rule ::
          SameRule(aliases[i], aliases[j]);
        return Some(i);
      }
      return None;
    }

    method SelectDestination(account: int, address: string) returns (r: Option<int>)
      requires UniqueAddresses(View())
      ensures r == FindDestination(destinations, account, address)
    {
      if i :| i in destinations && destinations[i].account == account && destinations[i].address == address {
        assert forall j | j in destinations && destinations[j].account == account &&
                          destinations[j].address == address ::
          SameAddress(destinations[i], destinations[j]);
        return Some(i);
      }
      return None;
    }

    // ------------------------------------------------ domains

    method InsertRecord(me: int, domain: int, content: Content, id: int)
      modifies this`records
      ensures records == old(records)[id := Record(me, domain, content, None, true)]
    {
      records := records[id := Record(me, domain, content, None, true)];
    }

    method InsertWanted(me: int, domain: int, n: S.NewDomain)
      requires |n.records| == 5
      modifies this`records
      ensures records == old(records) + S.NewRecords(me, domain, S.Wanted(n.public), n.records)
    {
      hide Dkim.PrintKey, S.NewRecords;
      S.InsertedInOrder(records, me, domain, S.Wanted(n.public), n.records);
      var text := Dkim.KeyString(n.public);
      InsertRecord(me, domain, Content("mxax._domainkey", "TXT", text), n.records[0]);
      InsertRecord(me, domain, Content("@", "MX", "10 ehlo.mx.ax."), n.records[1]);
      InsertRecord(me, domain, Content("@", "MX", "20 helo.mx.ax."), n.records[2]);
      InsertRecord(me, domain, Content("@", "TXT", "\"v=spf1 include:spf.mx.ax ~all\""), n.records[3]);
      InsertRecord(me, domain, Content("_dmarc", "TXT", "\"v=DMARC1; p=quarantine\""), n.records[4]);
    }

    /** The upsert on `name`; the row it wrote, or None when the statement failed. */
    method UpsertDomain(me: int, name: string, code: string, serial: int) returns (id: Option<int>)
      requires Numbered(View()) && UniqueNames(View()) && serial !in domains
      modifies this`domains
      ensures var t := S.DomainTarget(old(View()), name, serial);
              if (t in old(domains) && old(domains)[t].account != me) ||
                 exists i :: i in old(domains) && i != t && old(domains)[i].code == code
              then id.None? && domains == old(domains)
              else id == Some(t) && domains == old(domains)[t := Domain(t, me, name, code, false, true)]
    {
      var found := SelectDomain(name);
      var t := if found.Some? then found.value else serial;
      if found.Some? && domains[t].account != me {
        return None;
      }
      if exists i :: i in domains && i != t && domains[i].code == code {
        return None;
      }
      if found.Some? {
        domains := domains[t := domains[t].(live := true, code := code, verified := false)];
      } else {
        domains := domains[t := Domain(t, me, name, code, false, true)];
      }
      return Some(t);
    }

    method CreateDomain(me: int, name: string, code: string, n: S.NewDomain) returns (error: Option<S.SqlError>)
      requires Numbered(View()) && UniqueNames(View()) && S.FreshFor(View(), n)
      modifies this
      ensures Did(S.CreateDomain(old(View()), me, name, code, n), old(View()), error)
    {
      hide S.NewRecords, S.Wanted, UniqueNames, Numbered;
      var namesakes := set i | i in domains && domains[i].account == me && domains[i].name == name && !domains[i].live;
      assert namesakes == S.DeletedNamesakes(View(), me, name);
      if |namesakes| > 1 {
        return Some(S.Violation);
      }
      // Begin
      var saved := domains;
      var id := UpsertDomain(me, name, code, n.id);
      if id.None? {
        return Some(S.Violation);
      }
      if exists k :: k in keys && keys[k].live && keys[k].domain == id.value {
        // Rollback
        domains := saved;
        return Some(S.Violation);
      }
      keys := keys[n.key := Key(me, id.value, n.public, true)];
      InsertWanted(me, id.value, n);
      // Commit
      return None;
    }

    method HideKeysAndRecords(me: int, domain: int)
      modifies this`keys, this`records
      ensures keys == S.DeleteDomain(old(View()), me, domain).keys
      ensures records == S.DeleteDomain(old(View()), me, domain).records
    {
      keys := map k | k in keys ::
        if keys[k].domain == domain && keys[k].account == me then keys[k].(live := false) else keys[k];
      records := map k | k in records ::
        if records[k].domain == domain && records[k].account == me then records[k].(live := false) else records[k];
    }

    method HideAliases(me: int, domain: int)
      modifies this`links, this`aliases
      ensures links == S.DeleteDomain(old(View()), me, domain).links
      ensures aliases == S.DeleteDomain(old(View()), me, domain).aliases
    {
      var own := set a | a in aliases && aliases[a].account == me && aliases[a].domain == domain;
      links := map k | k in links ::
        if links[k].account == me && k.0 in own then links[k].(live := false) else links[k];
      aliases := map k | k in aliases ::
        if aliases[k].domain == domain && aliases[k].account == me then aliases[k].(live := false) else aliases[k];
    }

    method HideDomain(me: int, domain: int)
      modifies this`domains
      ensures domains == S.DeleteDomain(old(View()), me, domain).domains
    {
      domains := map k | k in domains ::
        if k == domain && domains[k].account == me then domains[k].(live := false) else domains[k];
    }

    method DeleteDomain(me: int, domain: int)
      modifies this
      ensures View() == S.DeleteDomain(old(View()), me, domain)
    {
      hide S.DeleteDomain;
      ghost var before := View();
      HideKeysAndRecords(me, domain);
      S.DeletedApart(before, View(), me, domain);
      HideAliases(me, domain);
      S.DeletedApart(before, View(), me, domain);
      HideDomain(me, domain);
    }

    // ------------------------------------------------ aliases, destinations and links

    method CreateLink(me: int, alias: int, destination: int) returns (error: Option<S.SqlError>)
      modifies this`links
      ensures Did(S.CreateLink(old(View()), me, alias, destination), old(View()), error)
    {
      if alias !in aliases || destination !in destinations {
        return Some(S.Violation);
      }
      if (alias, destination) in links {
        if links[(alias, destination)].account != me {
          return Some(S.Violation);
        }
        links := links[(alias, destination) := links[(alias, destination)].(live := true)];
      } else {
        links := links[(alias, destination) := Link(me, true)];
      }
      return None;
    }

    /** When the link statement fails the transaction around both statements is lost. */
    method CreateAlias(me: int, rule: string, domain: int, destination: int, serial: int)
      returns (error: Option<S.SqlError>)
      requires Numbered(View()) && UniqueRules(View()) && serial !in aliases
      modifies this`aliases, this`links
      ensures Did(S.CreateAlias(old(View()), me, rule, domain, destination, serial), old(View()), error)
    {
      if !S.SeesDomain(View(), me, domain) || !S.SeesDestination(View(), me, destination) {
        return Some(S.NoRows);
      }
      var saved := aliases;
      var found := SelectAlias(domain, rule);
      var id := if found.Some? then found.value else serial;
      if found.Some? {
        if aliases[id].account != me {
          return Some(S.Violation);
        }
        aliases := aliases[id := aliases[id].(live := true)];
      } else {
        aliases := aliases[id := Alias(id, me, domain, rule, true)];
      }
      error := CreateLink(me, id, destination);
      if error.Some? {
        aliases := saved;
      }
    }

    method AttachDestination(me: int, alias: int, destination: int) returns (error: Option<S.SqlError>)
      modifies this`links
      ensures Did(S.AttachDestination(old(View()), me, alias, destination), old(View()), error)
    {
      if !S.SeesAlias(View(), me, alias) || !S.SeesDestination(View(), me, destination) {
        return Some(S.NoRows);
      }
      var saved := links;
      error := CreateLink(me, alias, destination);
      if error.None? && !S.SeesDomain(View(), me, aliases[alias].domain) {
        links := saved;
        return Some(S.NoRows);
      }
    }

    method DeleteLink(me: int, alias: int, destination: int) returns (error: Option<S.SqlError>)
      modifies this`links
      ensures Did(S.DeleteLink(old(View()), me, alias, destination), old(View()), error)
    {
      if !S.SeesAlias(View(), me, alias) || !S.SeesDestination(View(), me, destination) {
        return Some(S.NoRows);
      }
      if (alias, destination) in links && links[(alias, destination)].account == me {
        links := links[(alias, destination) := links[(alias, destination)].(live := false)];
      }
      return None;
    }

    method DeleteAlias(me: int, alias: int) returns (error: Option<S.SqlError>)
      modifies this`links, this`aliases
      ensures Did(S.DeleteAlias(old(View()), me, alias), old(View()), error)
    {
      if !S.SeesAlias(View(), me, alias) {
        return Some(S.NoRows);
      }
      if !S.SeesDomain(View(), me, aliases[alias].domain) {
        return Some(S.NoRows);
      }
      links := map k | k in links ::
        if k.0 == alias && links[k].account == me then links[k].(live := false) else links[k];
      aliases := aliases[alias := aliases[alias].(live := false)];
      return None;
    }

    method CreateDestination(me: int, address: string, serial: int)
      requires Numbered(View()) && UniqueAddresses(View()) && serial !in destinations
      modifies this`destinations
      ensures View() == S.CreateDestination(old(View()), me, address, serial)
    {
      var found := SelectDestination(me, address);
      if found.Some? {
        destinations := destinations[found.value := destinations[found.value].(live := true)];
      } else {
        destinations := destinations[serial := Destination(serial, me, address, true)];
      }
    }

    method DeleteDestination(me: int, destination: int) returns (error: Option<S.SqlError>)
      modifies this`links, this`destinations
      ensures Did(S.DeleteDestination(old(View()), me, destination), old(View()), error)
    {
      if !S.SeesDestination(View(), me, destination) {
        return Some(S.NoRows);
      }
      links := map k | k in links ::
        if k.1 == destination && links[k].account == me then links[k].(live := false) else links[k];
      assert links == S.DeleteDestination(old(View()), me, destination).value.links;
      destinations := destinations[destination := destinations[destination].(live := false)];
      return None;
    }

    // ------------------------------------------------ the domain page

    /** The loop over the records of a domain: each one due is asked for again. */
    method CheckRecords(rows: set<int>, published: set<int>, now: int) returns (complete: bool)
      requires rows <= records.Keys
      modifies this`records
      ensures records == S.RecheckRecords(old(View()), rows, now, published).records
      ensures complete == S.AllComplete(old(View()), rows, now, published)
    {
      hide S.RecheckRecords, S.AllComplete;
      complete := true;
      ghost var before, done := View(), {};
      var todo := rows;
      S.RecheckNone(before, now, published);
      while todo != {}
        invariant done !! todo && done + todo == rows
        invariant records == S.RecheckRecords(before, done, now, published).records
        invariant complete == S.AllComplete(before, done, now, published)
        decreases todo
      {
        var id := Any(todo);
        S.RecheckOneMore(before, done, id, now, published);
        var r := records[id];
        todo := todo - {id};
        done := done + {id};
        if S.Due(r, now) {
          if id !in published {
            complete := false;
          } else {
            records := records[id := r.(lastVerified := Some(now))];
            // IsComplete looks at the row as it was read
            if !(r.lastVerified.Some? && now - r.lastVerified.value > S.DAY) {
              complete := false;
            }
          }
        }
      }
      assert done == rows;
    }

    /** The alias form at the foot of the page. */
    method SubmitAlias(me: int, allowed: bool, domain: int, f: S.AliasForm) returns (error: Option<S.SqlError>)
      requires Numbered(View()) && UniqueRules(View()) && f.serial !in aliases
      modifies this`aliases, this`links
      ensures Did(S.AliasStep(old(View()), me, allowed, domain, f), old(View()), error)
    {
      if f.destination.None? {
        return Some(S.NoRows);
      }
      if allowed && f.rule != "" && f.compiles {
        error := CreateAlias(me, f.rule, domain, f.destination.value, f.serial);
        if error == Some(S.NoRows) {
          error := None;
        }
      } else {
        error := None;
      }
    }

    method ViewDomain(me: int, allowed: bool, q: S.PageRequest, now: int) returns (error: Option<S.SqlError>)
      requires Numbered(View()) && UniqueNames(View()) && UniqueRules(View())
      requires q.form.Some? ==> q.form.value.serial !in aliases
      modifies this
      ensures Did(S.DomainPage(old(View()), me, allowed, q, now), old(View()), error)
    {
      hide UniqueNames, S.CreateAlias;
      var found := SelectDomain(q.name);
      if found.None? || !S.SeesDomain(View(), me, found.value) {
        return Some(S.NoRows);
      }
      var d := found.value;
      if !domains[d].verified {
        if q.code {
          domains := domains[d := domains[d].(verified := true)];
        }
        return None;
      }
      var rows := set r | r in records && records[r].account == me && records[r].domain == d && records[r].live;
      assert rows == S.SeenRecords(View(), me, d);
      if |rows| != 5 {
        return None;
      }
      var saved := records;
      var complete := CheckRecords(rows, q.published, now);
      if complete && q.form.Some? {
        error := SubmitAlias(me, allowed, d, q.form.value);
        if error.Some? {
          records := saved;
        }
      } else {
        error := None;
      }
    }
  }
}
