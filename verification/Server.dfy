/** The mail router as it runs: look-ups that fill the cache as they go, relaying through pooled
    buffers, and sessions whose fields change from call to call. Each method does exactly
    what the functions of Router and Sessions say. */
module Server {
  import opened Text
  import opened Uuid
  import opened Schema
  import opened Cache
  import opened Router
  import opened Sessions
  import opened Buffers
  import opened Database

  ghost function Of(deferred: seq<Buffer>): set<Buffer> {
    set b | b in deferred
  }

  /** What is taken from the pool and not yet given back is exactly the deferred buffers. */
  ghost predicate Borrowed(lent: set<Buffer>, before: set<Buffer>, deferred: seq<Buffer>) {
    && lent == before + Of(deferred)
    && (forall i :: 0 <= i < |deferred| ==> deferred[i] !in before)
    && (forall i, j :: 0 <= i < j < |deferred| ==> deferred[i] != deferred[j])
  }

  lemma NothingBorrowed(lent: set<Buffer>)
    ensures Borrowed(lent, lent, []) && Of([]) == {}
  {
  }

  class MailServer {
    const cache: TtlCache
    const tables: Tables
    const pool: Pool<Buffer>
    var outbox: seq<Email>

    ghost predicate Valid()
      reads this, cache, tables, pool
    {
      cache.Valid() && pool.Valid() && UniqueNames(tables.View())
    }

    ghost function State(): World
      reads this, cache, tables
    {
      World(cache.contents, tables.View(), outbox)
    }

    constructor ()
      ensures Valid() && State() == World(map[], EMPTY, [])
      ensures fresh(cache) && fresh(tables) && fresh(pool) && pool.lent == {}
    {
      cache := new TtlCache();
      tables := new Tables();
      pool := new Pool<Buffer>();
      outbox := [];
    }

    // ---------------------------------------------------------------- look-ups

    method SelectServed(name: string) returns (r: Option<int>)
      requires Valid()
      ensures r == ServedDomain(tables.domains, name)
    {
      if i :| i in tables.domains && Served(tables.domains[i], name) {
        assert forall j :: j in tables.domains && Served(tables.domains[j], name) ==>
          tables.View().domains[j].name == tables.View().domains[i].name;
        return Some(i);
      }
      return None;
    }

    method DetectDomain(email: string, now: int, fault: bool) returns (r: Option<Domain>)
      requires Valid()
      modifies cache
      ensures Valid()
      ensures Found(cache.contents, r) == Router.DetectDomain(old(cache.contents), tables.View(), now, email, fault)
    {
      var parts := Split(Lower(email), '@');
      if |parts| != 2 {
        return None;
      }
      var hit := cache.Get(DomainName, parts[1], now);
      if hit.Some? {
        return Some(hit.value.domain);
      }
      var nx := cache.Get(NxDomain, parts[1], now);
      if nx.Some? {
        return None;
      }
      var row := None;
      if !fault {
        row := SelectServed(parts[1]);
      }
      if row.None? {
        cache.Set(NxDomain, parts[1], Nothing, now);
        return None;
      }
      cache.Set(DomainName, parts[1], DomainV(tables.domains[row.value]), now);
      return Some(tables.domains[row.value]);
    }

    /** `rows` is what the alias query returns, when it comes to that. */
    method DetectAlias(m: Matcher, address: string, now: int, rows: seq<Alias>, fault: bool) returns (r: Option<Alias>)
      requires Valid()
      modifies cache
      ensures Valid()
      ensures Found(cache.contents, r) == Router.DetectAlias(m, old(cache.contents), now, address, rows, fault)
    {
      hide KeyOf, Label, UniqueNames, FirstMatch;
      var email := Lower(address);
      LowerIdempotent(address);
      var nxmatch := cache.Get(AliasNxMatch, email, now);
      if nxmatch.Some? {
        return None;
      }
      var hit := cache.Get(AliasMatch, email, now);
      if hit.Some? {
        return Some(hit.value.alias);
      }
      var parts := Split(email, '@');
      if |parts| != 2 {
        return None;
      }
      var nx := cache.Get(NxDomain, parts[1], now);
      if nx.Some? {
        return None;
      }
      var all := rows;
      var cached := cache.Get(Aliases, parts[1], now);
      if cached.Some? {
        all := cached.value.aliases;
      } else if fault {
        cache.Set(AliasNxDomain, parts[1], Nothing, now);
        return None;
      } else {
        cache.Set(AliasDomain, parts[1], AliasesV(all), now);
      }
      r := Match(m, email, parts[0], all, now);
    }

    /** The rows are tried in their order; a rule that does not compile is passed over. */
    method Match(m: Matcher, email: string, user: string, all: seq<Alias>, now: int) returns (r: Option<Alias>)
      requires Valid() && Lower(email) == email
      modifies cache
      ensures Valid()
      ensures Found(cache.contents, r) == MatchRows(m, old(cache.contents), now, email, user, all)
    {
      var k := 0;
      while k < |all|
        invariant 0 <= k <= |all|
        invariant FirstMatch(m, all, user) == FirstMatch(m, all[k..], user)
      {
        if m(all[k].rule, user) == Some(true) {
          cache.Set(AliasMatch, email, AliasV(all[k]), now);
          return Some(all[k]);
        }
        k := k + 1;
      }
      cache.Set(NxMatch, email, Nothing, now);
      return None;
    }

    method DetectReturnPath(to: string, now: int, selectFault: bool, updateFault: bool)
      returns (r: Option<(Uuid, string)>)
      requires Valid()
      modifies cache, tables`returnPaths
      ensures Valid()
      ensures Bounced(cache.contents, tables.View(), r) ==
              Router.DetectReturnPath(old(cache.contents), old(tables.View()), now, to, selectFault, updateFault)
    {
      var nx := cache.Get(NxReturnPath, to, now);
      if nx.Some? {
        return None;
      }
      var parts := Split(to, '@');
      if |parts| != 2 {
        return None;
      }
      parts := Split(parts[0], '=');
      if |parts| != 2 {
        return None;
      }
      var id := Parse(parts[1]);
      if id.None? || IsNil(id.value) {
        return None;
      }
      if selectFault || id.value !in tables.returnPaths {
        return None;
      }
      var replyTo := tables.returnPaths[id.value].returnTo;
      if |replyTo| == 0 {
        cache.Set(Nx, to, Nothing, now);
        return None;
      }
      if updateFault {
        return None;
      }
      tables.returnPaths := tables.returnPaths[id.value := tables.returnPaths[id.value].(returned := true)];
      return Some((id.value, replyTo));
    }

    method MakeReturnPath(s: RelaySession, fault: bool) returns (r: Option<string>)
      requires Valid()
      modifies tables`returnPaths
      ensures Valid()
      ensures Made(tables.View(), r) == Router.MakeReturnPath(old(tables.View()), s.View(), fault)
    {
      var parts := Split(Remove(s.to, '='), '@');
      if |parts| != 2 {
        return None;
      }
      var path := parts[0] + "=" + Print(s.id) + "@" + s.domain.name;
      if fault || s.id in tables.returnPaths || s.alias.id !in tables.aliases {
        return None;
      }
      tables.returnPaths := tables.returnPaths[s.id := ReturnPath(s.domain.account, s.alias.id, s.from, false)];
      return Some(path);
    }

    method GetRdns(ip: string, now: int, looked: Option<string>) returns (r: Option<string>)
      requires Valid()
      modifies cache
      ensures Valid()
      ensures Found(cache.contents, r) == Router.GetRdns(old(cache.contents), now, ip, looked)
    {
      var hit := cache.Get(Rdns, ip, now);
      if hit.Some? {
        return Some(hit.value.name);
      }
      if looked.None? {
        return None;
      }
      cache.Set(Rdns, ip, RdnsV(looked.value), now);
      return looked;
    }

    method GetDestinations(alias: int, now: int, rows: seq<Destination>, fault: bool)
      returns (r: Option<seq<Destination>>)
      requires Valid()
      modifies cache
      ensures Valid()
      ensures Found(cache.contents, r) == Router.GetDestinations(old(cache.contents), now, alias, rows, fault)
    {
      var hit := cache.Get(Destinations, Signed(alias), now);
      if hit.Some? {
        return Some(hit.value.destinations);
      }
      if fault {
        return None;
      }
      cache.Set(Destinations, Signed(alias), DestinationsV(rows), now);
      return Some(rows);
    }

    // ---------------------------------------------------------------- relaying

    /** Encodes into a pooled buffer, which goes back whether or not the broker accepts. */
    method QueueEmail(e: Email, accepted: bool) returns (ok: bool)
      requires Valid()
      modifies this`outbox, pool, pool.free
      ensures Valid()
      ensures ok == accepted && outbox == old(outbox) + if accepted then [e] else []
      ensures pool.lent == old(pool.lent) && old(pool.free) <= pool.free && fresh(pool.free - old(pool.free))
    {
      var made := new Buffer();
      var b := pool.Get(made);
      b.Reset();
      if accepted {
        outbox := outbox + [e];
      }
      pool.Put(b);
      return accepted;
    }

    /** Takes one more buffer, emptied, and defers its return. */
    method Borrow(ghost before: set<Buffer>, deferred: seq<Buffer>) returns (b: Buffer)
      requires Valid() && Borrowed(pool.lent, before, deferred)
      modifies pool, pool.free
      ensures Valid() && Borrowed(pool.lent, before, deferred + [b]) && b.data == "" && b !in pool.free
      ensures pool.free <= old(pool.free) && (b in old(pool.free) || fresh(b))
      ensures old(pool.free) + Of(deferred) <= pool.free + Of(deferred + [b])
    {
      var made := new Buffer();
      b := pool.Get(made);
      b.Reset();
      assert Of(deferred + [b]) == Of(deferred) + {b};
    }

    /** The two headers of this destination and then the complete message. */
    method Build(s: RelaySession, w: Wire, rdns: string, path: string, d: Destination, k: nat, message: Reader,
                 final: Buffer)
      requires message.Valid() && message.bytes == s.message && final.data == ""
      modifies message, final
      ensures message.Valid() && final.data == Final(w, rdns, s.View(), path, d, k)
    {
      hide ReceivedHeader, ReturnPathHeader;
      message.Rewind();
      assert message.bytes == s.message;
      final.WriteString(ReturnPathHeader(path));
      assert final.data == ReturnPathHeader(path);
      final.WriteString(ReceivedHeader(w, rdns, s.id, d.address, k));
      assert final.data == ReturnPathHeader(path) + ReceivedHeader(w, rdns, s.id, d.address, k);
      final.ReadFrom(message);
    }

    /** Two buffers: one with the message behind its headers, one for the signed copy. */
    method Prepare(s: RelaySession, w: Wire, rdns: string, path: string, d: Destination, k: nat, message: Reader,
                   ghost before: set<Buffer>, deferred: seq<Buffer>)
      returns (final: Buffer, signed: Buffer)
      requires Valid() && message.Valid() && message.bytes == s.message && Borrowed(pool.lent, before, deferred)
      modifies pool, pool.free, message
      ensures Valid() && message.Valid() && Borrowed(pool.lent, before, deferred + [final] + [signed])
      ensures final.data == Final(w, rdns, s.View(), path, d, k) && signed.data == ""
      ensures pool.free <= old(pool.free) && signed !in pool.free && (signed in old(pool.free) || fresh(signed))
      ensures old(pool.free) + Of(deferred) <= pool.free + Of(deferred + [final] + [signed])
    {
      hide Final, Of, MailServer.Valid;
      final := Borrow(before, deferred);
      hide Borrowed;
      Build(s, w, rdns, path, d, k, message, final);
      signed := Borrow(before, deferred + [final]);
      assert signed != final by { Distinct(pool.lent, before, deferred, final, signed); }
    }

    static lemma Distinct(lent: set<Buffer>, before: set<Buffer>, deferred: seq<Buffer>, a: Buffer, b: Buffer)
      requires Borrowed(lent, before, deferred + [a] + [b])
      ensures a != b
    {
      var all := deferred + [a] + [b];
      assert all[|deferred|] == a && all[|deferred| + 1] == b;
    }

    /** One turn of the loop: the message is rewound, built behind its own headers, signed and queued. */
    method Deliver(s: RelaySession, w: Wire, rdns: string, path: string, d: Destination, k: nat, message: Reader,
                   ghost before: set<Buffer>, deferred: seq<Buffer>)
      returns (ok: bool, taken: seq<Buffer>)
      requires Valid() && message.Valid() && message.bytes == s.message && Borrowed(pool.lent, before, deferred)
      modifies this`outbox, pool, pool.free, message
      ensures Valid() && message.Valid() && Borrowed(pool.lent, before, taken)
      ensures var signature := w.sign(k, Final(w, rdns, s.View(), path, d, k));
              && ok == (signature.Some? && w.publish(k))
              && outbox == old(outbox) + if ok then [EmailTo(s.View(), path, d, signature.value)] else []
      ensures forall b :: b in pool.free ==> b in old(pool.free) || fresh(b)
      ensures old(pool.free) + Of(deferred) <= pool.free + Of(taken)
    {
      hide Final, EmailTo, Borrowed, Of, MailServer.Valid;
      var final, signed := Prepare(s, w, rdns, path, d, k, message, before, deferred);
      taken := deferred + [final] + [signed];
      var signature := w.sign(k, final.data);
      if signature.None? {
        return false, taken;
      }
      signed.WriteString(signature.value);
      assert signed.data == signature.value;
      ok := QueueEmail(EmailTo(s.View(), path, d, signed.data), w.publish(k));
    }

    /** The loop over the destinations: it ends early at the first that cannot be signed or queued. */
    method FanOut(s: RelaySession, w: Wire, rdns: string, path: string, ds: seq<Destination>, message: Reader)
      returns (ok: bool, deferred: seq<Buffer>)
      requires Valid() && message.Valid() && message.bytes == s.message
      modifies this`outbox, pool, pool.free, message
      ensures Valid() && Borrowed(pool.lent, old(pool.lent), deferred)
      ensures outbox == old(outbox) + Queued(w, rdns, s.View(), path, ds, 0)
      ensures ok <==> |Queued(w, rdns, s.View(), path, ds, 0)| == |ds|
      ensures old(pool.free) <= pool.free + Of(deferred)
    {
      hide Final, EmailTo, Borrowed, Of, UniqueNames;
      var k := 0;
      deferred := [];
      NothingBorrowed(pool.lent);
      while k < |ds|
        invariant 0 <= k <= |ds| && Valid() && message.Valid()
        invariant Borrowed(pool.lent, old(pool.lent), deferred)
        invariant forall b :: b in pool.free ==> b in old(pool.free) || fresh(b)
        invariant old(pool.free) <= pool.free + Of(deferred)
        invariant |outbox| == |old(outbox)| + k
        invariant old(outbox) + Queued(w, rdns, s.View(), path, ds, 0) ==
            outbox + Queued(w, rdns, s.View(), path, ds, k)
      {
        ok, deferred := Deliver(s, w, rdns, path, ds[k], k, message, old(pool.lent), deferred);
        if !ok {
          return;
        }
        k := k + 1;
      }
      ok := true;
    }

    method Relay(s: RelaySession, now: int, e: RelayEnv, consumed: nat) returns (ok: bool)
      requires Valid()
      modifies this`outbox, cache, tables`returnPaths, pool, pool.free, s`from
      ensures Valid() && Done(State(), s.View(), ok) == Sessions.Relay(old(State()), now, old(s.View()), e)
      ensures pool.lent == old(pool.lent) && old(pool.free) <= pool.free
    {
      hide Sessions.RelayOn, Router.MakeReturnPath, Router.GetRdns, UniqueNames;
      if !e.tcp {
        return false;
      }
      var rdns := GetRdns(e.wire.ip, now, e.rdns);
      if rdns.None? {
        return false;
      }
      var path := MakeReturnPath(s, e.insertFault);
      if path.None? {
        return false;
      }
      ok := RelayOn(s, now, e, consumed, rdns.value, path.value);
    }

    /** Buffers taken for the destinations go back on every way out. */
    method RelayOn(s: RelaySession, now: int, e: RelayEnv, consumed: nat, rdns: string, path: string) returns (ok: bool)
      requires Valid()
      modifies this`outbox, cache, pool, pool.free, s`from
      ensures Valid() && Done(State(), s.View(), ok) ==
          Sessions.RelayOn(old(State()), now, old(s.View()), e, rdns, path)
      ensures pool.lent == old(pool.lent) && old(pool.free) <= pool.free
    {
      hide Queued, Router.GetDestinations, UniqueNames;
      var destinations := GetDestinations(s.alias.id, now, e.rows, e.destinationFault);
      if destinations.None? || |destinations.value| == 0 {
        return false;
      }
      var message := new Reader(s.message);
      message.Consume(consumed);
      if e.header.None? {
        return false;
      }
      s.from := e.header.value;
      var deferred;
      ok, deferred := FanOut(s, e.wire, rdns, path, destinations.value, message);
      pool.PutAll(deferred);
    }
  }

  /** `SessionData` of an inbound session. */
  class RelaySession {
    var id: Uuid
    var from: string
    var via: string
    var to: string
    var message: string
    var domain: Domain
    var alias: Alias
    var returnPath: bool

    const server: MailServer

    function View(): Session
      reads this
    {
      Session(id, from, via, to, message, domain, alias, returnPath)
    }

    constructor (s: MailServer, u: Uuid)
      ensures server == s && View() == NewSession(u)
    {
      server := s;
      id, from, via, to, message, domain, alias, returnPath := u, "", "", "", "", NO_DOMAIN, NO_ALIAS, false;
    }

    method Mail(sender: string, tcp: bool, spfFail: bool) returns (ok: bool)
      modifies this`from
      ensures (View(), ok) == Sessions.Mail(old(View()), sender, tcp, spfFail)
    {
      if !tcp || spfFail {
        return false;
      }
      from := sender;
      return true;
    }

    method Rcpt(m: Matcher, recipient: string, now: int, e: RcptEnv) returns (ok: bool)
      requires server.Valid()
      modifies this, server.cache, server.tables`returnPaths
      ensures server.Valid()
      ensures Done(server.State(), View(), ok) == Sessions.Rcpt(m, old(server.State()), now, old(View()), recipient, e)
    {
      hide Router.DetectDomain, Sessions.RcptAlias, Router.DetectReturnPath, Typed, TtlCache.Valid, UniqueNames;
      var detected := server.DetectDomain(recipient, now, e.domainFault);
      if detected.None? {
        return false;
      }
      var bounced := server.DetectReturnPath(recipient, now, e.selectFault, e.updateFault);
      if bounced.Some? {
        TakeBounce(recipient, bounced.value, detected.value);
        return true;
      }
      ok := RcptAlias(m, recipient, now, e, detected.value);
    }

    method TakeBounce(recipient: string, bounced: (Uuid, string), detected: Domain)
      modifies this`via, this`returnPath, this`id, this`domain, this`to
      ensures View() == old(View()).(via := recipient, returnPath := true, id := bounced.0, domain := detected,
                                     to := bounced.1)
    {
      via := recipient;
      returnPath := true;
      id := bounced.0;
      domain := detected;
      to := bounced.1;
    }

    /** The recipient is no return path. */
    method RcptAlias(m: Matcher, recipient: string, now: int, e: RcptEnv, detected: Domain) returns (ok: bool)
      requires server.Valid()
      modifies this, server.cache
      ensures server.Valid()
      ensures Done(server.State(), View(), ok) ==
              Sessions.RcptAlias(m, old(server.State()), now, old(View()), recipient, e, detected)
    {
      hide Router.DetectAlias, UniqueNames;
      var found := server.DetectAlias(m, recipient, now, e.rows, e.aliasFault);
      if found.None? {
        return false;
      }
      alias := found.value;
      domain := detected;
      to := recipient;
      return true;
    }

    /** `consumed`: how far the reader of the From header went into the message. */
    method Data(now: int, e: DataEnv, consumed: nat) returns (ok: bool)
      requires server.Valid()
      modifies this`message, this`from, server`outbox, server.cache, server.tables`returnPaths, server.pool,
          server.pool.free
      ensures server.Valid()
      ensures Done(server.State(), View(), ok) == Sessions.Data(old(server.State()), now, old(View()), e)
      ensures server.pool.lent == old(server.pool.lent) && old(server.pool.free) <= server.pool.free
    {
      hide Sessions.Relay, UniqueNames;
      message := message + e.body;
      if e.readFails || e.spamFails || e.spam {
        return false;
      }
      if returnPath {
        ok := server.QueueEmail(
          Email(id, "", from, via, to, message, domain.account, domain.id, alias.id, 0, "Returned"), e.publish);
      } else {
        ok := server.Relay(this, now, e.relay, consumed);
      }
    }

    method Reset()
      modifies this
      ensures View() == Sessions.Reset(old(View()))
    {
      from := "";
      to := "";
      message := "";
      alias := NO_ALIAS;
      domain := NO_DOMAIN;
      returnPath := false;
    }

    method Logout()
      modifies this
      ensures View() == if old(from) != "" then Sessions.Reset(old(View())) else old(View())
    {
      if |from| > 0 {
        Reset();
      }
    }
  }
}
