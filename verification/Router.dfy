/** The mail router's calls as functions of the cache, the database, the clock and the session.
    What the outside world decides (query faults, row order, verdicts, signatures) is input. */
module Router {
  import opened Text
  import opened Uuid
  import opened Schema
  import opened Cache

  /** Whether a rule compiles and, if so, matches a local part: any regular-expression engine. */
  type Matcher = (string, string) -> Option<bool>

  // ---------------------------------------------------------------- domains

  ghost function ServedDomain(t: map<int, Domain>, name: string): (r: Option<int>)
    ensures r.Some? ==> r.value in t && Served(t[r.value], name)
    ensures r.None? ==> forall i :: i in t ==> !Served(t[i], name)
  {
    if i :| i in t && Served(t[i], name) then Some(i) else None
  }

  /** The part of an address behind its '@', as the lookups see it. */
  function DomainOf(email: string): Option<string> {
    var parts := Split(Lower(email), '@');
    if |parts| != 2 then None else Some(parts[1])
  }

  function UserOf(email: string): Option<string> {
    var parts := Split(Lower(email), '@');
    if |parts| != 2 then None else Some(parts[0])
  }

  datatype Found<T> = Found(c: Contents, answer: Option<T>)

  ghost function DetectDomain(c: Contents, db: Db, now: int, email: string, fault: bool): Found<Domain>
    requires Typed(c)
  {
    var name := DomainOf(email);
    if name.None? then Found(c, None)
    else
      var hit := Lookup(c, Slot(DomainName, name.value), now);
      if hit.Some? then Found(c, Some(hit.value.domain))
      else if Lookup(c, Slot(NxDomain, name.value), now).Some? then Found(c, None)
      else
        var row := if fault then None else ServedDomain(db.domains, name.value);
        if row.None? then Found(Put(c, Slot(NxDomain, name.value), Nothing, now), None)
        else Found(Put(c, Slot(DomainName, name.value), DomainV(db.domains[row.value]), now),
                   Some(db.domains[row.value]))
  }

  // ---------------------------------------------------------------- aliases

  ghost predicate Selected(db: Db, name: string, a: Alias) {
    a.live && a.domain in db.domains && Served(db.domains[a.domain], name)
  }

  /** `rows` is an answer to the alias query: the aliases of the served domain, longest rule first. */
  ghost predicate AliasRows(db: Db, name: string, rows: seq<Alias>) {
    && (forall i :: 0 <= i < |rows| ==>
          rows[i].id in db.aliases && db.aliases[rows[i].id] == rows[i] && Selected(db, name, rows[i]))
    && (forall a :: a in db.aliases && Selected(db, name, db.aliases[a]) ==> db.aliases[a] in rows)
    && (forall i, j :: 0 <= i < j < |rows| ==> |rows[i].rule| >= |rows[j].rule|)
  }

  predicate Fires(m: Matcher, a: Alias, user: string) {
    m(a.rule, user) == Some(true)
  }

  function FirstMatch(m: Matcher, rows: seq<Alias>, user: string): Option<Alias> {
    if rows == [] then None
    else if Fires(m, rows[0], user) then Some(rows[0])
    else FirstMatch(m, rows[1..], user)
  }

  ghost predicate Candidate(m: Matcher, db: Db, name: string, user: string, a: Alias) {
    a.id in db.aliases && db.aliases[a.id] == a && Selected(db, name, a) && Fires(m, a, user)
  }

  /** What the search without any cache may answer on a database: the alias with the longest
      rule among the live, compilable, matching ones of a served domain; none if there is none. */
  ghost predicate Answers(m: Matcher, db: Db, email: string, answer: Option<Alias>) {
    if DomainOf(email).None? then answer.None?
    else AnswersIn(m, db, DomainOf(email).value, UserOf(email).value, answer)
  }

  ghost predicate AnswersIn(m: Matcher, db: Db, name: string, user: string, answer: Option<Alias>) {
    if answer.None? then forall a :: a in db.aliases.Values ==> !Candidate(m, db, name, user, a)
    else
      && Candidate(m, db, name, user, answer.value)
      && forall a | a in db.aliases.Values && Candidate(m, db, name, user, a) :: |a.rule| <= |answer.value.rule|
  }

  /** Row by row: a live alias on a live and verified domain of the address's name, whose rule matches
      the address's local part; and no other such alias has a longer rule. */
  ghost predicate Eligible(m: Matcher, db: Db, email: string, a: Alias) {
    var parts := Split(Lower(email), '@');
    && |parts| == 2 && m(a.rule, parts[0]) == Some(true)
    && a.id in db.aliases && db.aliases[a.id] == a && a.live
    && a.domain in db.domains
    && var d := db.domains[a.domain];
       d.live && d.verified && d.name == parts[1]
  }

  lemma AnswersMean(m: Matcher, db: Db, email: string, answer: Option<Alias>)
    ensures Answers(m, db, email, answer) <==>
            if answer.None? then forall a :: a in db.aliases.Values ==> !Eligible(m, db, email, a)
            else
              && Eligible(m, db, email, answer.value)
              && forall a | a in db.aliases.Values && Eligible(m, db, email, a) :: |a.rule| <= |answer.value.rule|
  {
    if DomainOf(email).Some? {
      var name, user := DomainOf(email).value, UserOf(email).value;
      assert forall a: Alias :: Candidate(m, db, name, user, a) <==> Eligible(m, db, email, a);
    }
  }

  lemma {:induction false} FirstMatchIsFirst(m: Matcher, rows: seq<Alias>, user: string)
    ensures FirstMatch(m, rows, user).None? ==> forall i :: 0 <= i < |rows| ==> !Fires(m, rows[i], user)
    ensures FirstMatch(m, rows, user).Some? ==>
              exists i :: 0 <= i < |rows| && IsFirst(m, rows, user, i) && rows[i] == FirstMatch(m, rows, user).value
  {
    if rows == [] {
    } else if Fires(m, rows[0], user) {
      assert IsFirst(m, rows, user, 0);
    } else {
      FirstMatchIsFirst(m, rows[1..], user);
      assert forall j :: 0 < j < |rows| ==> rows[j] == rows[1..][j - 1];
      if FirstMatch(m, rows, user).Some? {
        var i :| 0 <= i < |rows[1..]| && IsFirst(m, rows[1..], user, i) &&
            rows[1..][i] == FirstMatch(m, rows[1..], user).value;
        assert IsFirst(m, rows, user, i + 1);
      }
    }
  }

  predicate IsFirst(m: Matcher, rows: seq<Alias>, user: string, i: nat)
    requires i < |rows|
  {
    Fires(m, rows[i], user) && forall j :: 0 <= j < i ==> !Fires(m, rows[j], user)
  }

  /** Longest rule first and first match: together they are the specified search. */
  lemma SearchAnswers(m: Matcher, db: Db, email: string, rows: seq<Alias>)
    requires DomainOf(email).Some? && AliasRows(db, DomainOf(email).value, rows)
    ensures Answers(m, db, email, FirstMatch(m, rows, UserOf(email).value))
  {
    var name, user := DomainOf(email).value, UserOf(email).value;
    FirstMatchIsFirst(m, rows, user);
    if FirstMatch(m, rows, user).Some? {
      var i :| 0 <= i < |rows| && IsFirst(m, rows, user, i) && rows[i] == FirstMatch(m, rows, user).value;
      forall a | a in db.aliases.Values && Candidate(m, db, name, user, a)
        ensures |a.rule| <= |rows[i].rule|
      {
        var j :| 0 <= j < |rows| && rows[j] == a;
        assert i <= j;
      }
    }
  }

  /** The loop over the rows, and what it leaves in the cache. */
  function MatchRows(m: Matcher, c: Contents, now: int, email: string, user: string, rows: seq<Alias>): Found<Alias> {
    MatchDone(c, now, email, FirstMatch(m, rows, user))
  }

  function MatchDone(c: Contents, now: int, email: string, r: Option<Alias>): Found<Alias> {
    if r.Some? then Found(Put(c, Slot(AliasMatch, Lower(email)), AliasV(r.value), now), r)
    else Found(Put(c, Slot(NxMatch, Lower(email)), Nothing, now), None)
  }

  /** The namespaces that are read first are never written, so those reads miss. */
  function DetectAlias(m: Matcher, c: Contents, now: int, email: string, rows: seq<Alias>, fault: bool): Found<Alias>
    requires Typed(c)
  {
    if Lookup(c, Slot(AliasNxMatch, Lower(email)), now).Some? then Found(c, None)
    else if Lookup(c, Slot(AliasMatch, Lower(email)), now).Some?
    then Found(c, Some(Lookup(c, Slot(AliasMatch, Lower(email)), now).value.alias))
    else if DomainOf(email).None? then Found(c, None)
    else DetectIn(m, c, now, email, DomainOf(email).value, UserOf(email).value, rows, fault)
  }

  function DetectIn(m: Matcher, c: Contents, now: int, email: string, name: string, user: string, rows: seq<Alias>,
                    fault: bool): Found<Alias>
    requires Typed(c)
  {
    if Lookup(c, Slot(NxDomain, name), now).Some? then Found(c, None)
    else if Lookup(c, Slot(Aliases, name), now).Some?
    then MatchRows(m, c, now, email, user, Lookup(c, Slot(Aliases, name), now).value.aliases)
    else if fault then Found(Put(c, Slot(AliasNxDomain, name), Nothing, now), None)
    else MatchRows(m, Put(c, Slot(AliasDomain, name), AliasesV(rows), now), now, email, user, rows)
  }

  // ---------------------------------------------------------------- return paths

  datatype Bounced = Bounced(c: Contents, db: Db, answer: Option<(Uuid, string)>)

  /** The id that a return path carries: the text between the one '=' and the one '@'. */
  function ReturnId(to: string): Option<Uuid> {
    var parts := Split(to, '@');
    if |parts| != 2 then None
    else if |Split(parts[0], '=')| != 2 then None
    else NonNil(Parse(Split(parts[0], '=')[1]))
  }

  function NonNil(id: Option<Uuid>): Option<Uuid> {
    if id.Some? && IsNil(id.value) then None else id
  }

  ghost function DetectReturnPath(c: Contents, db: Db, now: int, to: string, selectFault: bool,
                                  updateFault: bool): Bounced {
    var id := ReturnId(to);
    if Lookup(c, Slot(NxReturnPath, to), now).Some? || id.None? then Bounced(c, db, None)
    else if selectFault || id.value !in db.returnPaths then Bounced(c, db, None)
    else
      var row := db.returnPaths[id.value];
      if row.returnTo == "" then Bounced(Put(c, Slot(Nx, to), Nothing, now), db, None)
      else if updateFault then Bounced(c, db, None)
      else Bounced(c, db.(returnPaths := db.returnPaths[id.value := row.(returned := true)]),
                   Some((id.value, row.returnTo)))
  }

  function ReturnPathText(to: string, id: Uuid, domain: string): Option<string> {
    var parts := Split(Remove(to, '='), '@');
    if |parts| != 2 then None else Some(parts[0] + "=" + Print(id) + "@" + domain)
  }

  /** The return path printed for a recipient is read back as the id it was printed for. */
  lemma ReturnPathRoundTrip(to: string, id: Uuid, domain: string)
    requires ReturnPathText(to, id, domain).Some? && !IsNil(id) && '@' !in domain
    ensures ReturnId(ReturnPathText(to, id, domain).value) == Some(id)
    ensures Split(Lower(ReturnPathText(to, id, domain).value), '@')[1..] == [Lower(domain)]
  {
    hide Split, Remove, Print, Lower, ReturnId;
    var local := Split(Remove(to, '='), '@')[0];
    PlainPart(to);
    PathParts(local, id, domain);
    assert ReturnPathText(to, id, domain).value == (local + "=" + Print(id)) + "@" + domain;
  }

  /** The local part that a return path is printed from holds neither separator. */
  lemma PlainPart(to: string)
    requires |Split(Remove(to, '='), '@')| == 2
    ensures '=' !in Split(Remove(to, '='), '@')[0] && '@' !in Split(Remove(to, '='), '@')[0]
  {
    var plain := Remove(to, '=');
    SplitTwo(plain, '@');
    assert forall x :: x in Split(plain, '@')[0] ==> x in plain;
  }

  lemma PathParts(local: string, id: Uuid, domain: string)
    requires '=' !in local && '@' !in local && !IsNil(id) && '@' !in domain
    ensures var text := (local + "=" + Print(id)) + "@" + domain;
            ReturnId(text) == Some(id) && Split(Lower(text), '@')[1..] == [Lower(domain)]
  {
    hide Split, Print, Lower;
    PrintedCharacters(id);
    RoundTrip(id);
    var head := local + "=" + Print(id);
    assert head == local + ['='] + Print(id);
    assert head + "@" + domain == head + ['@'] + domain;
    SplitJoinTwo(head, '@', domain);
    SplitJoinTwo(local, '=', Print(id));
    LowerKeepsAt(head);
    LowerKeepsAt(domain);
    LowerConcat(head, ['@']);
    LowerConcat(head + ['@'], domain);
    LowerOfAt();
    SplitJoinTwo(Lower(head), '@', Lower(domain));
  }

  lemma LowerOfAt()
    ensures Lower(['@']) == ['@']
  {
  }

  lemma LowerKeepsAt(s: string)
    requires '@' !in s
    ensures '@' !in Lower(s)
  {
    forall i | 0 <= i < |s|
      ensures LowerChar(s[i]) != '@'
    {
      assert s[i] in s;
    }
  }

  datatype Session = Session(
    id: Uuid, from: string, via: string, to: string, message: string,
    domain: Domain, alias: Alias, returnPath: bool)

  function NewSession(id: Uuid): Session {
    Session(id, "", "", "", "", NO_DOMAIN, NO_ALIAS, false)
  }

  datatype Made = Made(db: Db, answer: Option<string>)

  function MakeReturnPath(db: Db, s: Session, fault: bool): Made {
    var text := ReturnPathText(s.to, s.id, s.domain.name);
    if text.None? then Made(db, None)
    else if fault || s.id in db.returnPaths || s.alias.id !in db.aliases then Made(db, None)
    else Made(db.(returnPaths := db.returnPaths[s.id := ReturnPath(s.domain.account, s.alias.id, s.from, false)]), text)
  }

  // ---------------------------------------------------------------- destinations

  ghost predicate Linked(db: Db, alias: int, d: int) {
    (alias, d) in db.links && db.links[(alias, d)].live && d in db.destinations && db.destinations[d].live
  }

  ghost predicate DestinationRows(db: Db, alias: int, rows: seq<Destination>) {
    && (forall i :: 0 <= i < |rows| ==> Linked(db, alias, rows[i].id) && db.destinations[rows[i].id] == rows[i])
    && (forall d :: Linked(db, alias, d) ==> db.destinations[d] in rows)
    && (forall i, j :: 0 <= i < j < |rows| ==> rows[i].id != rows[j].id)
  }

  function DestinationSlot(alias: int): Slot {
    Slot(Destinations, Signed(alias))
  }

  function GetDestinations(c: Contents, now: int, alias: int, rows: seq<Destination>,
                           fault: bool): Found<seq<Destination>>
    requires Typed(c)
  {
    var hit := Lookup(c, DestinationSlot(alias), now);
    if hit.Some? then Found(c, Some(hit.value.destinations))
    else if fault then Found(c, None)
    else Found(Put(c, DestinationSlot(alias), DestinationsV(rows), now), Some(rows))
  }

  // ---------------------------------------------------------------- asking again

  /** Until its entry expires, a domain that was asked for is not asked for again: the answer, or that
      there is none, stays what it was, whatever has become of the tables since. */
  lemma DomainRepeats(c: Contents, db: Db, now: int, email: string, fault: bool, later: Db, after: int, faultThen: bool)
    requires Typed(c) && DomainOf(email).Some? && now <= after <= now + TTL
    requires Lookup(c, Slot(DomainName, DomainOf(email).value), now).None?
    requires Lookup(c, Slot(NxDomain, DomainOf(email).value), now).None?
    ensures var r := DetectDomain(c, db, now, email, fault);
            Typed(r.c) && DetectDomain(r.c, later, after, email, faultThen) == r
  {
  }

  /** The same for the alias that was found for an address. */
  lemma AliasRepeats(m: Matcher, c: Contents, now: int, email: string, rows: seq<Alias>, fault: bool, after: int,
                     rowsThen: seq<Alias>, faultThen: bool)
    requires Typed(c) && now <= after <= now + TTL
    requires Lookup(c, Slot(AliasMatch, Lower(email)), now).None? && Slot(AliasNxMatch, Lower(email)) !in c
    ensures var r := DetectAlias(m, c, now, email, rows, fault);
            r.answer.Some? ==> Typed(r.c) && DetectAlias(m, r.c, after, email, rowsThen, faultThen) == r
  {
    hide FirstMatch, Split;
  }

  /** For destinations. */
  lemma DestinationsRepeat(c: Contents, now: int, alias: int, rows: seq<Destination>, fault: bool, after: int,
                           rowsThen: seq<Destination>, faultThen: bool)
    requires Typed(c) && now <= after <= now + TTL && Lookup(c, DestinationSlot(alias), now).None?
    ensures var r := GetDestinations(c, now, alias, rows, fault);
            r.answer.Some? ==> Typed(r.c) && GetDestinations(r.c, after, alias, rowsThen, faultThen) == r
  {
  }

  /** And for a reverse name. */
  lemma RdnsRepeats(c: Contents, now: int, ip: string, looked: Option<string>, after: int, lookedThen: Option<string>)
    requires Typed(c) && now <= after <= now + TTL && Lookup(c, Slot(Rdns, ip), now).None?
    ensures var r := GetRdns(c, now, ip, looked);
            r.answer.Some? ==> Typed(r.c) && GetRdns(r.c, after, ip, lookedThen) == r
  {
  }

  // ---------------------------------------------------------------- reverse names

  function GetRdns(c: Contents, now: int, ip: string, looked: Option<string>): Found<string>
    requires Typed(c)
  {
    var hit := Lookup(c, Slot(Rdns, ip), now);
    if hit.Some? then Found(c, Some(hit.value.name))
    else if looked.None? then Found(c, None)
    else Found(Put(c, Slot(Rdns, ip), RdnsV(looked.value), now), looked)
  }
}
