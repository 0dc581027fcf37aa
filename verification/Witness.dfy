/** Two runs from nothing: a domain, a destination and an alias for everything are set up, and one
    session stores a return path. In the first run another session gives that path and then an alias
    of the same domain as the recipients of one transaction, and the bounce does not come back. In
    the second the session resets and sends again, and nothing is relayed. */
module Witness {
  import opened Text
  import opened Uuid
  import opened Schema
  import opened Store
  import opened Panel
  import opened Cache
  import opened Router
  import opened Sessions
  import opened Runs
  import opened Staleness
  import opened Bounces
  import Rule

  function Id(n: Nibble): (u: Uuid)
    ensures n != 0 ==> !IsNil(u)
    ensures u[0] == n
  {
    var u := seq(32, i requires 0 <= i < 32 => n);
    assert u[0] == n;
    u
  }

  // ---------------------------------------------------------------- the tables

  const NEW: NewDomain := NewDomain(1, 1, [1, 2, 3, 4, 5], "")
  const UNUSED: NewDomain := NewDomain(2, 2, [6, 7, 8, 9, 10], "")
  const PLAIN: Domain := Domain(1, 1, "a", "c", false, true)
  const PROVEN: Domain := Domain(1, 1, "a", "c", true, true)
  const TARGET: Destination := Destination(1, 1, "d", true)
  const RULE: Alias := Alias(1, 1, 1, ".*", true)

  function Records(): map<int, Record> {
    NewRecords(1, 1, Wanted(""), [1, 2, 3, 4, 5])
  }

  function Checked(): map<int, Record> {
    map r | r in Records() :: Records()[r].(lastVerified := Some(0))
  }

  function Opened(): Db {
    Db(map[1 := PLAIN], map[], map[], map[], map[1 := Key(1, 1, "", true)], Records(), map[])
  }

  function Verified(): Db {
    Opened().(domains := map[1 := PROVEN])
  }

  function Targeted(): Db {
    Verified().(destinations := map[1 := TARGET])
  }

  function Complete(): Db {
    Targeted().(records := Checked())
  }

  function Routed(): Db {
    Complete().(aliases := map[1 := RULE], links := map[(1, 1) := Link(1, true)])
  }

  // ---------------------------------------------------------------- setting up

  const OPEN: Panel.Request := Dashboard("a", "c", NEW, "", false, 1)
  const VERIFY: Panel.Request := ViewDomain(PageRequest("a", true, {}, None))
  const AIM: Panel.Request := Dashboard("", "", UNUSED, "d", true, 1)
  const CHECK: Panel.Request := ViewDomain(PageRequest("a", false, {1, 2, 3, 4, 5}, None))
  const ROUTE: Panel.Request := ViewDomain(PageRequest("a", false, {}, Some(AliasForm(".*", true, Some(1), 1))))

  lemma RecordsAre()
    ensures Records().Keys == {1, 2, 3, 4, 5} == Checked().Keys
    ensures forall r :: r in Records() ==>
              Records()[r].account == 1 && Records()[r].domain == 1 && Records()[r].live &&
                  Records()[r].lastVerified == None
  {
    hide Wanted;
  }

  lemma Opens()
    ensures Possible(EMPTY, OPEN) && Handle(EMPTY, 1, Subscription, OPEN, 0) == Opened()
  {
    hide Wanted;
    assert DeletedNamesakes(EMPTY, 1, "a") == {};
    assert map[] + Records() == Records();
  }

  lemma OnlyDomain(t: map<int, Domain>, name: string)
    requires t.Keys == {1} && t[1].name == name
    ensures FindDomain(t, name) == Some(1)
  {
  }

  lemma Verifies()
    ensures Possible(Opened(), VERIFY) && Handle(Opened(), 1, Subscription, VERIFY, 0) == Verified()
  {
    hide Records;
    OnlyDomain(Opened().domains, "a");
  }

  lemma UnusedFits()
    ensures FreshFor(Verified(), UNUSED) && 1 !in Verified().destinations
  {
    RecordsAre();
    hide Records;
  }

  lemma TargetAdded()
    ensures 1 !in Verified().destinations && CreateDestination(Verified(), 1, "d", 1) == Targeted()
  {
    hide Records, Checked;
  }

  lemma Aims()
    ensures Possible(Verified(), AIM) && Handle(Verified(), 1, Subscription, AIM, 0) == Targeted()
  {
    hide Records, Checked, CreateDestination, FreshFor, CreateDomain, Verified, Targeted;
    UnusedFits();
    TargetAdded();
    assert Lower("d") == "d";
  }

  lemma SeenAre(db: Db)
    requires db == Targeted() || db == Complete()
    ensures SeenRecords(db, 1, 1) == {1, 2, 3, 4, 5}
  {
    RecordsAre();
    hide Records;
    assert forall r :: r in db.records <==> r in {1, 2, 3, 4, 5};
  }

  const ALL: set<int> := {1, 2, 3, 4, 5}

  lemma Five()
    ensures |ALL| == 5
  {
    assert |{1, 2, 3, 4, 5}| == 5;
  }

  lemma FirstCheck()
    ensures RecheckRecords(Targeted(), ALL, 0, ALL) == Complete()
  {
    RecordsAre();
    hide Records;
    assert RecheckRecords(Targeted(), ALL, 0, ALL).records == Checked();
  }

  lemma Checks()
    ensures Possible(Targeted(), CHECK) && Handle(Targeted(), 1, Subscription, CHECK, 0) == Complete()
  {
    OnlyDomain(Targeted().domains, "a");
    SeenAre(Targeted());
    Five();
    FirstCheck();
    RecordsAre();
    hide Records, SeenRecords, AllComplete, RecheckRecords, Complete, AliasStep, FindDomain;
    assert DomainPage(Targeted(), 1, true, CHECK.q, 0) == Ok(Complete());
  }

  lemma SecondCheck()
    ensures ALL <= Complete().records.Keys
    ensures RecheckRecords(Complete(), ALL, 0, {}) == Complete() && AllComplete(Complete(), ALL, 0, {})
  {
    RecordsAre();
    hide Records;
    assert RecheckRecords(Complete(), ALL, 0, {}).records == Checked();
  }

  lemma AliasAdded()
    ensures AliasStep(Complete(), 1, true, 1, AliasForm(".*", true, Some(1), 1)) == Ok(Routed())
  {
    hide Records, Checked;
  }

  lemma Routes()
    ensures Possible(Complete(), ROUTE) && Handle(Complete(), 1, Subscription, ROUTE, 0) == Routed()
  {
    OnlyDomain(Complete().domains, "a");
    SeenAre(Complete());
    Five();
    SecondCheck();
    AliasAdded();
    hide Records, Checked, SeenRecords, AllComplete, RecheckRecords, Routed, AliasStep, FindDomain;
    assert DomainPage(Complete(), 1, true, ROUTE.q, 0) == Ok(Routed());
  }

  // ---------------------------------------------------------------- the lookups

  lemma RuleRows(db: Db)
    requires db == Routed().(returnPaths := db.returnPaths)
    ensures AliasRows(db, "a", [RULE])
  {
    hide Records, Checked;
  }

  lemma TargetRows(db: Db)
    requires db == Routed().(returnPaths := db.returnPaths)
    ensures DestinationRows(db, 1, [TARGET])
  {
    hide Records, Checked;
    assert forall d :: Linked(db, 1, d) <==> d == 1;
  }

  /** "x@a" and "y@a" name the domain and are no return paths. */
  lemma PlainAddress(c: char)
    requires c == 'x' || c == 'y'
    ensures DomainOf([c] + "@a") == Some("a") && UserOf([c] + "@a") == Some([c]) && ReturnId([c] + "@a") == None
    ensures Remove([c] + "@a", '=') == [c] + "@a"
  {
    var s := [c] + "@a";
    assert s == [c] + ['@'] + "a" && Lower(s) == s;
    SplitJoinTwo([c], '@', "a");
    SplitNone([c], '=');
    assert s[1..] == "@a" && s[1..][1..] == "a" && s[1..][1..][1..] == "";
    assert Remove("a", '=') == ['a'] + Remove("", '=');
    assert Remove("@a", '=') == ['@'] + Remove("a", '=');
  }

  // ---------------------------------------------------------------- the steps

  const LATER: int := TTL + 1

  lemma Requests(s: System, r: Panel.Request, b: Db)
    requires Possible(s.world.db, r) && Handle(s.world.db, 1, Subscription, r, s.now) == b
    ensures Next(Rule.Verdict, s, Request(1, Subscription, r), s.(world := s.world.(db := b)))
  {
  }

  function Cleared(s: System): System {
    s.(world := s.world.(c := map[]))
  }

  lemma Evicts(s: System)
    ensures Next(Rule.Verdict, s, Evict(s.world.c.Keys), Cleared(s))
  {
    assert s.world.c - s.world.c.Keys == map[];
  }

  const LOOKUP: RcptEnv := RcptEnv(false, false, false, false, [RULE])

  predicate OnRoutes(s: System) {
    s.world == World(map[], Routed().(returnPaths := s.world.db.returnPaths), [])
  }

  /** RCPT by way of the domain "a". */
  lemma NextRcpt(s: System, sid: int, to: string)
    requires OnRoutes(s) && sid in s.sessions && DomainOf(to) == Some("a")
    ensures Next(Rule.Verdict, s, RcptTo(sid, to, LOOKUP),
                 After(s, sid, Rcpt(Rule.Verdict, s.world, s.now, s.sessions[sid], to, LOOKUP)))
  {
    RuleRows(s.world.db);
    hide Routed, DomainOf, AliasRows, Rcpt;
  }

  lemma NextData(s: System, sid: int, e: DataEnv)
    requires OnRoutes(s) && sid in s.sessions && s.sessions[sid].alias == RULE && e.relay.rows == [TARGET]
    ensures Next(Rule.Verdict, s, SendData(sid, e), After(s, sid, Data(s.world, s.now, s.sessions[sid], e)))
  {
    hide Routed, DestinationRows, Data;
    TargetRows(s.world.db);
  }

  /** The domain is found in the tables when the cache is empty. */
  lemma Finds(db: Db, now: int, to: string)
    requires db.domains == map[1 := PROVEN] && DomainOf(to) == Some("a")
    ensures DetectDomain(map[], db, now, to, false) ==
            Found(Put(map[], Slot(DomainName, "a"), DomainV(PROVEN), now), Some(PROVEN))
  {
    assert Served(db.domains[1], "a");
    assert ServedDomain(db.domains, "a") == Some(1);
  }

  predicate PlainUser(to: string) {
    UserOf(to).Some? && '\n' !in UserOf(to).value
  }

  lemma RuleFound(c: Contents, now: int, to: string)
    requires Typed(c) && c.Keys == {Slot(DomainName, "a")} && DomainOf(to) == Some("a") && PlainUser(to)
    ensures DetectAlias(Rule.Verdict, c, now, to, [RULE], false).answer == Some(RULE)
  {
    hide Rule.Verdict;
    Rule.CatchAll(UserOf(to).value);
    assert FirstMatch(Rule.Verdict, [RULE], UserOf(to).value) == Some(RULE);
  }

  lemma AliasTaken(db: Db, now: int, s: Session, to: string)
    requires db.domains == map[1 := PROVEN] && DomainOf(to) == Some("a") && ReturnId(to) == None && PlainUser(to)
    ensures var r := Rcpt(Rule.Verdict, World(map[], db, []), now, s, to, LOOKUP);
            r == Done(World(r.world.c, db, []), s.(alias := RULE, domain := PROVEN, to := to), true)
  {
    hide DetectDomain, DetectAlias, DomainOf, ReturnId, PlainUser;
    Finds(db, now, to);
    RuleFound(Put(map[], Slot(DomainName, "a"), DomainV(PROVEN), now), now, to);
  }

  lemma PathTaken(db: Db, now: int, s: Session, to: string)
    requires db.domains == map[1 := PROVEN] && DomainOf(to) == Some("a") && ReturnId(to) == Some(Id(1))
    requires db.returnPaths == map[Id(1) := ReturnPath(1, 1, "f", false)]
    ensures var r := Rcpt(Rule.Verdict, World(map[], db, []), now, s, to, LOOKUP);
            r == Done(World(r.world.c, db.(returnPaths := map[Id(1) := ReturnPath(1, 1, "f", true)]), []),
                      s.(via := to, returnPath := true, id := Id(1), domain := PROVEN, to := "f"), true)
  {
    hide DetectDomain, DetectAlias, DomainOf, ReturnId, Id;
    Finds(db, now, to);
    assert db.returnPaths[Id(1) := ReturnPath(1, 1, "f", true)] == map[Id(1) := ReturnPath(1, 1, "f", true)];
  }

  /** An alias as the recipient. */
  lemma TakesAlias(s: System, sid: int, a: char) returns (t: System)
    requires OnRoutes(s) && sid in s.sessions && (a == 'x' || a == 'y')
    ensures Next(Rule.Verdict, s, RcptTo(sid, [a] + "@a", LOOKUP), t)
    ensures t == System(World(t.world.c, s.world.db, []), s.now,
                        s.sessions[sid := s.sessions[sid].(alias := RULE, domain := PROVEN, to := [a] + "@a")])
  {
    hide Records, Checked, DomainOf, UserOf, ReturnId, Rcpt, Next;
    PlainAddress(a);
    NextRcpt(s, sid, [a] + "@a");
    AliasTaken(s.world.db, s.now, s.sessions[sid], [a] + "@a");
    t := After(s, sid, Rcpt(Rule.Verdict, s.world, s.now, s.sessions[sid], [a] + "@a", LOOKUP));
  }

  /** A stored return path as the recipient. */
  lemma TakesPath(s: System, sid: int, path: string) returns (t: System)
    requires OnRoutes(s) && sid in s.sessions && DomainOf(path) == Some("a") && ReturnId(path) == Some(Id(1))
    requires s.world.db.returnPaths == map[Id(1) := ReturnPath(1, 1, "f", false)]
    ensures Next(Rule.Verdict, s, RcptTo(sid, path, LOOKUP), t)
    ensures t == System(World(t.world.c, Routed().(returnPaths := map[Id(1) := ReturnPath(1, 1, "f", true)]), []),
                        s.now,
                        s.sessions[sid := s.sessions[sid].(via := path, returnPath := true, id := Id(1),
                                                           domain := PROVEN, to := "f")])
  {
    hide Records, Checked, DomainOf, ReturnId, Rcpt, Next, Id;
    NextRcpt(s, sid, path);
    PathTaken(s.world.db, s.now, s.sessions[sid], path);
    t := After(s, sid, Rcpt(Rule.Verdict, s.world, s.now, s.sessions[sid], path, LOOKUP));
  }

  function Silent(): Wire {
    Wire("h", "i", "s", "", _ => "", (_, _) => None, _ => false)
  }

  /** The relay stores its return path and then finds no destinations. */
  function Sending(): DataEnv {
    DataEnv("", false, false, false, true, RelayEnv(true, Silent(), Some("r"), false, true, [TARGET], None))
  }

  function Path(): string {
    "x=" + Print(Id(1)) + "@a"
  }

  /** The first session as it is when its message comes. */
  function Sender(): Session {
    NewSession(Id(1)).(from := "f", alias := RULE, domain := PROVEN, to := "x@a")
  }

  lemma PathPrinted()
    ensures ReturnPathText("x@a", Id(1), "a") == Some(Path())
  {
    PlainAddress('x');
    assert "x@a" == ['x'] + "@a" && "x@a" == "x" + ['@'] + "a";
    SplitJoinTwo("x", '@', "a");
    hide Remove, Split, Print, Id;
    var p := Print(Id(1));
    assert "x" + "=" == "x=" && "@" + "a" == "@a";
    assert "x" + "=" + p + "@" + "a" == ("x" + "=") + p + ("@" + "a");
  }

  lemma PathIs()
    ensures ReturnPathText("x@a", Id(1), "a") == Some(Path())
    ensures ReturnId(Path()) == Some(Id(1)) && DomainOf(Path()) == Some("a")
  {
    PathPrinted();
    hide ReturnPathText, Path, Split, Print, ReturnId, Id;
    ReturnPathRoundTrip("x@a", Id(1), "a");
    assert Lower("a") == "a";
  }

  lemma PathStored(db: Db, now: int)
    requires 1 in db.aliases && db.returnPaths == map[]
    ensures var r := Data(World(map[], db, []), now, Sender(), Sending());
            r == Done(World(r.world.c, db.(returnPaths := map[Id(1) := ReturnPath(1, 1, "f", false)]), []), Sender(),
                      false)
    ensures Issued(World(map[], db, []), now, Sender(), Sending()) == Some(Path())
  {
    PathIs();
    hide ReturnPathText, Path, ReturnId, DomainOf, Id;
    assert Sender().message + "" == Sender().message;
    assert map[][Id(1) := ReturnPath(1, 1, "f", false)] == map[Id(1) := ReturnPath(1, 1, "f", false)];
  }

  lemma Stores(s: System) returns (t: System)
    requires OnRoutes(s) && s.world.db.returnPaths == map[] && s.sessions == map[1 := Sender()]
    ensures Next(Rule.Verdict, s, SendData(1, Sending()), t)
    ensures t == System(World(t.world.c, Routed().(returnPaths := map[Id(1) := ReturnPath(1, 1, "f", false)]), []),
                        s.now, s.sessions)
    ensures Issued(s.world, s.now, s.sessions[1], Sending()) == Some(Path())
  {
    hide Records, Checked, Path, Next, Data, Issued, Id;
    NextData(s, 1, Sending());
    PathStored(s.world.db, s.now);
    t := After(s, 1, Data(s.world, s.now, s.sessions[1], Sending()));
    assert s.sessions[1 := Sender()] == s.sessions;
  }

  /** The second session as it is when its message comes: an alias in place of the sender. */
  function Receiver(): Session {
    Session(Id(1), "", Path(), "y@a", "", PROVEN, RULE, true)
  }

  lemma Bounced(s: System) returns (t: System)
    requires OnRoutes(s) && 2 in s.sessions && s.sessions[2] == Receiver()
    ensures Next(Rule.Verdict, s, SendData(2, Sending()), t)
    ensures QueuesBounce(s.world.outbox, t.world.outbox, "y@a", Id(1)) && t.now == s.now && t.world.db == s.world.db
  {
    hide Routed, Path, Next, Relay, Id;
    NextData(s, 2, Sending());
    t := After(s, 2, Data(s.world, s.now, s.sessions[2], Sending()));
  }

  // ---------------------------------------------------------------- the run

  /** A run in which the tables are set up in six steps at time 0 and only used afterwards. */
  ghost predicate Good(tr: seq<System>, es: seq<Event>) {
    && Run(Rule.Verdict, tr, es) && |es| >= 6
    && (forall k :: 0 <= k < 6 ==> tr[k].now == 0)
    && (forall k :: 6 <= k < |tr| ==> tr[k].now == LATER && tr[k].world.db.domains == map[1 := PROVEN])
    && (forall k :: 0 <= k < |es| ==> !Faulty(es[k], "a") && !es[k].Rset?)
  }

  lemma Longer(tr: seq<System>, es: seq<Event>, e: Event, t: System)
    requires Run(Rule.Verdict, tr, es) && Next(Rule.Verdict, tr[|es|], e, t)
    ensures Run(Rule.Verdict, tr + [t], es + [e])
  {
    hide Next;
  }

  lemma Onwards(tr: seq<System>, es: seq<Event>, e: Event, t: System)
    requires Good(tr, es) && Next(Rule.Verdict, tr[|es|], e, t)
    requires t.now == LATER && t.world.db.domains == map[1 := PROVEN] && !Faulty(e, "a") && !e.Rset?
    ensures Good(tr + [t], es + [e])
  {
    hide Next, Run;
    assert |tr| == |es| + 1 by { Lengths(tr, es); }
    Longer(tr, es, e, t);
    Lengths(tr + [t], es + [e]);
  }

  lemma Lengths(tr: seq<System>, es: seq<Event>)
    requires Run(Rule.Verdict, tr, es)
    ensures |tr| == |es| + 1
  {
  }

  /** The account's five requests, and a minute's wait. */
  lemma Sets() returns (tr: seq<System>, es: seq<Event>)
    ensures Good(tr, es) && |tr| == 7 && tr[6] == System(World(map[], Routed(), []), LATER, map[])
  {
    hide Next, Records, Checked, Handle, Possible;
    var s0 := START;
    Opens();
    Requests(s0, OPEN, Opened());
    var s1 := s0.(world := s0.world.(db := Opened()));
    Verifies();
    Requests(s1, VERIFY, Verified());
    var s2 := s1.(world := s1.world.(db := Verified()));
    Aims();
    Requests(s2, AIM, Targeted());
    var s3 := s2.(world := s2.world.(db := Targeted()));
    Checks();
    Requests(s3, CHECK, Complete());
    var s4 := s3.(world := s3.world.(db := Complete()));
    Routes();
    Requests(s4, ROUTE, Routed());
    var s5 := s4.(world := s4.world.(db := Routed()));
    Waits(s5);
    var s6 := s5.(now := s5.now + LATER);
    tr := [s0, s1, s2, s3, s4, s5, s6];
    es := [Request(1, Subscription, OPEN), Request(1, Subscription, VERIFY), Request(1, Subscription, AIM),
           Request(1, Subscription, CHECK), Request(1, Subscription, ROUTE), Tick(LATER)];
  }

  lemma Waits(s: System)
    ensures Next(Rule.Verdict, s, Tick(LATER), s.(now := s.now + LATER))
  {
  }

  lemma Connects(s: System, sid: int, n: Nibble)
    requires sid !in s.sessions && n != 0
    ensures Next(Rule.Verdict, s, Connect(sid, Id(n)), s.(sessions := s.sessions[sid := NewSession(Id(n))]))
  {
  }

  lemma Mails(s: System, sid: int)
    requires sid in s.sessions
    ensures Next(Rule.Verdict, s, MailFrom(sid, "f", true, false),
                 s.(sessions := s.sessions[sid := s.sessions[sid].(from := "f")]))
  {
  }

  /** The first session stores a return path for its sender. */
  lemma Sends() returns (tr: seq<System>, es: seq<Event>)
    ensures Good(tr, es) && |tr| == 12 && es[10] == SendData(1, Sending()) && tr[10].sessions == map[1 := Sender()]
    ensures tr[10].world.c == map[] && Issued(tr[10].world, tr[10].now, Sender(), Sending()) == Some(Path())
    ensures tr[11].world == World(tr[11].world.c,
                                  Routed().(returnPaths := map[Id(1) := ReturnPath(1, 1, "f", false)]), [])
    ensures tr[11].sessions == map[1 := Sender()]
  {
    hide Next, Good, Records, Checked, Path, Id, Issued;
    tr, es := Sets();
    GoodAt(tr, es);
    var s := tr[6];
    Connects(s, 1, 1);
    var t := s.(sessions := s.sessions[1 := NewSession(Id(1))]);
    Onwards(tr, es, Connect(1, Id(1)), t);
    tr, es, s := tr + [t], es + [Connect(1, Id(1))], t;
    Mails(s, 1);
    t := s.(sessions := s.sessions[1 := s.sessions[1].(from := "f")]);
    Onwards(tr, es, MailFrom(1, "f", true, false), t);
    tr, es, s := tr + [t], es + [MailFrom(1, "f", true, false)], t;
    t := TakesAlias(s, 1, 'x');
    Onwards(tr, es, RcptTo(1, ['x'] + "@a", LOOKUP), t);
    tr, es, s := tr + [t], es + [RcptTo(1, ['x'] + "@a", LOOKUP)], t;
    Evicts(s);
    t := Cleared(s);
    Onwards(tr, es, Evict(s.world.c.Keys), t);
    tr, es, s := tr + [t], es + [Evict(s.world.c.Keys)], t;
    assert ['x'] + "@a" == "x@a";
    assert s.sessions == map[1 := Sender()];
    t := Stores(s);
    Onwards(tr, es, SendData(1, Sending()), t);
    tr, es := tr + [t], es + [SendData(1, Sending())];
  }

  lemma GoodAt(tr: seq<System>, es: seq<Event>)
    requires Good(tr, es)
    ensures |tr| == |es| + 1
  {
  }

  /** The first session has stored its return path. */
  ghost predicate Stored(tr: seq<System>, es: seq<Event>) {
    && Good(tr, es) && |tr| == |es| + 1 && |es| > 10
    && es[10] == SendData(1, Sending()) && tr[10].sessions == map[1 := Sender()] && tr[10].world.c == map[]
    && Issued(tr[10].world, tr[10].now, Sender(), Sending()) == Some(Path())
  }

  lemma StillStored(tr: seq<System>, es: seq<Event>, e: Event, t: System)
    requires Stored(tr, es) && Next(Rule.Verdict, tr[|es|], e, t)
    requires t.now == LATER && t.world.db.domains == map[1 := PROVEN] && !Faulty(e, "a") && !e.Rset?
    ensures Stored(tr + [t], es + [e])
  {
    hide Next, Good, Issued, Path, Id;
    Onwards(tr, es, e, t);
  }

  /** The second session takes the path as its recipient. */
  lemma TakesFirst() returns (tr: seq<System>, es: seq<Event>)
    ensures Stored(tr, es) && |tr| == 15 && es[13] == RcptTo(2, Path(), LOOKUP)
    ensures tr[14].world ==
            World(tr[14].world.c, Routed().(returnPaths := map[Id(1) := ReturnPath(1, 1, "f", true)]), [])
    ensures tr[14].now == LATER && 2 in tr[14].sessions
    ensures tr[14].sessions[2] == Session(Id(1), "", Path(), "f", "", PROVEN, NO_ALIAS, true)
  {
    hide Next, Good, Records, Checked, Path, Id, Issued;
    tr, es := Sends();
    GoodAt(tr, es);
    PathIs();
    var s := tr[11];
    At(tr, es, 11);
    Evicts(s);
    var t := Cleared(s);
    assert Stored(tr, es);
    hide Stored;
    StillStored(tr, es, Evict(s.world.c.Keys), t);
    tr, es, s := tr + [t], es + [Evict(s.world.c.Keys)], t;
    Connects(s, 2, 2);
    t := s.(sessions := s.sessions[2 := NewSession(Id(2))]);
    StillStored(tr, es, Connect(2, Id(2)), t);
    tr, es, s := tr + [t], es + [Connect(2, Id(2))], t;
    t := TakesPath(s, 2, Path());
    StillStored(tr, es, RcptTo(2, Path(), LOOKUP), t);
    tr, es := tr + [t], es + [RcptTo(2, Path(), LOOKUP)];
  }

  lemma At(tr: seq<System>, es: seq<Event>, k: nat)
    requires Good(tr, es) && 6 <= k < |tr|
    ensures tr[k].now == LATER
  {
  }

  /** And then an alias. */
  lemma TakesSecond() returns (tr: seq<System>, es: seq<Event>)
    ensures Stored(tr, es) && |tr| == 18 && es[13] == RcptTo(2, Path(), LOOKUP) && es[15] == RcptTo(2, "y@a", LOOKUP)
    ensures OnRoutes(tr[17]) && tr[17].now == LATER && 2 in tr[17].sessions && tr[17].sessions[2] == Receiver()
  {
    hide Next, Good, Records, Checked, Path, Id, Issued, Stored;
    tr, es := TakesFirst();
    StoredLengths(tr, es);
    var s := tr[14];
    Evicts(s);
    var t := Cleared(s);
    StillStored(tr, es, Evict(s.world.c.Keys), t);
    tr, es, s := tr + [t], es + [Evict(s.world.c.Keys)], t;
    t := TakesAlias(s, 2, 'y');
    assert ['y'] + "@a" == "y@a";
    StillStored(tr, es, RcptTo(2, "y@a", LOOKUP), t);
    tr, es, s := tr + [t], es + [RcptTo(2, "y@a", LOOKUP)], t;
    Evicts(s);
    t := Cleared(s);
    StillStored(tr, es, Evict(s.world.c.Keys), t);
    tr, es := tr + [t], es + [Evict(s.world.c.Keys)];
  }

  lemma StoredLengths(tr: seq<System>, es: seq<Event>)
    requires Stored(tr, es)
    ensures |tr| == |es| + 1 && |es| > 10
  {
  }

  /** Since the wait the domain has been served, and no query for it ever failed. */
  lemma ServedSince(tr: seq<System>, es: seq<Event>, n: nat)
    requires Good(tr, es) && 6 <= n < |es| && es[n].RcptTo? && DomainOf(es[n].to) == Some("a")
    ensures |tr| == |es| + 1 && Clean(tr, es, n)
    ensures forall k: nat | Recent(tr, k, n) :: ServedDomain(tr[k].world.db.domains, "a").Some?
  {
    hide Next, DomainOf;
    forall k: nat | Recent(tr, k, n)
      ensures ServedDomain(tr[k].world.db.domains, "a").Some?
    {
      assert k >= 6;
      assert Served(tr[k].world.db.domains[1], "a");
    }
  }

  lemma PathReturned(tr: seq<System>, es: seq<Event>)
    requires Stored(tr, es) && |es| > 13 && es[13] == RcptTo(2, Path(), LOOKUP)
    ensures |tr| == |es| + 1 && Returned(Rule.Verdict, tr, es, 10, 13)
  {
    hide Path, Id, Issued, Good, Clean, ServedDomain, DomainOf, ReturnId;
    PathIs();
    ServedSince(tr, es, 13);
  }

  /** The bounce of the first session's message goes to the alias "y@a" and not to its sender "f",
      although its return path was accepted: a later RCPT of the transaction was accepted too. */
  lemma SecondRecipientTakesBounce() returns (tr: seq<System>, es: seq<Event>)
    ensures Run(Rule.Verdict, tr, es) && |es| == 18 && |tr| == 19
    ensures Returned(Rule.Verdict, tr, es, 10, 13) && es[13].sid == 2
    ensures es[17] == SendData(2, Sending()) && Passes(es[17].data) && forall j | 13 < j < 17 :: !Resets(es[j], 2)
    ensures tr[10].sessions == map[1 := Sender()] && Sender().from == "f" && Sender().id == Id(1)
    ensures QueuesBounce(tr[17].world.outbox, tr[18].world.outbox, "y@a", Id(1))
    ensures !QueuesBounce(tr[17].world.outbox, tr[18].world.outbox, "f", Id(1))
  {
    hide Next, Path, Id, Issued, Records, Checked, Returned;
    tr, es := TakesSecond();
    var t := Bounced(tr[17]);
    StillStored(tr, es, SendData(2, Sending()), t);
    tr, es := tr + [t], es + [SendData(2, Sending())];
    PathReturned(tr, es);
  }

  // ---------------------------------------------------------------- the run that sends twice

  /** A relay in which nothing fails. */
  function Flawless(): DataEnv {
    var wire := Wire("h", "i", "s", "", _ => "", (_, text) => Some(text), _ => true);
    DataEnv("", false, false, false, true, RelayEnv(true, wire, Some("r"), false, false, [TARGET], Some("f")))
  }

  lemma AllGoesWell(db: Db, now: int, s: Session)
    requires s.alias == RULE
    ensures Untroubled(World(map[], db, []), now, Flawless())
    ensures Smooth(World(map[], db, []), now, s, Flawless().relay) && Flawless().relay.rows == [TARGET]
  {
    assert Targets(World(map[], db, []), now, s, Flawless().relay) == Some([TARGET]);
  }

  lemma StartsAnew(s: System)
    requires s.sessions == map[1 := Sender()]
    ensures Next(Rule.Verdict, s, Rset(1), s.(sessions := map[1 := NewSession(Id(1))]))
  {
    hide Id;
    assert s.sessions[1 := NewSession(Id(1))] == map[1 := NewSession(Id(1))];
  }

  /** The first session resets, and sends again from and to the same addresses. */
  lemma SendsAgain() returns (tr: seq<System>, es: seq<Event>)
    ensures Run(Rule.Verdict, tr, es) && |tr| == 17 && |es| == 16
    ensures es[10] == SendData(1, Sending()) && es[12] == Rset(1) && es[14] == RcptTo(1, "x@a", LOOKUP)
    ensures tr[10].sessions == map[1 := Sender()] && tr[16].sessions == map[1 := Sender()]
    ensures OnRoutes(tr[16]) && Id(1) in tr[16].world.db.returnPaths
  {
    hide Next, Good, Records, Checked, Path, Id, Issued, OnRoutes;
    tr, es := Sends();
    GoodAt(tr, es);
    GoodRuns(tr, es);
    var s := tr[11];
    Evicts(s);
    var t := Cleared(s);
    Longer(tr, es, Evict(s.world.c.Keys), t);
    tr, es, s := tr + [t], es + [Evict(s.world.c.Keys)], t;
    StartsAnew(s);
    t := s.(sessions := map[1 := NewSession(Id(1))]);
    Longer(tr, es, Rset(1), t);
    tr, es, s := tr + [t], es + [Rset(1)], t;
    Mails(s, 1);
    t := s.(sessions := s.sessions[1 := s.sessions[1].(from := "f")]);
    Longer(tr, es, MailFrom(1, "f", true, false), t);
    tr, es, s := tr + [t], es + [MailFrom(1, "f", true, false)], t;
    assert OnRoutes(s) by { RoutesKept(s); }
    t := TakesAlias(s, 1, 'x');
    assert ['x'] + "@a" == "x@a";
    Longer(tr, es, RcptTo(1, "x@a", LOOKUP), t);
    tr, es, s := tr + [t], es + [RcptTo(1, "x@a", LOOKUP)], t;
    assert s.sessions == map[1 := Sender()];
    Evicts(s);
    t := Cleared(s);
    Longer(tr, es, Evict(s.world.c.Keys), t);
    tr, es := tr + [t], es + [Evict(s.world.c.Keys)];
    RoutesKept(t);
  }

  lemma GoodRuns(tr: seq<System>, es: seq<Event>)
    requires Good(tr, es)
    ensures Run(Rule.Verdict, tr, es)
  {
  }

  lemma RoutesKept(s: System)
    requires s.world.c == map[] && s.world.outbox == []
    requires s.world.db == Routed().(returnPaths := map[Id(1) := ReturnPath(1, 1, "f", false)])
    ensures OnRoutes(s)
  {
    hide Routed, Id;
  }

  /** Its second message is not relayed, although nothing else stands in the way. */
  lemma SecondMessageLost() returns (tr: seq<System>, es: seq<Event>)
    ensures Run(Rule.Verdict, tr, es) && |es| == 17 && |tr| == 18
    ensures es[10] == SendData(1, Sending()) && es[12] == Rset(1) && es[16] == SendData(1, Flawless())
    ensures tr[16].sessions == map[1 := Sender()] && Typed(tr[16].world.c)
    ensures Untroubled(tr[16].world, tr[16].now, Flawless())
    ensures Smooth(tr[16].world, tr[16].now, Sender(), Flawless().relay)
    ensures Spent(tr[16], 1) && !Data(tr[16].world, tr[16].now, Sender(), Flawless()).ok
    ensures tr[17].world.outbox == tr[16].world.outbox
  {
    hide Next, Records, Checked, Id, Flawless, Data, Untroubled, Smooth;
    tr, es := SendsAgain();
    var s := tr[16];
    AllGoesWell(s.world.db, s.now, Sender());
    NextData(s, 1, Flawless());
    var t := After(s, 1, Data(s.world, s.now, s.sessions[1], Flawless()));
    Longer(tr, es, SendData(1, Flawless()), t);
    tr, es := tr + [t], es + [SendData(1, Flawless())];
    RelaysUnlessSpent(Rule.Verdict, tr, es, 16);
    SpentRelaysNothing(Rule.Verdict, tr, es, 16, 16);
  }
}
