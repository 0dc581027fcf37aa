/** Handing one email to a remote server: mail exchangers in order of preference, the first that
    can be dialled, and one session with it. */
module Delivery {
  import opened Text
  import opened Client
  import Cache

  datatype Mx = Mx(host: string, pref: int)

  // ---------------------------------------------------------------- preference

  predicate Ascending(ms: seq<Mx>) {
    forall i, j :: 0 <= i < j < |ms| ==> ms[i].pref <= ms[j].pref
  }

  /** Behind all that are preferred to it or its equals. */
  method Insert(sorted: seq<Mx>, m: Mx) returns (r: seq<Mx>)
    requires Ascending(sorted)
    ensures Ascending(r) && multiset(r) == multiset(sorted) + multiset{m}
  {
    var i := 0;
    while i < |sorted| && sorted[i].pref <= m.pref
      invariant 0 <= i <= |sorted|
      invariant forall j :: 0 <= j < i ==> sorted[j].pref <= m.pref
    {
      i := i + 1;
    }
    InsertedAt(sorted, i, m);
    return sorted[..i] + [m] + sorted[i..];
  }

  method SortByPref(ms: seq<Mx>) returns (sorted: seq<Mx>)
    ensures Ascending(sorted) && multiset(sorted) == multiset(ms)
  {
    hide Ascending;
    sorted := [];
    assert Ascending([]) by { NoneAscending(); }
    var k := 0;
    while k < |ms|
      invariant 0 <= k <= |ms|
      invariant Ascending(sorted) && multiset(sorted) == multiset(ms[..k])
    {
      assert ms[..k + 1] == ms[..k] + [ms[k]];
      sorted := Insert(sorted, ms[k]);
      k := k + 1;
    }
    assert ms[..|ms|] == ms;
  }

  lemma NoneAscending()
    ensures Ascending([])
  {
  }

  lemma InsertedAt(s: seq<Mx>, i: nat, m: Mx)
    requires i <= |s|
    ensures multiset(s[..i] + [m] + s[i..]) == multiset(s) + multiset{m}
  {
    assert s == s[..i] + s[i..];
  }

  // ---------------------------------------------------------------- one session

  datatype Kind = EhloKind | HeloKind | TlsKind | AuthKind | MailKind | RcptKind | DataKind | PayloadKind | QuitKind

  function KindOf(c: Command): Kind {
    match c
    case Ehlo(_) => EhloKind
    case Helo(_) => HeloKind
    case StartTls => TlsKind
    case Auth(_, _) => AuthKind
    case AuthReply(_) => AuthKind
    case AuthCancel => AuthKind
    case MailFrom(_, _) => MailKind
    case RcptTo(_) => RcptKind
    case DataCommand => DataKind
    case Payload(_) => PayloadKind
    case Quit => QuitKind
  }

  function Kinds(t: seq<Exchange>): seq<Kind> {
    seq(|t|, i requires 0 <= i < |t| => KindOf(t[i].command))
  }

  /** The ways to be greeted. */
  predicate IsGreeting(g: seq<Kind>) {
    g == [EhloKind] || g == [EhloKind, HeloKind] || g == [EhloKind, TlsKind, EhloKind]
  }

  const MESSAGE: seq<Kind> := [MailKind, RcptKind, DataKind, PayloadKind, QuitKind]

  /** A beginning of a greeting and then `rest`. */
  predicate Begins(t: seq<Exchange>, rest: seq<Kind>) {
    || Kinds(t) <= [EhloKind] + rest
    || Kinds(t) <= [EhloKind, HeloKind] + rest
    || Kinds(t) <= [EhloKind, TlsKind, EhloKind] + rest
  }

  /** A session that sends one email sends a beginning of this, and all its commands carry the
      path, the recipient and the message of that email. */
  ghost predicate OneEmail(t: seq<Exchange>, path: string, to: string, bytes: string) {
    Begins(t, MESSAGE) && forall x | x in t :: Carries(x.command, path, to, bytes)
  }

  predicate Carries(c: Command, path: string, to: string, bytes: string) {
    match c
    case MailFrom(p, _) => p == path
    case RcptTo(a) => a == to
    case Payload(b) => b == bytes
    case _ => true
  }

  lemma KindsAppend(t: seq<Exchange>, u: seq<Exchange>)
    ensures Kinds(t + u) == Kinds(t) + Kinds(u)
  {
  }

  /** What is sent after the greeting `base` keeps to the message's order. */
  lemma Onward(base: seq<Exchange>, t: seq<Exchange>, path: string, to: string, bytes: string)
    requires IsGreeting(Kinds(base)) && Kinds(t) <= MESSAGE
    requires forall x | x in t :: Carries(x.command, path, to, bytes)
    ensures OneEmail(base + t, path, to, bytes)
  {
    KindsAppend(base, t);
    assert Kinds(base + t) <= Kinds(base) + MESSAGE;
    Greeting(base, path, to, bytes);
  }

  /** A greeting broken off is the beginning of one. */
  lemma Greeting(t: seq<Exchange>, path: string, to: string, bytes: string)
    requires Begins(t, []) || IsGreeting(Kinds(t))
    ensures OneEmail(t, path, to, bytes)
  {
    assert Begins(t, MESSAGE);
    forall x | x in t
      ensures Carries(x.command, path, to, bytes)
    {
      var i :| 0 <= i < |t| && t[i] == x;
      assert Kinds(t)[i] == KindOf(x.command);
      assert Kinds(t)[i] in {EhloKind, HeloKind, TlsKind};
    }
  }

  /** Hello, and STARTTLS where it is offered. */
  method Open(c: SmtpClient, rdns: string) returns (ok: bool)
    requires c.Valid() && c.trace == []
    modifies c
    ensures c.Valid() && StageOf(c.trace) != Broken
    ensures Begins(c.trace, [])
    ensures OneLine(rdns) ==> c.trace != [] && c.trace[0].command == Ehlo(rdns)
    ensures ok ==> IsGreeting(Kinds(c.trace)) && StageOf(c.trace).Ready?
    ensures Encrypts(c.trace) && (ok && |c.trace| == 1 ==> !Welcomes(c.trace[0], "STARTTLS"))
  {
    hide Next, StageOf, Expected, Welcomes, Encrypts;
    ok := c.Hello(rdns);
    if !OneLine(rdns) {
      assert Kinds(c.trace) <= [EhloKind] + [];
      assert Encrypts(c.trace) by { EncryptsNothing(); }
      return;
    }
    EncryptsOn(c.trace, c.trace);
    assert Kinds(c.trace) == if |c.trace| == 1 then [EhloKind] else [EhloKind, HeloKind];
    if !ok {
      return;
    }
    var offered := c.Extension("STARTTLS");
    WelcomesWhen(c.trace, "STARTTLS");
    if offered {
      ghost var before := c.trace;
      assert before == [before[0]];
      ghost var greeted;
      ok, greeted := c.UpgradeTls();
      assert c.trace[0] == before[0] && c.trace[1] == c.trace[|before|..][0];
      EncryptsOn(before, c.trace);
      assert Kinds(c.trace) == if |c.trace| == 2 then [EhloKind, TlsKind] else [EhloKind, TlsKind, EhloKind];
      assert Kinds(c.trace) <= [EhloKind, TlsKind, EhloKind] + [];
    }
  }

  lemma EncryptsNothing()
    ensures Encrypts([])
  {
  }

  /** The commands of a message, as far as they went. */
  ghost predicate Handed(t: seq<Exchange>, path: string, to: string, bytes: string) {
    && |t| <= 5
    && (|t| > 0 ==> t[0].command.MailFrom? && t[0].command.path == path)
    && (|t| > 1 ==> t[1].command == RcptTo(to))
    && (|t| > 2 ==> t[2].command == DataCommand)
    && (|t| > 3 ==> t[3].command == Payload(bytes))
    && (|t| > 4 ==> t[4].command == Quit)
  }

  lemma HandedKinds(t: seq<Exchange>, path: string, to: string, bytes: string)
    requires Handed(t, path, to, bytes)
    ensures Kinds(t) <= MESSAGE
    ensures forall x | x in t :: Carries(x.command, path, to, bytes)
  {
    assert forall i :: 0 <= i < |t| ==> Kinds(t)[i] == MESSAGE[i];
  }

  /** The end of a message, as far as it went, behind its accepted envelope. */
  lemma HandedOver(base: seq<Exchange>, u: seq<Exchange>, after: seq<Exchange>, path: string, to: string, bytes: string)
    requires Handed(u, path, to, bytes) && |u| == 2 && base + u <= after && |after| <= |base| + 5
    requires forall i :: |base| + 2 <= i < |after| ==>
        after[i].command == [DataCommand, Payload(bytes), Quit][i - |base| - 2]
    ensures base <= after && Handed(after[|base|..], path, to, bytes)
    ensures SmtpClient.Enveloped(u, path, [to]) && |after| == |base| + 5 &&
            Succeeded(after[|base| + 2], 354) && Succeeded(after[|base| + 3], 250) &&
            Succeeded(after[|base| + 4], 221) ==>
              SmtpClient.Transaction(after[|base|..], path, [to], bytes) && after[|base|..][3] == after[|base| + 3]
  {
    var t := after[|base|..];
    assert after[..|base| + 2] == base + u;
    assert forall i :: 0 <= i < 2 ==> t[i] == after[..|base| + 2][|base| + i] == u[i];
    assert after[..|base|] == after[..|base| + 2][..|base|] == base;
    assert forall i :: 2 <= i < |t| ==> t[i] == after[|base| + i];
    if SmtpClient.Enveloped(u, path, [to]) && |after| == |base| + 5 {
      assert t[..2] == u;
    }
  }

  /** MAIL, RCPT, DATA, the message and QUIT; the text of the reply to the message. */
  method Hand(c: SmtpClient, path: string, to: string, bytes: string) returns (r: Option<string>)
    requires c.Valid() && StageOf(c.trace).Ready?
    modifies c
    ensures c.Valid() && old(c.trace) <= c.trace && StageOf(c.trace) != Broken
    ensures Handed(c.trace[|old(c.trace)|..], path, to, bytes)
    ensures r.Some? <==> StageOf(c.trace) == Closed && Succeeded(c.trace[|c.trace| - 1], 221) && !c.closeFails
    ensures r.Some? ==>
              var t := c.trace[|old(c.trace)|..];
              SmtpClient.Transaction(t, path, [to], bytes) && t[3].outcome == Reply(250, r.value)
  {
    hide Next, StageOf, Offered, SmtpClient.Transaction;
    ghost var base := c.trace;
    var ok := c.Mail(path);
    if !ok {
      return None;
    }
    ghost var x := c.trace[|base|];
    assert c.trace == base + [x];
    ok := c.Rcpt(to);
    if !ok {
      return None;
    }
    ghost var y := c.trace[|base| + 1];
    ghost var u := [x, y];
    assert c.trace == base + u;
    assert y.command == RcptTo([to][0]);
    assert SmtpClient.Enveloped(u, path, [to]);
    var text;
    ok, text := c.HandOver(bytes);
    HandedOver(base, u, c.trace, path, to, bytes);
    return if ok then Some(text) else None;
  }

  /** A dialled connection: whether its deadline can be set, what the server says first, what it
      answers after that, and whether closing it fails. */
  datatype Connection = Connection(deadlineFails: bool, greeting: Outcome, script: seq<Outcome>, closeFails: bool)

  /** The server took the message with code 250 and the session was closed in order. */
  ghost predicate Delivered(t: seq<Exchange>, path: string, to: string, bytes: string, reply: string) {
    && |t| > 5
    && SmtpClient.Transaction(t[|t| - 5..], path, [to], bytes)
    && t[|t| - 2].outcome == Reply(250, reply)
  }

  /** One session with a server: nothing is sent unless it greets with 220, and the answers are
      the server's own. */
  method Converse(conn: Connection, host: string, rdns: string, path: string, to: string, bytes: string)
    returns (r: Option<string>, c: SmtpClient)
    ensures fresh(c) && c.Valid() && c.script == conn.script && StageOf(c.trace) != Broken
    ensures OneEmail(c.trace, path, to, bytes) && Encrypts(c.trace)
    ensures conn.deadlineFails || !Expected(conn.greeting, 220) ==> c.trace == []
    ensures !conn.deadlineFails && Expected(conn.greeting, 220) && OneLine(rdns) ==>
              c.trace != [] && c.trace[0].command == Ehlo(rdns)
    ensures r.Some? ==> Delivered(c.trace, path, to, bytes, r.value)
    ensures r.Some? <==>
              c.trace != [] && StageOf(c.trace) == Closed && Succeeded(c.trace[|c.trace| - 1], 221) && !conn.closeFails
  {
    hide Next, StageOf, Expected, Offered, OneEmail, Scripted, Welcomes, Encrypts;
    EncryptsNothing();
    c := new SmtpClient(host, conn.script, conn.closeFails);
    NothingSent(path, to, bytes);
    if conn.deadlineFails || !Expected(conn.greeting, 220) {
      return None, c;
    }
    var ok := Open(c, rdns);
    Greeting(c.trace, path, to, bytes);
    if !ok {
      assert StageOf(c.trace) != Closed by { GreetingOpen(c.trace); }
      return None, c;
    }
    ghost var base := c.trace;
    r := Hand(c, path, to, bytes);
    ghost var u := c.trace[|base|..];
    HandedKinds(u, path, to, bytes);
    assert c.trace == base + u;
    Onward(base, u, path, to, bytes);
    EncryptsAfter(base, c.trace);
    if r.Some? {
      assert c.trace[|c.trace| - 5..] == u;
    }
  }

  /** No greeting ends in QUIT. */
  lemma GreetingOpen(t: seq<Exchange>)
    requires Begins(t, [])
    ensures StageOf(t) != Closed
  {
    if t != [] {
      assert Kinds(t)[|t| - 1] in {EhloKind, HeloKind, TlsKind};
      assert KindOf(t[|t| - 1].command) != QuitKind;
    }
  }

  // ---------------------------------------------------------------- one email

  datatype MxEntry = MxEntry(hosts: seq<Mx>, expires: int)

  function Hosts(ms: seq<Mx>): seq<string> {
    seq(|ms|, i requires 0 <= i < |ms| => ms[i].host)
  }

  /** Which exchangers were dialled: the first in order, each but the last in vain; all of them
      unless one answered. */
  ghost predicate Dialled(order: seq<Mx>, dials: nat -> Option<Connection>, dialled: seq<string>) {
    && |dialled| <= |order| && dialled == Hosts(order[..|dialled|])
    && (forall k :: 0 <= k < |dialled| - 1 ==> dials(k).None?)
    && (|dialled| < |order| ==> |dialled| > 0 && dials(|dialled| - 1).Some?)
  }

  predicate Connected(dials: nat -> Option<Connection>, dialled: seq<string>) {
    |dialled| > 0 && dials(|dialled| - 1).Some?
  }

  class MailSender {
    var mxs: map<string, MxEntry>

    ghost predicate Valid()
      reads this
    {
      forall d :: d in mxs ==> mxs[d].hosts != [] && Ascending(mxs[d].hosts)
    }

    constructor ()
      ensures Valid() && mxs == map[]
    {
      mxs := map[];
    }

    method DestinationMxs(domain: string, now: int, looked: Option<seq<Mx>>) returns (r: Option<seq<Mx>>)
      requires Valid()
      modifies this
      ensures Valid() && (r.Some? ==> r.value != [] && Ascending(r.value))
      ensures if domain in old(mxs) && now <= old(mxs)[domain].expires then
                r == Some(old(mxs)[domain].hosts) && mxs == old(mxs)
              else if looked.None? || looked.value == [] then r.None? && mxs == old(mxs)
              else
                && r.Some? && multiset(r.value) == multiset(looked.value)
                && mxs == old(mxs)[domain := MxEntry(r.value, now + Cache.TTL)]
    {
      if domain in mxs && now <= mxs[domain].expires {
        return Some(mxs[domain].hosts);
      }
      if looked.None? || looked.value == [] {
        return None;
      }
      var sorted := SortByPref(looked.value);
      assert |multiset(sorted)| == |sorted| && |multiset(looked.value)| == |looked.value|;
      mxs := mxs[domain := MxEntry(sorted, now + Cache.TTL)];
      return Some(sorted);
    }

    /** What a session with the exchangers in this order comes to. When every dial fails the error
        that is returned is the nil of the look-up, and the reply is empty. */
    method TryInOrder(rdns: string, path: string, to: string, bytes: string, order: seq<Mx>,
                      dials: nat -> Option<Connection>)
      returns (reply: string, failed: bool, dialled: seq<string>, trace: seq<Exchange>)
      requires order != []
      ensures Dialled(order, dials, dialled) && Ended(path, to, bytes, dials, dialled, reply, failed, trace)
      ensures !Connected(dials, dialled) ==> trace == [] && dialled == Hosts(order) && !failed && reply == ""
    {
      hide Next, StageOf, Expected, Offered, OneEmail, Delivered, Scripted, Encrypts;
      reply, failed, dialled, trace := "", true, [], [];
      NothingSent(path, to, bytes);
      var k := 0;
      while k < |order|
        invariant 0 <= k <= |order|
        invariant dialled == Hosts(order[..k]) && forall j :: 0 <= j < k ==> dials(j).None?
      {
        dialled := dialled + [order[k].host];
        assert Hosts(order[..k + 1]) == Hosts(order[..k]) + [order[k].host];
        var conn := dials(k);
        if conn.None? {
          k := k + 1;
          continue;
        }
        var r, client := Converse(conn.value, order[k].host, rdns, path, to, bytes);
        trace := client.trace;
        if r.Some? {
          reply, failed := r.value, false;
        }
        return;
      }
      assert order[..k] == order;
      failed := false;
    }

    /** `dials(k)` is what dialling the exchanger in place k comes to. */
    method SendEmail(rdns: string, returnPath: string, sender: string, to: string, bytes: string, now: int,
                     looked: Option<seq<Mx>>, dials: nat -> Option<Connection>)
      returns (reply: string, failed: bool, dialled: seq<string>, trace: seq<Exchange>, ghost order: seq<Mx>)
      requires Valid()
      modifies this
      ensures Valid() && Ascending(order) && Dialled(order, dials, dialled)
      ensures var parts := Split(to, '@');
              if |parts| != 2 then order == [] && mxs == old(mxs)
              else if parts[1] in old(mxs) && now <= old(mxs)[parts[1]].expires then
                order == old(mxs)[parts[1]].hosts && mxs == old(mxs)
              else if looked.None? || looked.value == [] then order == [] && mxs == old(mxs)
              else
                multiset(order) == multiset(looked.value) &&
                mxs == old(mxs)[parts[1] := MxEntry(order, now + Cache.TTL)]
      ensures Ended(if returnPath == "" then sender else returnPath, to, bytes, dials, dialled, reply, failed, trace)
      ensures !Connected(dials, dialled) ==>
                trace == [] && dialled == Hosts(order) && failed == (order == []) && reply == ""
    {
      hide Ended, Dialled, Ascending;
      reply, failed, dialled, trace, order := "", true, [], [], [];
      var path := returnPath;
      if |path| == 0 {
        path := sender;
      }
      NothingDone(path, to, bytes, dials);
      var parts := Split(to, '@');
      if |parts| != 2 {
        return;
      }
      var found := DestinationMxs(parts[1], now, looked);
      if found.None? || |found.value| == 0 {
        return;
      }
      order := found.value;
      reply, failed, dialled, trace := TryInOrder(rdns, path, to, bytes, found.value, dials);
    }
  }

  /** What the one connection, if there is one, amounts to: its commands are in order and carry this
      email, its answers are the server's, and there is no error exactly when the server took the
      message with code 250 and the session was closed in order. */
  ghost predicate Ended(path: string, to: string, bytes: string, dials: nat -> Option<Connection>, dialled: seq<string>,
                        reply: string, failed: bool, trace: seq<Exchange>)
  {
    && StageOf(trace) != Broken && OneEmail(trace, path, to, bytes) && Encrypts(trace)
    && (Connected(dials, dialled) ==>
          var conn := dials(|dialled| - 1).value;
          && Scripted(trace, conn.script)
          && (!failed ==> Delivered(trace, path, to, bytes, reply))
          && (!failed <==>
                trace != [] && StageOf(trace) == Closed && Succeeded(trace[|trace| - 1], 221) && !conn.closeFails))
  }

  lemma NothingDone(path: string, to: string, bytes: string, dials: nat -> Option<Connection>)
    ensures Ended(path, to, bytes, dials, [], "", true, []) && Dialled([], dials, []) && Ascending([])
  {
    NothingSent(path, to, bytes);
  }

  lemma NothingSent(path: string, to: string, bytes: string)
    ensures StageOf([]) != Broken && OneEmail([], path, to, bytes) && Encrypts([])
  {
    Greeting([], path, to, bytes);
  }

  // ---------------------------------------------------------------- what a session amounts to

  /** DATA comes only after an accepted MAIL and an accepted RCPT, HELO only after a failed EHLO,
      STARTTLS only when offered, and BODY=8BITMIME exactly when the latest greeting offers it. */
  lemma {:induction false} SessionInOrder(t: seq<Exchange>, path: string, to: string, bytes: string, i: nat)
    requires StageOf(t) != Broken && OneEmail(t, path, to, bytes) && i < |t|
    ensures t[i].command == DataCommand ==>
              i >= 2 && Succeeded(t[i - 1], 25) && t[i - 1].command == RcptTo(to) &&
              Succeeded(t[i - 2], 250) && t[i - 2].command.MailFrom? && t[i - 2].command.path == path
    ensures t[i].command.Helo? ==> i == 1 && t[0].command.Ehlo? && !Succeeded(t[0], 250)
    ensures t[i].command == StartTls ==> i == 1 && Welcomes(t[0], "STARTTLS")
    ensures t[i].command.MailFrom? ==> i > 0 && (t[i].command.body8 <==> Welcomes(t[i - 1], "8BITMIME"))
    ensures t[i].command.MailFrom? && Encrypts(t) && Welcomes(t[0], "STARTTLS") ==>
              i == 3 && t[1].command == StartTls && Succeeded(t[1], 220) && t[2].command.Ehlo?
  {
    hide OneEmail, Announced, Announces, Welcomes, Encrypts;
    Orderly(t);
    assert InOrder(t[..i], t[i].command);
    if t[i].command == DataCommand {
      assert InOrder(t[..i - 1], t[i - 1].command);
      OneRecipient(t, path, to, bytes, i - 1);
    }
    if t[i].command == StartTls || t[i].command.MailFrom? {
      GreetedInOrder(t, path, to, bytes, i);
    }
  }

  lemma GreetedInOrder(t: seq<Exchange>, path: string, to: string, bytes: string, i: nat)
    requires OneEmail(t, path, to, bytes) && i < |t| && InOrder(t[..i], t[i].command)
    requires forall j | 0 <= j < |t| :: InOrder(t[..j], t[j].command)
    ensures t[i].command == StartTls ==> i == 1 && Welcomes(t[0], "STARTTLS")
    ensures t[i].command.MailFrom? ==> i > 0 && (t[i].command.body8 <==> Welcomes(t[i - 1], "8BITMIME"))
    ensures t[i].command.MailFrom? && Encrypts(t) && Welcomes(t[0], "STARTTLS") ==>
              i == 3 && t[1].command == StartTls && Succeeded(t[1], 220) && t[2].command.Ehlo?
  {
    hide OneEmail, Announced, Announces, Welcomes;
    if t[i].command == StartTls || t[i].command.MailFrom? {
      Places(t, path, to, bytes, i);
      LatestIs(t[..i], "STARTTLS");
      LatestIs(t[..i], "8BITMIME");
      assert t[..i][i - 1] == t[i - 1];
    }
    if t[i].command.MailFrom? && i == 3 {
      assert InOrder(t[..2], t[2].command) && t[..2][1] == t[1];
    }
  }

  /** STARTTLS comes right behind the first EHLO, and MAIL right behind a greeting. */
  lemma Places(t: seq<Exchange>, path: string, to: string, bytes: string, i: nat)
    requires OneEmail(t, path, to, bytes) && i < |t|
    ensures t[i].command == StartTls ==> i == 1 && t[0].command.Ehlo?
    ensures t[i].command.MailFrom? ==>
              1 <= i <= 3 && (t[i - 1].command.Ehlo? || t[i - 1].command.Helo?) &&
              (i == 2 ==> t[1].command.Helo?) && (i == 3 ==> t[1].command == StartTls && t[2].command.Ehlo?)
  {
    assert forall j :: 0 <= j < |t| ==> Kinds(t)[j] == KindOf(t[j].command);
  }

  /** What was announced last, when a greeting was the last thing sent. */
  lemma LatestIs(t: seq<Exchange>, word: string)
    requires t != [] && (t[|t| - 1].command.Ehlo? || t[|t| - 1].command.Helo?)
    ensures Announced(t, word) <==> Welcomes(t[|t| - 1], word)
  {
    hide Announces;
  }

  lemma {:induction false} OneRecipient(t: seq<Exchange>, path: string, to: string, bytes: string, i: nat)
    requires OneEmail(t, path, to, bytes) && i < |t| && t[i].command.RcptTo?
    ensures t[i].command == RcptTo(to)
    ensures i > 0 && t[i - 1].command.MailFrom? && t[i - 1].command.path == path
  {
    assert Kinds(t)[i] == RcptKind;
    assert i > 0 ==> Kinds(t)[i - 1] == KindOf(t[i - 1].command);
    assert t[i] in t && (i > 0 ==> t[i - 1] in t);
  }
}
