/** The calls of a relay session as steps on the server's world and the session's data. */
module Sessions {
  import opened Text
  import opened Uuid
  import opened Schema
  import opened Cache
  import opened Router

  datatype Email = Email(
    id: Uuid, returnPath: string, from: string, via: string, to: string, message: string,
    account: int, domain: int, alias: int, destination: int, bounce: string)

  /** The server's shared state: its cache, its database and what it has queued. */
  datatype World = World(c: Contents, db: Db, outbox: seq<Email>)

  // ---------------------------------------------------------------- fan-out

  /** What surrounds a relayed message: the connection, the clock, the signer and the queue. */
  datatype Wire = Wire(
    hostname: string, ip: string, serverName: string, tls: string,
    dates: nat -> string, sign: (nat, string) -> Option<string>, publish: nat -> bool)

  function ReceivedHeader(w: Wire, rdns: string, id: Uuid, address: string, k: nat): string {
    "Received: from " + w.hostname + " (" + rdns + " [" + w.ip + "]) by " + w.serverName + " with ESMTP id " +
    Print(id) + " for <" + address + ">;" + w.tls + "\r\n\t" + w.dates(k) + "\r\n"
  }

  function ReturnPathHeader(path: string): string {
    "Return-Path: <" + path + ">\r\n"
  }

  /** What is signed for destination k: two headers of its own and the complete message. */
  function Final(w: Wire, rdns: string, s: Session, path: string, d: Destination, k: nat): string {
    ReturnPathHeader(path) + ReceivedHeader(w, rdns, s.id, d.address, k) + s.message
  }

  function EmailTo(s: Session, path: string, d: Destination, signed: string): Email {
    Email(s.id, path, s.from, s.to, d.address, signed, s.domain.account, s.domain.id, s.alias.id, d.id, "")
  }

  /** The emails queued from destination k on, up to the first failure. */
  function Queued(w: Wire, rdns: string, s: Session, path: string, ds: seq<Destination>, k: nat): seq<Email>
    decreases |ds| - k
  {
    if k >= |ds| then []
    else if w.sign(k, Final(w, rdns, s, path, ds[k], k)).None? || !w.publish(k) then []
    else [EmailTo(s, path, ds[k], w.sign(k, Final(w, rdns, s, path, ds[k], k)).value)] +
         Queued(w, rdns, s, path, ds, k + 1)
  }

  /** One email a destination, in order, each signed over its own headers and the whole
      message; a failure at destination n leaves exactly the first n. */
  lemma {:induction false} FanOutConserves(w: Wire, rdns: string, s: Session, path: string, ds: seq<Destination>,
                                           k: nat)
    requires k <= |ds|
    ensures var q := Queued(w, rdns, s, path, ds, k);
            && |q| <= |ds| - k
            && (forall i :: 0 <= i < |q| ==>
                  var d := ds[k + i];
                  w.sign(k + i, Final(w, rdns, s, path, d, k + i)) == Some(q[i].message) &&
                  q[i] == EmailTo(s, path, d, q[i].message))
            && (|q| < |ds| - k ==>
                  w.sign(k + |q|, Final(w, rdns, s, path, ds[k + |q|], k + |q|)).None? || !w.publish(k + |q|))
    decreases |ds| - k
  {
    if k < |ds| && w.sign(k, Final(w, rdns, s, path, ds[k], k)).Some? && w.publish(k) {
      FanOutConserves(w, rdns, s, path, ds, k + 1);
      var q, rest := Queued(w, rdns, s, path, ds, k), Queued(w, rdns, s, path, ds, k + 1);
      assert forall i :: 0 < i < |q| ==> q[i] == rest[i - 1];
    }
  }

  // ---------------------------------------------------------------- relay

  /** `tcp`: the peer has an address. `header`: the From address of the message, if it has one. */
  datatype RelayEnv = RelayEnv(
    tcp: bool, wire: Wire, rdns: Option<string>, insertFault: bool,
    destinationFault: bool, rows: seq<Destination>, header: Option<string>)

  datatype Done = Done(world: World, session: Session, ok: bool)

  function Relay(w: World, now: int, s: Session, e: RelayEnv): Done
    requires Typed(w.c)
  {
    if !e.tcp then Done(w, s, false)
    else
      var r := GetRdns(w.c, now, e.wire.ip, e.rdns);
      if r.answer.None? then Done(w.(c := r.c), s, false)
      else
        var p := MakeReturnPath(w.db, s, e.insertFault);
        if p.answer.None? then Done(w.(c := r.c, db := p.db), s, false)
        else RelayOn(w.(c := r.c, db := p.db), now, s, e, r.answer.value, p.answer.value)
  }

  /** From the moment the return path is stored. */
  function RelayOn(w: World, now: int, s: Session, e: RelayEnv, rdns: string, path: string): Done
    requires Typed(w.c)
  {
    var d := GetDestinations(w.c, now, s.alias.id, e.rows, e.destinationFault);
    if d.answer.None? || d.answer.value == [] || e.header.None? then Done(w.(c := d.c), s, false)
    else
      var s1 := s.(from := e.header.value);
      var q := Queued(e.wire, rdns, s1, path, d.answer.value, 0);
      Done(w.(c := d.c, outbox := w.outbox + q), s1, |q| == |d.answer.value|)
  }

  // ---------------------------------------------------------------- session calls

  function Mail(s: Session, from: string, tcp: bool, spfFail: bool): (Session, bool) {
    if !tcp || spfFail then (s, false) else (s.(from := from), true)
  }

  /** Query faults and the order of the alias rows. */
  datatype RcptEnv = RcptEnv(domainFault: bool, selectFault: bool, updateFault: bool, aliasFault: bool,
                             rows: seq<Alias>)

  ghost function Rcpt(m: Matcher, w: World, now: int, s: Session, to: string, e: RcptEnv): Done
    requires Typed(w.c)
  {
    var d := DetectDomain(w.c, w.db, now, to, e.domainFault);
    if d.answer.None? then Done(w.(c := d.c), s, false)
    else
      var b := DetectReturnPath(d.c, w.db, now, to, e.selectFault, e.updateFault);
      var w1 := w.(c := b.c, db := b.db);
      if b.answer.Some? then
        Done(w1, s.(via := to, returnPath := true, id := b.answer.value.0, domain := d.answer.value,
                    to := b.answer.value.1), true)
      else RcptAlias(m, w1, now, s, to, e, d.answer.value)
  }

  /** The recipient is a return path that RCPT accepts as the address of a bounce. */
  ghost predicate IsBounce(w: World, now: int, to: string, e: RcptEnv)
    requires Typed(w.c)
  {
    var d := DetectDomain(w.c, w.db, now, to, e.domainFault);
    d.answer.Some? && DetectReturnPath(d.c, w.db, now, to, e.selectFault, e.updateFault).answer.Some?
  }

  function RcptAlias(m: Matcher, w: World, now: int, s: Session, to: string, e: RcptEnv, domain: Domain): Done
    requires Typed(w.c)
  {
    var a := DetectAlias(m, w.c, now, to, e.rows, e.aliasFault);
    if a.answer.None? then Done(w.(c := a.c), s, false)
    else Done(w.(c := a.c), s.(alias := a.answer.value, domain := domain, to := to), true)
  }

  /** `body` is what was read of the message; the verdicts are the spam filter's. */
  datatype DataEnv = DataEnv(body: string, readFails: bool, spamFails: bool, spam: bool, publish: bool, relay: RelayEnv)

  function BounceEmail(s: Session): Email {
    Email(s.id, "", s.from, s.via, s.to, s.message, s.domain.account, s.domain.id, s.alias.id, 0, "Returned")
  }

  function Data(w: World, now: int, s: Session, e: DataEnv): Done
    requires Typed(w.c)
  {
    var s1 := s.(message := s.message + e.body);
    if e.readFails || e.spamFails || e.spam then Done(w, s1, false)
    else if s1.returnPath then
      if e.publish then Done(w.(outbox := w.outbox + [BounceEmail(s1)]), s1, true) else Done(w, s1, false)
    else Relay(w, now, s1, e.relay)
  }

  /** Neither the id nor `via` is cleared. */
  function Reset(s: Session): Session {
    s.(from := "", to := "", message := "", alias := NO_ALIAS, domain := NO_DOMAIN, returnPath := false)
  }
}
