/** The sender's loop: each delivery is decoded into a pooled email, sent, logged and acknowledged. */
module Worker {
  import opened Text
  import opened Uuid
  import opened Buffers

  datatype EntryType = SendEntry | RejectEntry | BounceEntry

  /** The fields of an email, as the loop's own code sets and reads them. */
  datatype Fields = Fields(
    id: Uuid, from: string, returnPath: string, via: string, to: string, message: string, level: int,
    account: int, domain: int, alias: int, destination: int,
    etype: EntryType, error: Option<string>, status: string, bounce: string)

  function NilId(): (u: Uuid)
    ensures IsNil(u)
  {
    seq(32, i requires 0 <= i < 32 => 0)
  }

  /** A newly allocated email. */
  function Blank(): Fields {
    Fields(NilId(), "", "", "", "", "", 0, 0, 0, 0, 0, SendEntry, None, "", "")
  }

  /** The keys present in a JSON object; a missing key leaves its field as it was. An error
      can only be null. */
  datatype Body = Body(
    id: Option<Uuid>, from: Option<string>, returnPath: Option<string>, via: Option<string>, to: Option<string>,
    message: Option<string>, level: Option<int>, account: Option<int>, domain: Option<int>, alias: Option<int>,
    destination: Option<int>, etype: Option<EntryType>, nullError: bool, status: Option<string>, bounce: Option<string>)

  function Or<T>(o: Option<T>, t: T): T {
    if o.Some? then o.value else t
  }

  function Decode(b: Body, f: Fields): Fields {
    Fields(Or(b.id, f.id), Or(b.from, f.from), Or(b.returnPath, f.returnPath), Or(b.via, f.via), Or(b.to, f.to),
           Or(b.message, f.message), Or(b.level, f.level), Or(b.account, f.account), Or(b.domain, f.domain),
           Or(b.alias, f.alias), Or(b.destination, f.destination), Or(b.etype, f.etype),
           if b.nullError then None else f.error, Or(b.status, f.status), Or(b.bounce, f.bounce))
  }

  /** A message of the queue. When it does not decode, `body` is what was read before the error. */
  datatype Delivery = Delivery(tag: nat, body: Body, decodes: bool)

  datatype Entry = Entry(
    id: Uuid, account: int, domain: int, alias: int, destination: int,
    from: string, via: string, to: string, status: string, etype: EntryType, level: int, message: string)

  datatype Effect = Bounced(email: Fields) | Logged(entry: Entry) | Acked(tag: nat)

  /** What sending the k-th delivery comes to: the reply, or an error. */
  type Sending = (nat, Fields) -> Result<string, string>

  // ---------------------------------------------------------------- with a new email each time

  function Sent(f: Fields, r: Result<string, string>): Fields {
    match r
    case Ok(reply) => f.(status := reply, error := None)
    case Err(e) => f.(status := e, error := Some(e), etype := BounceEntry)
  }

  function EntryOf(f: Fields): Entry {
    Entry(f.id, f.account, f.domain, f.alias, f.destination, f.from, f.via, f.to, f.status, f.etype, f.level,
          if f.etype != SendEntry then f.message else "")
  }

  /** The email of a delivery after sending, had it been allocated for this delivery alone. */
  function Processed(d: Delivery, k: nat, send: Sending): Fields {
    var f := Decode(d.body, Blank());
    Sent(f, send(k, f))
  }

  function EffectsOf(d: Delivery, k: nat, send: Sending): seq<Effect> {
    if !d.decodes then [Acked(d.tag)]
    else
      var f := Processed(d, k, send);
      (if f.error.Some? then [Bounced(f)] else []) + [Logged(EntryOf(f)), Acked(d.tag)]
  }

  function Effects(ds: seq<Delivery>, send: Sending): seq<Effect> {
    if ds == [] then [] else Effects(ds[..|ds| - 1], send) + EffectsOf(ds[|ds| - 1], |ds| - 1, send)
  }

  // ---------------------------------------------------------------- what the effects amount to

  function Logs(es: seq<Effect>): seq<Entry> {
    if es == [] then []
    else Logs(es[..|es| - 1]) + if es[|es| - 1].Logged? then [es[|es| - 1].entry] else []
  }

  function Acks(es: seq<Effect>): seq<nat> {
    if es == [] then []
    else Acks(es[..|es| - 1]) + if es[|es| - 1].Acked? then [es[|es| - 1].tag] else []
  }

  function Bounces(es: seq<Effect>): seq<Fields> {
    if es == [] then []
    else Bounces(es[..|es| - 1]) + if es[|es| - 1].Bounced? then [es[|es| - 1].email] else []
  }

  /** The decodable deliveries, by place. */
  function Decodable(ds: seq<Delivery>): (r: seq<nat>)
    ensures forall i :: 0 <= i < |r| ==> r[i] < |ds| && ds[r[i]].decodes
    ensures forall i, j :: 0 <= i < j < |r| ==> r[i] < r[j]
    ensures forall k :: 0 <= k < |ds| && ds[k].decodes ==> k in r
  {
    if ds == [] then []
    else Decodable(ds[..|ds| - 1]) + if ds[|ds| - 1].decodes then [|ds| - 1] else []
  }

  lemma {:induction false} AllDecodable(ds: seq<Delivery>)
    ensures |Decodable(ds)| <= |ds|
    ensures |Decodable(ds)| == |ds| ==> forall d :: d in ds ==> d.decodes
  {
    if ds != [] {
      AllDecodable(ds[..|ds| - 1]);
      assert forall d :: d in ds ==> d in ds[..|ds| - 1] || d == ds[|ds| - 1];
    }
  }

  predicate Fails(d: Delivery, k: nat, send: Sending) {
    d.decodes && send(k, Decode(d.body, Blank())).Err?
  }

  /** The deliveries whose sending returned an error, by place. */
  function Failures(ds: seq<Delivery>, send: Sending): (r: seq<nat>)
    ensures forall i :: 0 <= i < |r| ==> r[i] < |ds| && Fails(ds[r[i]], r[i], send)
    ensures forall i, j :: 0 <= i < j < |r| ==> r[i] < r[j]
    ensures forall k :: 0 <= k < |ds| && Fails(ds[k], k, send) ==> k in r
  {
    if ds == [] then []
    else Failures(ds[..|ds| - 1], send) + if Fails(ds[|ds| - 1], |ds| - 1, send) then [|ds| - 1] else []
  }

  lemma AppendOne(es: seq<Effect>, e: Effect)
    ensures Logs(es + [e]) == Logs(es) + if e.Logged? then [e.entry] else []
    ensures Acks(es + [e]) == Acks(es) + if e.Acked? then [e.tag] else []
    ensures Bounces(es + [e]) == Bounces(es) + if e.Bounced? then [e.email] else []
  {
    assert (es + [e])[..|es|] == es;
  }

  lemma FailsWhen(d: Delivery, k: nat, send: Sending)
    requires d.decodes
    ensures Fails(d, k, send) <==> Processed(d, k, send).error.Some?
  {
    hide Decode, Blank;
  }

  lemma AppendDelivery(es: seq<Effect>, d: Delivery, k: nat, send: Sending)
    ensures var f := Processed(d, k, send);
            && Logs(es + EffectsOf(d, k, send)) == Logs(es) + (if d.decodes then [EntryOf(f)] else [])
            && Acks(es + EffectsOf(d, k, send)) == Acks(es) + [d.tag]
            && Bounces(es + EffectsOf(d, k, send)) == Bounces(es) + (if Fails(d, k, send) then [f] else [])
  {
    hide EntryOf, Decode, Blank;
    var f := Processed(d, k, send);
    if !d.decodes {
      AppendOne(es, Acked(d.tag));
    } else {
      hide Logs, Acks, Bounces, Processed;
      assert Fails(d, k, send) <==> f.error.Some? by { FailsWhen(d, k, send); }
      hide Fails;
      var b := if f.error.Some? then es + [Bounced(f)] else es;
      AppendOne(es, Bounced(f));
      AppendOne(b, Logged(EntryOf(f)));
      AppendOne(b + [Logged(EntryOf(f))], Acked(d.tag));
      assert es + EffectsOf(d, k, send) == b + [Logged(EntryOf(f))] + [Acked(d.tag)];
    }
  }

  /** Every delivery is acknowledged once, in order, whether or not it decoded. */
  lemma {:induction false} EveryDeliveryAcked(ds: seq<Delivery>, send: Sending)
    ensures Acks(Effects(ds, send)) == seq(|ds|, k requires 0 <= k < |ds| => ds[k].tag)
    decreases |ds|
  {
    hide Processed, EntryOf, EffectsOf;
    if ds != [] {
      var n := |ds| - 1;
      EveryDeliveryAcked(ds[..n], send);
      AppendDelivery(Effects(ds[..n], send), ds[n], n, send);
    }
  }

  /** The entries are those of the deliveries at these places, in order. */
  predicate EntriesAt(logs: seq<Entry>, ds: seq<Delivery>, ks: seq<nat>, send: Sending) {
    && |logs| == |ks|
    && forall i :: 0 <= i < |ks| ==> ks[i] < |ds| && logs[i] == EntryOf(Processed(ds[ks[i]], ks[i], send))
  }

  predicate EmailsAt(bounces: seq<Fields>, ds: seq<Delivery>, ks: seq<nat>, send: Sending) {
    && |bounces| == |ks|
    && forall i :: 0 <= i < |ks| ==> ks[i] < |ds| && bounces[i] == Processed(ds[ks[i]], ks[i], send)
  }

  lemma OneMoreEntry(logs: seq<Entry>, ds: seq<Delivery>, ks: seq<nat>, n: nat, send: Sending)
    requires n < |ds| && EntriesAt(logs, ds[..n], ks, send)
    ensures EntriesAt(logs, ds, ks, send)
    ensures EntriesAt(logs + [EntryOf(Processed(ds[n], n, send))], ds, ks + [n], send)
  {
    hide EntryOf, Processed;
  }

  lemma OneMoreEmail(bounces: seq<Fields>, ds: seq<Delivery>, ks: seq<nat>, n: nat, send: Sending)
    requires n < |ds| && EmailsAt(bounces, ds[..n], ks, send)
    ensures EmailsAt(bounces, ds, ks, send)
    ensures EmailsAt(bounces + [Processed(ds[n], n, send)], ds, ks + [n], send)
  {
    hide Processed;
  }

  /** Every decodable delivery is logged once, in order, as an email of its own. */
  lemma {:induction false} EveryEmailLogged(ds: seq<Delivery>, send: Sending)
    ensures EntriesAt(Logs(Effects(ds, send)), ds, Decodable(ds), send)
    decreases |ds|
  {
    hide Processed, EntryOf, EffectsOf, Acks, Bounces, EntriesAt;
    if ds == [] {
      assert EntriesAt([], [], [], send) by { NothingAt(send); }
    } else {
      var n := |ds| - 1;
      EveryEmailLogged(ds[..n], send);
      AppendDelivery(Effects(ds[..n], send), ds[n], n, send);
      OneMoreEntry(Logs(Effects(ds[..n], send)), ds, Decodable(ds[..n]), n, send);
      assert Logs(Effects(ds[..n], send)) + [] == Logs(Effects(ds[..n], send));
      assert Decodable(ds[..n]) + [] == Decodable(ds[..n]);
    }
  }

  lemma NothingAt(send: Sending)
    ensures EntriesAt([], [], [], send) && EmailsAt([], [], [], send)
  {
  }

  /** The emails bounced are exactly those that sending failed. */
  lemma {:induction false} EveryFailureBounced(ds: seq<Delivery>, send: Sending)
    ensures EmailsAt(Bounces(Effects(ds, send)), ds, Failures(ds, send), send)
    decreases |ds|
  {
    hide Processed, EntryOf, EffectsOf, Acks, Logs, Fails, EmailsAt;
    if ds == [] {
      assert EmailsAt([], [], [], send) by { NothingAt(send); }
    } else {
      var n := |ds| - 1;
      EveryFailureBounced(ds[..n], send);
      AppendDelivery(Effects(ds[..n], send), ds[n], n, send);
      OneMoreEmail(Bounces(Effects(ds[..n], send)), ds, Failures(ds[..n], send), n, send);
      assert Bounces(Effects(ds[..n], send)) + [] == Bounces(Effects(ds[..n], send));
      assert Failures(ds[..n], send) + [] == Failures(ds[..n], send);
    }
  }

  lemma {:induction false} EffectsPrefix(ds: seq<Delivery>, send: Sending, k: nat)
    requires k <= |ds|
    ensures Effects(ds[..k], send) <= Effects(ds, send)
    decreases |ds|
  {
    hide EffectsOf;
    if k == |ds| {
      assert ds[..k] == ds;
    } else {
      var n := |ds| - 1;
      EffectsPrefix(ds[..n], send, k);
      assert ds[..n][..k] == ds[..k];
    }
  }

  /** A delivery is acknowledged last of all: by then it has been bounced, if sending it failed, and logged,
      and so have all before it. */
  lemma AckComesLast(ds: seq<Delivery>, send: Sending, k: nat)
    requires k < |ds|
    ensures var done := Effects(ds[..k + 1], send);
            && done != [] && done <= Effects(ds, send) && done[|done| - 1] == Acked(ds[k].tag)
            && EntriesAt(Logs(done), ds[..k + 1], Decodable(ds[..k + 1]), send)
            && EmailsAt(Bounces(done), ds[..k + 1], Failures(ds[..k + 1], send), send)
  {
    hide Processed, EntryOf, EntriesAt, EmailsAt, Logs, Bounces, Decodable, Failures;
    var ks := ds[..k + 1];
    EffectsPrefix(ds, send, k + 1);
    EveryEmailLogged(ks, send);
    EveryFailureBounced(ks, send);
    assert ks[|ks| - 1] == ds[k];
  }

  /** An email that was read from this body: what the body leaves out is as in a new email. */
  predicate ReadFrom(f: Fields, b: Body) {
    && f.id == Or(b.id, NilId()) && f.account == Or(b.account, 0) && f.domain == Or(b.domain, 0)
    && f.alias == Or(b.alias, 0) && f.destination == Or(b.destination, 0)
    && f.from == Or(b.from, "") && f.returnPath == Or(b.returnPath, "") && f.via == Or(b.via, "")
    && f.to == Or(b.to, "") && f.message == Or(b.message, "") && f.level == Or(b.level, 0)
    && f.etype == Or(b.etype, SendEntry) && f.status == Or(b.status, "") && f.bounce == Or(b.bounce, "")
    && f.error == None
  }

  /** What is sent is what was read, and the email that is bounced or logged is that one with the result:
      the reply, or the error and the type of a bounce. */
  lemma SentAsRead(d: Delivery, k: nat, send: Sending) returns (read: Fields)
    ensures ReadFrom(read, d.body)
    ensures var f := Processed(d, k, send);
            && f == read.(status := f.status, error := f.error, etype := f.etype)
            && match send(k, read)
               case Ok(reply) => f.status == reply && f.error == None && f.etype == read.etype
               case Err(e) => f.status == e && f.error == Some(e) && f.etype == BounceEntry
  {
    read := Decode(d.body, Blank());
  }

  /** The log entry of a delivery names the ids, the addresses and the queue of its own body and the
      result of its own sending; it has the message too unless it is the entry of a sent one. */
  lemma LoggedIds(d: Delivery, k: nat, send: Sending)
    ensures var e, f := EntryOf(Processed(d, k, send)), Processed(d, k, send);
            && e.id == Or(d.body.id, NilId()) && e.account == Or(d.body.account, 0) && e.domain == Or(d.body.domain, 0)
            && e.alias == Or(d.body.alias, 0) && e.destination == Or(d.body.destination, 0)
            && e.from == Or(d.body.from, "") && e.via == Or(d.body.via, "") && e.to == Or(d.body.to, "")
            && e.level == Or(d.body.level, 0) && e.status == f.status && e.etype == f.etype
            && (f.error.Some? ==> e.etype == BounceEntry)
            && e.message == if e.etype == SendEntry then "" else Or(d.body.message, "")
  {
    hide Processed, Decode;
    var read := SentAsRead(d, k, send);
  }

  // ---------------------------------------------------------------- with pooled emails

  class PooledEmail {
    var id: Uuid
    var from: string
    var returnPath: string
    var via: string
    var to: string
    var message: string
    var level: int
    var account: int
    var domain: int
    var alias: int
    var destination: int
    var etype: EntryType
    var error: Option<string>
    var status: string
    var bounce: string

    function View(): Fields
      reads this
    {
      Fields(id, from, returnPath, via, to, message, level, account, domain, alias, destination, etype, error, status,
             bounce)
    }

    constructor ()
      ensures View() == Blank()
    {
      id, from, returnPath, via, to, message, level := NilId(), "", "", "", "", "", 0;
      account, domain, alias, destination, etype, error, status, bounce := 0, 0, 0, 0, SendEntry, None, "", "";
    }

    /** Whatever a previous delivery left behind is gone. */
    method Reset()
      modifies this
      ensures View() == Blank()
    {
      id := NilId();
      from := "";
      returnPath := "";
      via := "";
      to := "";
      message := "";
      account := 0;
      domain := 0;
      alias := 0;
      destination := 0;
      bounce := "";
      status := "";
      error := None;
      level := 0;
      etype := SendEntry;
    }

    method Unmarshal(b: Body)
      modifies this
      ensures View() == Decode(b, old(View()))
    {
      hide Or;
      UnmarshalMessage(b);
      UnmarshalIds(b);
      error := if b.nullError then None else error;
    }

    method UnmarshalMessage(b: Body)
      modifies this`id, this`from, this`returnPath, this`via, this`to, this`message, this`level
      ensures id == Or(b.id, old(id)) && from == Or(b.from, old(from)) &&
          returnPath == Or(b.returnPath, old(returnPath))
      ensures via == Or(b.via, old(via)) && to == Or(b.to, old(to))
      ensures message == Or(b.message, old(message)) && level == Or(b.level, old(level))
    {
      hide Or;
      id := Or(b.id, id);
      from := Or(b.from, from);
      returnPath := Or(b.returnPath, returnPath);
      via := Or(b.via, via);
      to := Or(b.to, to);
      message := Or(b.message, message);
      level := Or(b.level, level);
    }

    method UnmarshalIds(b: Body)
      modifies this`account, this`domain, this`alias, this`destination, this`etype, this`status, this`bounce
      ensures account == Or(b.account, old(account)) && domain == Or(b.domain, old(domain))
      ensures alias == Or(b.alias, old(alias)) && destination == Or(b.destination, old(destination))
      ensures etype == Or(b.etype, old(etype)) && status == Or(b.status, old(status)) &&
          bounce == Or(b.bounce, old(bounce))
    {
      hide Or;
      account := Or(b.account, account);
      domain := Or(b.domain, domain);
      alias := Or(b.alias, alias);
      destination := Or(b.destination, destination);
      etype := Or(b.etype, etype);
      status := Or(b.status, status);
      bounce := Or(b.bounce, bounce);
    }
  }

  class Sender {
    const pool: Pool<PooledEmail>
    var effects: seq<Effect>

    ghost predicate Valid()
      reads this, pool
    {
      pool.Valid()
    }

    constructor ()
      ensures Valid() && effects == [] && fresh(pool) && pool.lent == {}
    {
      pool := new Pool<PooledEmail>();
      effects := [];
    }

    /** Sends a decoded email, and reports. */
    method Process(email: PooledEmail, d: Delivery, k: nat, send: Sending)
      requires d.decodes && email.View() == Decode(d.body, Blank())
      modifies this`effects, email
      ensures effects == old(effects) + EffectsOf(d, k, send)
    {
      hide Decode, Blank, EntryOf;
      var r := send(k, email.View());
      if r.Ok? {
        email.status := r.value;
        email.error := None;
      } else {
        email.status := r.error;
        email.error := Some(r.error);
        email.etype := BounceEntry;
        effects := effects + [Bounced(email.View())];
      }
      assert email.View() == Processed(d, k, send);
      effects := effects + [Logged(EntryOf(email.View()))];
      effects := effects + [Acked(d.tag)];
    }

    /** One delivery. An email that did not decode is lost to the pool: it stays lent. */
    method Handle(d: Delivery, k: nat, send: Sending)
      requires Valid()
      modifies this`effects, pool, pool.free
      ensures Valid()
      ensures effects == old(effects) + EffectsOf(d, k, send)
      ensures old(pool.lent) <= pool.lent && (d.decodes ==> pool.lent == old(pool.lent))
      ensures |pool.lent| == |old(pool.lent)| + if d.decodes then 0 else 1
      ensures forall e :: e in pool.free ==> e in old(pool.free) || fresh(e)
    {
      hide Decode, Blank, EntryOf, Sent;
      var made := new PooledEmail();
      var email := pool.Get(made);
      email.Reset();
      email.Unmarshal(d.body);
      if !d.decodes {
        effects := effects + [Acked(d.tag)];
        return;
      }
      Process(email, d, k, send);
      pool.Put(email);
    }

    /** Any number of deliveries, in the order they come: nothing of one email shows in the next,
        whatever the pool hands out. */
    method Run(ds: seq<Delivery>, send: Sending)
      requires Valid()
      modifies this`effects, pool, pool.free
      ensures Valid()
      ensures effects == old(effects) + Effects(ds, send)
      ensures old(pool.lent) <= pool.lent && |pool.lent| == |old(pool.lent)| + |ds| - |Decodable(ds)|
      ensures pool.lent == old(pool.lent) <==> forall d :: d in ds ==> d.decodes
    {
      hide EffectsOf;
      var k := 0;
      while k < |ds|
        invariant 0 <= k <= |ds| && Valid()
        invariant effects == old(effects) + Effects(ds[..k], send)
        invariant forall e :: e in pool.free ==> e in old(pool.free) || fresh(e)
        invariant old(pool.lent) <= pool.lent && |pool.lent| == |old(pool.lent)| + k - |Decodable(ds[..k])|
        invariant (forall i :: 0 <= i < k ==> ds[i].decodes) ==> pool.lent == old(pool.lent)
      {
        Handle(ds[k], k, send);
        assert ds[..k + 1][..k] == ds[..k];
        k := k + 1;
      }
      assert ds[..|ds|] == ds;
      AllDecodable(ds);
    }
  }
}
