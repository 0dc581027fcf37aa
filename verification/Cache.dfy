/** The server's one cache: values of several types under string keys, each for a minute. */
module Cache {
  import opened Text
  import opened Schema

  /** Nanoseconds; `time.Minute`. */
  const TTL: int := 60_000_000_000

  datatype Namespace =
    | NxReturnPath | Nx | AliasNxMatch | AliasMatch | NxDomain | Aliases | AliasNxDomain
    | AliasDomain | NxMatch | DomainName | Rdns | Destinations | DkimKey | Login

  function Label(ns: Namespace): string {
    match ns
    case NxReturnPath => "nxreturnpath"
    case Nx => "nx"
    case AliasNxMatch => "alias:nxmatch"
    case AliasMatch => "alias:match"
    case NxDomain => "nxdomain"
    case Aliases => "aliases"
    case AliasNxDomain => "alias:nxdomain"
    case AliasDomain => "alias:domain"
    case NxMatch => "nxmatch"
    case DomainName => "domain"
    case Rdns => "rdns"
    case Destinations => "destinations"
    case DkimKey => "dkim"
    case Login => "login"
  }

  datatype Slot = Slot(ns: Namespace, key: string)

  /** The string under which a slot is kept. */
  function KeyOf(s: Slot): string {
    Label(s.ns) + ":" + s.key
  }

  function Initial(ns: Namespace): (c: char)
    ensures c == Label(ns)[0]
  {
    match ns
    case NxReturnPath | Nx | NxDomain | NxMatch => 'n'
    case AliasNxMatch | AliasMatch | Aliases | AliasNxDomain | AliasDomain => 'a'
    case DomainName | Destinations | DkimKey => 'd'
    case Rdns => 'r'
    case Login => 'l'
  }

  lemma AliasLabelsDiffer(a: Namespace, b: Namespace)
    requires a != b && Initial(a) == Initial(b) == 'a'
    ensures var x, y := Label(a) + ":", Label(b) + ":";
            exists i :: 0 <= i < |x| && i < |y| && x[i] != y[i]
  {
    var x, y := Label(a) + ":", Label(b) + ":";
    assert x[5] != y[5] || x[6] != y[6] || x[8] != y[8];
  }

  /** The positions at which two labels, each with its colon, are told apart. */
  lemma LabelsDiffer(a: Namespace, b: Namespace)
    requires a != b
    ensures var x, y := Label(a) + ":", Label(b) + ":";
            exists i :: 0 <= i < |x| && i < |y| && x[i] != y[i]
  {
    var x, y := Label(a) + ":", Label(b) + ":";
    if Initial(a) == Initial(b) {
      if Initial(a) == 'a' {
        AliasLabelsDiffer(a, b);
      } else {
        assert x[1] != y[1] || x[2] != y[2];
      }
    } else {
      assert x[0] != y[0];
    }
  }

  lemma DifferentHeads(x: string, y: string, k: string, l: string, i: nat)
    requires i < |x| && i < |y| && x[i] != y[i]
    ensures x + k != y + l
  {
    assert (x + k)[i] == x[i];
    assert (y + l)[i] == y[i];
  }

  /** No two slots share a string: namespaces cannot run into each other's keys. */
  lemma KeysApart(s: Slot, t: Slot)
    ensures KeyOf(s) == KeyOf(t) <==> s == t
  {
    var x, y := Label(s.ns) + ":", Label(t.ns) + ":";
    if s.ns != t.ns {
      LabelsDiffer(s.ns, t.ns);
      var i :| 0 <= i < |x| && i < |y| && x[i] != y[i];
      DifferentHeads(x, y, s.key, t.key, i);
    } else {
      assert s.key == KeyOf(s)[|x|..] && t.key == KeyOf(t)[|y|..];
    }
  }

  // ---------------------------------------------------------------- values

  datatype Value =
    | Nothing
    | DomainV(domain: Domain)
    | AliasV(alias: Alias)
    | AliasesV(aliases: seq<Alias>)
    | DestinationsV(destinations: seq<Destination>)
    | RdnsV(name: string)
    | KeyV(private: string)
    | PasswordV(hash: string)

  /** What the code that reads a namespace casts its values to. */
  predicate Fits(ns: Namespace, v: Value) {
    match ns
    case DomainName => v.DomainV?
    case AliasMatch => v.AliasV?
    case Aliases => v.AliasesV?
    case AliasDomain => v.AliasesV?
    case Destinations => v.DestinationsV?
    case Rdns => v.RdnsV?
    case DkimKey => v.KeyV?
    case Login => v.PasswordV? || v.Nothing?
    case _ => v.Nothing?
  }

  datatype Entry = Entry(value: Value, expires: int)

  /** The cache as separate typed maps, one a namespace. */
  type Contents = map<Slot, Entry>

  ghost predicate Typed(c: Contents) {
    forall s :: s in c ==> Fits(s.ns, c[s].value)
  }

  function Lookup(c: Contents, s: Slot, now: int): Option<Value> {
    if s in c && now <= c[s].expires then Some(c[s].value) else None
  }

  function Put(c: Contents, s: Slot, v: Value, now: int): Contents {
    c[s := Entry(v, now + TTL)]
  }

  // ---------------------------------------------------------------- the string-keyed store

  ghost function KeysOf(c: Contents): set<string> {
    set s | s in c :: KeyOf(s)
  }

  class TtlCache {
    var entries: map<string, Entry>
    ghost var contents: Contents

    ghost predicate Valid()
      reads this
    {
      && Typed(contents)
      && (forall s :: s in contents ==> KeyOf(s) in entries && entries[KeyOf(s)] == contents[s])
      && (forall k :: k in entries ==> k in KeysOf(contents))
    }

    constructor ()
      ensures Valid() && contents == map[]
    {
      entries := map[];
      contents := map[];
    }

    /** A hit is a value of the type its reader expects. */
    method Get(ns: Namespace, key: string, now: int) returns (v: Option<Value>)
      requires Valid()
      ensures v == Lookup(contents, Slot(ns, key), now)
      ensures v.Some? ==> Fits(ns, v.value)
    {
      var slot := Slot(ns, key);
      var k := KeyOf(slot);
      if k in entries {
        ghost var s :| s in contents && KeyOf(s) == k;
        KeysApart(s, slot);
        if now <= entries[k].expires {
          return Some(entries[k].value);
        }
      }
      return None;
    }

    method Set(ns: Namespace, key: string, v: Value, now: int)
      requires Valid() && Fits(ns, v)
      modifies this
      ensures Valid() && contents == Put(old(contents), Slot(ns, key), v, now)
    {
      hide KeyOf, Label;
      var slot := Slot(ns, key);
      ghost var before := contents;
      forall s | s in contents
        ensures KeyOf(s) == KeyOf(slot) <==> s == slot
      {
        KeysApart(s, slot);
      }
      entries := entries[KeyOf(slot) := Entry(v, now + TTL)];
      contents := Put(contents, slot, v, now);
      assert KeysOf(contents) == KeysOf(before) + {KeyOf(slot)} by {
        assert forall s :: s in contents <==> s in before || s == slot;
      }
    }

    /** The cache may forget any of its entries at any time. */
    method Evict(keys: set<string>)
      requires Valid()
      modifies this
      ensures Valid()
      ensures contents == map s | s in old(contents) && KeyOf(s) !in keys :: old(contents)[s]
    {
      contents := map s | s in contents && KeyOf(s) !in keys :: contents[s];
      entries := entries - keys;
      forall k | k in entries
        ensures k in KeysOf(contents)
      {
        ghost var s :| s in old(contents) && KeyOf(s) == k;
        assert s in contents;
      }
    }
  }
}
