/** The DKIM TXT record (section 3.6.2.2 of RFC 6376): how a public key is printed as
    several quoted strings, and how a DNS answer is compared with the printed record. */
module Dkim {
  import opened Text

  const CHUNK: nat := 100

  const HEAD: string := "v=DKIM1; k=rsa; p="

  const QUOTE: char := '\"'

  /** A character-string of a TXT record holds at most this many octets
      (section 3.3.14 of RFC 1035). */
  const TXT_LIMIT: nat := 255

  // ---------------------------------------------------------------- printing

  function Chunks(s: string, size: nat): (r: seq<string>)
    requires size > 0
    ensures |r| >= 1
  {
    if |s| <= size then [s] else [s[..size]] + Chunks(s[size..], size)
  }

  /** Cutting loses nothing, and no piece is longer than asked. */
  lemma {:induction false} ChunksRejoin(s: string, size: nat)
    requires size > 0
    ensures Concat(Chunks(s, size)) == s
    ensures forall c :: c in Chunks(s, size) ==> |c| <= size
    ensures forall c, x :: c in Chunks(s, size) && x in c ==> x in s
  {
    if |s| <= size {
      assert Concat([s]) == s + Concat([]);
    } else {
      ChunksRejoin(s[size..], size);
      assert s == s[..size] + s[size..];
      assert Chunks(s, size)[1..] == Chunks(s[size..], size);
    }
  }

  /** A piece shorter than the size can only be the last one. */
  lemma {:induction false} OnlyLastShort(s: string, size: nat, i: nat)
    requires size > 0 && i < |Chunks(s, size)| - 1
    ensures |Chunks(s, size)[i]| == size
  {
    if i > 0 {
      OnlyLastShort(s[size..], size, i - 1);
    }
  }

  method ChunkString(s: string, size: nat) returns (chunks: seq<string>)
    requires size > 0
    ensures chunks == Chunks(s, size)
  {
    chunks := [];
    if |s| == 0 {
      return [s];
    }
    var i := 0;
    while i < |s|
      invariant 0 <= i
      invariant i < |s| ==> chunks + Chunks(s[i..], size) == Chunks(s, size)
      invariant i >= |s| ==> chunks == Chunks(s, size)
    {
      var nn := i + size;
      if nn > |s| {
        nn := |s|;
      }
      assert i + size < |s| ==> s[i..][..size] == s[i..nn] && s[i..][size..] == s[i + size..];
      assert i + size >= |s| ==> s[i..nn] == s[i..];
      chunks := chunks + [s[i..nn]];
      i := i + size;
    }
  }

  function Quoted(s: string): string {
    [QUOTE] + s + [QUOTE]
  }

  /** The later pieces, each behind a space and in quotes. */
  function QuotedTail(parts: seq<string>): string {
    if parts == [] then "" else " " + Quoted(parts[0]) + QuotedTail(parts[1..])
  }

  function PrintParts(parts: seq<string>): string
    requires |parts| >= 1
  {
    Quoted(HEAD + parts[0]) + QuotedTail(parts[1..])
  }

  /** The value of the `mxax._domainkey` record of a key. */
  function PrintKey(public: string): string {
    PrintParts(Chunks(public, CHUNK))
  }

  lemma {:induction false} QuotedTailAppend(a: seq<string>, x: string)
    ensures QuotedTail(a + [x]) == QuotedTail(a) + " " + Quoted(x)
  {
    if a == [] {
      assert QuotedTail([x]) == " " + Quoted(x) + QuotedTail([]);
    } else {
      assert (a + [x])[1..] == a[1..] + [x];
      QuotedTailAppend(a[1..], x);
    }
  }

  method KeyString(public: string) returns (s: string)
    ensures s == PrintKey(public)
    ensures QUOTE !in public ==> Publishes(s, HEAD + public)
  {
    var parts := ChunkString(public, CHUNK);
    if |parts| == 0 {
      return "";
    }
    s := Quoted(HEAD + parts[0]);
    var i := 1;
    while i < |parts|
      invariant 1 <= i <= |parts|
      invariant s == Quoted(HEAD + parts[0]) + QuotedTail(parts[1..i])
    {
      assert parts[1..i + 1] == parts[1..i] + [parts[i]];
      QuotedTailAppend(parts[1..i], parts[i]);
      s := s + " " + Quoted(parts[i]);
      i := i + 1;
    }
    assert parts[1..] == parts[1..i];
    if QUOTE !in public {
      KeyPublishes(public);
    }
  }

  // ---------------------------------------------------------------- the printed text

  /** The character-strings of a text in the notation of a zone file: what stands between an
      opening and a closing quote (section 5.1 of RFC 1035). */
  function StringsOf(text: string): seq<string> {
    var parts := Split(text, QUOTE);
    seq(|parts| / 2, i requires 0 <= i < |parts| / 2 => parts[2 * i + 1])
  }

  /** Quoted strings with one space between them, each of which a TXT record can hold, and which
      join to `value`. */
  ghost predicate Publishes(text: string, value: string) {
    var parts := Split(text, QUOTE);
    && |parts| % 2 == 1 && |parts| >= 3
    && parts[0] == "" && parts[|parts| - 1] == ""
    && (forall i :: 0 < i < |parts| - 1 && i % 2 == 0 ==> parts[i] == " ")
    && (forall t :: t in StringsOf(text) ==> |t| <= 118 <= TXT_LIMIT)
    && Concat(StringsOf(text)) == value
  }

  lemma {:induction false} TailSplit(parts: seq<string>)
    requires forall p :: p in parts ==> QUOTE !in p
    ensures var t := Split(QuotedTail(parts), QUOTE);
            && |t| == 2 * |parts| + 1 && t[2 * |parts|] == ""
            && forall i :: 0 <= i < |parts| ==> t[2 * i] == " " && t[2 * i + 1] == parts[i]
  {
    if parts != [] {
      var rest := QuotedTail(parts[1..]);
      TailSplit(parts[1..]);
      QuotedSplit(" ", parts[0], rest);
      assert QuotedTail(parts) == " " + Quoted(parts[0]) + rest;
      var t, u := Split(QuotedTail(parts), QUOTE), Split(rest, QUOTE);
      assert t == [" ", parts[0]] + u;
      forall i | 0 < i < |parts|
        ensures t[2 * i] == " " && t[2 * i + 1] == parts[i]
      {
        assert u[2 * (i - 1)] == " " && u[2 * (i - 1) + 1] == parts[1..][i - 1];
      }
    }
  }

  lemma QuotedSplit(gap: string, x: string, rest: string)
    requires QUOTE !in gap && QUOTE !in x
    ensures Split(gap + Quoted(x) + rest, QUOTE) == [gap, x] + Split(rest, QUOTE)
  {
    hide Split;
    var tail := x + [QUOTE] + rest;
    SplitHere(x, QUOTE, rest);
    SplitHere(gap, QUOTE, tail);
    QuotedApart(gap, x, rest);
  }

  lemma QuotedApart(gap: string, x: string, rest: string)
    ensures gap + Quoted(x) + rest == gap + [QUOTE] + (x + [QUOTE] + rest)
  {
  }

  lemma PartsSplit(first: string, tail: seq<string>)
    requires QUOTE !in first && forall p :: p in tail ==> QUOTE !in p
    ensures var text := Quoted(first) + QuotedTail(tail);
            var t := Split(text, QUOTE);
            && |t| == 2 * |tail| + 3 && t[0] == "" && t[|t| - 1] == "" && t[1] == first
            && forall i :: 0 <= i < |tail| ==> t[2 * i + 2] == " " && t[2 * i + 3] == tail[i]
  {
    hide Split, QuotedTail;
    TailSplit(tail);
    QuotedSplit("", first, QuotedTail(tail));
    assert "" + Quoted(first) + QuotedTail(tail) == Quoted(first) + QuotedTail(tail);
    var u := Split(QuotedTail(tail), QUOTE);
    forall i | 0 <= i < |tail|
      ensures (["", first] + u)[2 * i + 2] == u[2 * i] && (["", first] + u)[2 * i + 3] == u[2 * i + 1]
    {
    }
  }

  lemma StringsAre(first: string, tail: seq<string>)
    requires QUOTE !in first && forall p :: p in tail ==> QUOTE !in p
    ensures StringsOf(Quoted(first) + QuotedTail(tail)) == [first] + tail
  {
    hide Split, QuotedTail, Quoted;
    PartsSplit(first, tail);
    var t := Split(Quoted(first) + QuotedTail(tail), QUOTE);
    forall i | 0 < i < |tail| + 1
      ensures t[2 * i + 1] == tail[i - 1]
    {
      assert t[2 * (i - 1) + 3] == tail[i - 1];
    }
  }

  lemma GapsAre(first: string, tail: seq<string>)
    requires QUOTE !in first && forall p :: p in tail ==> QUOTE !in p
    ensures var t := Split(Quoted(first) + QuotedTail(tail), QUOTE);
            |t| == 2 * |tail| + 3 && forall i :: 0 < i < |t| - 1 && i % 2 == 0 ==> t[i] == " "
  {
    hide Split, QuotedTail, Quoted;
    PartsSplit(first, tail);
    var t := Split(Quoted(first) + QuotedTail(tail), QUOTE);
    forall i | 0 < i < |t| - 1 && i % 2 == 0
      ensures t[i] == " "
    {
      assert i == 2 * (i / 2 - 1) + 2;
    }
  }

  /** A printed key is several strings, none too long for a TXT record, that join to the tag list
      and the whole key. */
  lemma KeyPublishes(public: string)
    requires QUOTE !in public
    ensures Publishes(PrintKey(public), HEAD + public)
  {
    hide Chunks, Quoted, QuotedTail, Split, StringsOf;
    var parts := Chunks(public, CHUNK);
    ChunksRejoin(public, CHUNK);
    var first, tail := HEAD + parts[0], parts[1..];
    assert parts[0] in parts && forall p :: p in tail ==> p in parts;
    PartsSplit(first, tail);
    StringsAre(first, tail);
    GapsAre(first, tail);
    KeyJoins(public);
  }

  lemma KeyJoins(public: string)
    ensures var parts := Chunks(public, CHUNK);
            Concat([HEAD + parts[0]] + parts[1..]) == HEAD + public
  {
    hide Chunks;
    var parts := Chunks(public, CHUNK);
    ChunksRejoin(public, CHUNK);
    var first, tail := HEAD + parts[0], parts[1..];
    assert Concat(parts) == parts[0] + Concat(tail);
    assert Concat([first] + tail) == first + Concat(tail) by { assert ([first] + tail)[1..] == tail; }
    assert first + Concat(tail) == HEAD + (parts[0] + Concat(tail));
  }

  // ---------------------------------------------------------------- normalising

  predicate SeparatorAt(s: string, i: nat) {
    i + 2 < |s| && s[i] == QUOTE && s[i + 1] == ' ' && s[i + 2] == QUOTE
  }

  /** Removal of every `" "`, leftmost first and without overlap. */
  function DropSeparators(s: string): string {
    if s == "" then ""
    else if SeparatorAt(s, 0) then DropSeparators(s[3..])
    else [s[0]] + DropSeparators(s[1..])
  }

  function TrimLeft(s: string): string {
    if s != "" && s[0] == QUOTE then TrimLeft(s[1..]) else s
  }

  function TrimRight(s: string): string {
    if s != "" && s[|s| - 1] == QUOTE then TrimRight(s[..|s| - 1]) else s
  }

  function Normalise(s: string): string {
    TrimRight(TrimLeft(DropSeparators(s)))
  }

  lemma {:induction false} DropPlain(a: string, b: string)
    requires QUOTE !in a
    ensures DropSeparators(a + b) == a + DropSeparators(b)
  {
    if a == "" {
      assert a + b == b;
    } else {
      assert (a + b)[1..] == a[1..] + b;
      DropPlain(a[1..], b);
    }
  }

  /** The closing quote of one piece and the opening quote of the next vanish together. */
  lemma DropGap(p: string, t: string)
    requires QUOTE !in p
    ensures DropSeparators([QUOTE] + (" " + Quoted(p) + t)) == p + DropSeparators([QUOTE] + t)
  {
    var s := [QUOTE] + (" " + Quoted(p) + t);
    var rest := p + ([QUOTE] + t);
    assert s == [QUOTE, ' ', QUOTE] + rest;
    assert s[3..] == rest;
    DropPlain(p, [QUOTE] + t);
  }

  lemma {:induction false} DropTail(parts: seq<string>)
    requires forall p :: p in parts ==> QUOTE !in p
    ensures DropSeparators([QUOTE] + QuotedTail(parts)) == Concat(parts) + [QUOTE]
  {
    if parts == [] {
      assert [QUOTE] + QuotedTail(parts) == [QUOTE];
      assert DropSeparators([QUOTE]) == [QUOTE] + DropSeparators("");
    } else {
      hide DropSeparators, Quoted;
      DropGap(parts[0], QuotedTail(parts[1..]));
      DropTail(parts[1..]);
      assert parts[0] + (Concat(parts[1..]) + [QUOTE]) == Concat(parts) + [QUOTE];
    }
  }

  lemma TrimBoth(s: string)
    requires QUOTE !in s
    ensures TrimRight(TrimLeft(Quoted(s))) == s
  {
    var q := Quoted(s);
    assert q[1..] == s + [QUOTE];
    if s == "" {
      assert q[1..] == [QUOTE];
      assert TrimLeft([QUOTE]) == TrimLeft("");
    } else {
      assert TrimLeft(q[1..]) == q[1..];
      assert q[1..][..|s|] == s;
    }
  }

  /** Pieces in quotes normalise to what they hold. */
  lemma NormalisedPieces(first: string, tail: seq<string>)
    requires first != "" && first[0] != ' ' && QUOTE !in first
    requires forall p :: p in tail ==> QUOTE !in p
    ensures Normalise(Quoted(first) + QuotedTail(tail)) == first + Concat(tail)
  {
    hide TrimLeft, TrimRight, Concat, QuotedTail;
    var rest := [QUOTE] + QuotedTail(tail);
    var s := Quoted(first) + QuotedTail(tail);
    assert s[1..] == first + rest;
    assert s[1] == first[0];
    DropPlain(first, rest);
    DropTail(tail);
    PlainConcat(tail);
    assert DropSeparators(s) == [s[0]] + (first + (Concat(tail) + [QUOTE]));
    assert DropSeparators(s) == Quoted(first + Concat(tail));
    TrimBoth(first + Concat(tail));
  }

  lemma {:induction false} PlainConcat(parts: seq<string>)
    requires forall p :: p in parts ==> QUOTE !in p
    ensures QUOTE !in Concat(parts)
  {
    if parts != [] {
      PlainConcat(parts[1..]);
    }
  }

  /** A printed key normalises to the tag list with the whole key in it. */
  lemma NormalisedKey(public: string)
    requires QUOTE !in public
    ensures Normalise(PrintKey(public)) == HEAD + public
  {
    hide Normalise, Quoted, QuotedTail, Chunks;
    var parts := Chunks(public, CHUNK);
    ChunksRejoin(public, CHUNK);
    assert parts[0] in parts;
    NormalisedPieces(HEAD + parts[0], parts[1..]);
    assert HEAD + parts[0] + Concat(parts[1..]) == HEAD + (parts[0] + Concat(parts[1..]));
    assert Concat(parts) == parts[0] + Concat(parts[1..]);
  }

  /** A quote-free answer normalises to itself, except that a lone space disappears. */
  lemma NormalisedAnswer(txt: string)
    requires QUOTE !in txt
    ensures Normalise(Quoted(txt)) == if txt == " " then "" else txt
  {
    var s := Quoted(txt);
    assert s[1..] == txt + [QUOTE];
    if txt == " " {
      assert SeparatorAt(s, 0);
      assert s[3..] == "";
      assert DropSeparators(s) == DropSeparators(s[3..]) == "";
    } else {
      assert |txt| >= 2 ==> s[2] == txt[1];
      assert !SeparatorAt(s, 0);
      DropPlain(txt, [QUOTE]);
      assert DropSeparators([QUOTE]) == [QUOTE] + DropSeparators("");
      assert DropSeparators(s) == s;
      TrimBoth(txt);
    }
  }

  // ---------------------------------------------------------------- checking

  datatype Answer = Mx(preference: nat, host: string) | Txt(strings: seq<string>) | Other

  /** Panic: the source casts an answer to the type it asked for without looking. */
  datatype Verdict = Match | UnknownType | ExchangeFailed | NoRecord | NoMatch | Panic

  predicate RightKind(rtype: string, a: Answer) {
    (rtype == "MX" ==> a.Mx?) && (rtype == "TXT" ==> a.Txt?)
  }

  predicate Agrees(rtype: string, value: string, a: Answer) {
    if rtype == "MX" then a.Mx? && Decimal(a.preference) + " " + a.host == value
    else rtype == "TXT" && a.Txt? && Normalise(Quoted(Concat(a.strings))) == Normalise(value)
  }

  /** Record.Check, given what the resolver said. */
  method Check(rtype: string, value: string, knownType: bool, response: Option<seq<Answer>>)
    returns (v: Verdict)
    ensures v == UnknownType <==> !knownType
    ensures v == ExchangeFailed <==> knownType && response.None?
    ensures v == NoRecord <==> knownType && response == Some([])
    ensures v == Match <==>
            knownType && response.Some? &&
            exists i :: 0 <= i < |response.value| && Agrees(rtype, value, response.value[i]) &&
                        forall j :: 0 <= j < i ==> RightKind(rtype, response.value[j])
    ensures v == NoMatch <==>
            knownType && response.Some? && response.value != [] &&
            forall i :: 0 <= i < |response.value| ==>
              RightKind(rtype, response.value[i]) && !Agrees(rtype, value, response.value[i])
  {
    if !knownType {
      return UnknownType;
    }
    if response.None? {
      return ExchangeFailed;
    }
    var answers := response.value;
    if |answers| == 0 {
      return NoRecord;
    }
    var i := 0;
    while i < |answers|
      invariant 0 <= i <= |answers|
      invariant forall j :: 0 <= j < i ==>
                  RightKind(rtype, answers[j]) && !Agrees(rtype, value, answers[j])
    {
      var a := answers[i];
      if rtype == "MX" {
        if !a.Mx? {
          return Panic;
        }
        var found := Decimal(a.preference) + " " + a.host;
        if found == value {
          return Match;
        }
      } else if rtype == "TXT" {
        if !a.Txt? {
          return Panic;
        }
        var found := Quoted(Concat(a.strings));
        if Normalise(found) == Normalise(value) {
          return Match;
        }
      }
      i := i + 1;
    }
    return NoMatch;
  }

  /** The DKIM check is exact: however the resolver cuts its answer into strings, it agrees
      with a printed key just when the joined answer is the tag list followed by that key. */
  lemma KeyCheckExact(public: string, strings: seq<string>)
    requires QUOTE !in public && QUOTE !in Concat(strings)
    ensures Agrees("TXT", PrintKey(public), Txt(strings)) <==> Concat(strings) == HEAD + public
  {
    NormalisedKey(public);
    NormalisedAnswer(Concat(strings));
    assert |HEAD + public| >= 18;
  }

  /** The strings a resolver returns for a published key. */
  function Published(public: string): seq<string> {
    [HEAD + Chunks(public, CHUNK)[0]] + Chunks(public, CHUNK)[1..]
  }

  lemma PublishedJoins(public: string)
    ensures Concat(Published(public)) == HEAD + public
  {
    var parts := Chunks(public, CHUNK);
    ChunksRejoin(public, CHUNK);
    assert Published(public)[1..] == parts[1..];
    assert HEAD + (parts[0] + Concat(parts[1..])) == HEAD + parts[0] + Concat(parts[1..]);
  }

  /** What is published for one key is accepted for that key and for no other. */
  lemma KeyRoundTrip(public: string, other: string)
    requires QUOTE !in public && QUOTE !in other
    ensures Agrees("TXT", PrintKey(other), Txt(Published(public))) <==> other == public
  {
    PublishedJoins(public);
    KeyCheckExact(other, Published(public));
    assert other == (HEAD + other)[|HEAD|..] && public == (HEAD + public)[|HEAD|..];
  }

  /** The fixed TXT records are one quoted string; they agree with exactly that text. */
  lemma QuotedCheckExact(text: string, strings: seq<string>)
    requires QUOTE !in text && QUOTE !in Concat(strings) && text != " " && text != ""
    ensures Agrees("TXT", Quoted(text), Txt(strings)) <==> Concat(strings) == text
  {
    NormalisedAnswer(text);
    NormalisedAnswer(Concat(strings));
  }

  /** The two exchangers that a domain must publish. */
  lemma ExchangersChecked(a: Answer)
    requires a.Mx?
    ensures Agrees("MX", "10 ehlo.mx.ax.", a) <==> a == Mx(10, "ehlo.mx.ax.")
    ensures Agrees("MX", "20 helo.mx.ax.", a) <==> a == Mx(20, "helo.mx.ax.")
  {
    assert Decimal(10) == "10" && Decimal(20) == "20";
    assert "10" + " " + "ehlo.mx.ax." == "10 ehlo.mx.ax." && "20" + " " + "helo.mx.ax." == "20 helo.mx.ax.";
    hide Decimal;
    MxCheckExact(10, "ehlo.mx.ax.", a);
    MxCheckExact(20, "helo.mx.ax.", a);
  }

  lemma MxCheckExact(preference: nat, host: string, a: Answer)
    requires a.Mx?
    ensures Agrees("MX", Decimal(preference) + " " + host, a) <==> a == Mx(preference, host)
  {
    if Agrees("MX", Decimal(preference) + " " + host, a) {
      CutOnce(Decimal(a.preference), a.host, Decimal(preference), host, ' ');
      DecimalInjective(a.preference, preference);
    }
  }
}
