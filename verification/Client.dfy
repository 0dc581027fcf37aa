/** The SMTP client of section 3 of RFC 5321: what it sends, in what order, to any server. */
module Client {
  import opened Text

  // ---------------------------------------------------------------- the wire

  /** What came of a command: it could not be written, no reply could be read, or a reply. */
  datatype Outcome = WriteFails | ReadFails | Reply(code: nat, text: string)

  datatype Command =
    | Ehlo(name: string)
    | Helo(name: string)
    | StartTls
    | Auth(mechanism: string, response: string)
    | AuthReply(response: string)
    | AuthCancel
    | MailFrom(path: string, body8: bool)
    | RcptTo(address: string)
    | DataCommand
    | Payload(bytes: string)
    | Quit

  datatype Exchange = Exchange(command: Command, outcome: Outcome)

  /** The rule of `textproto.ReadResponse`: one, two or three leading digits, or 0 for any code. */
  predicate Expected(o: Outcome, wanted: nat) {
    o.Reply? &&
    if 1 <= wanted < 10 then o.code / 100 == wanted
    else if 10 <= wanted < 100 then o.code / 10 == wanted
    else if 100 <= wanted < 1000 then o.code == wanted
    else true
  }

  /** The codes that the client waits for. */
  lemma Codes(o: Outcome)
    ensures Expected(o, 250) <==> o.Reply? && o.code == 250
    ensures Expected(o, 25) <==> o.Reply? && 250 <= o.code <= 259
    ensures Expected(o, 220) <==> o.Reply? && o.code == 220
    ensures Expected(o, 354) <==> o.Reply? && o.code == 354
    ensures Expected(o, 221) <==> o.Reply? && o.code == 221
  {
  }

  /** Keywords with their parameters. */
  type Extensions = map<string, string>

  /** `strings.SplitN(line, " ", 2)`. */
  function Keyword(line: string): (string, string) {
    if line == "" then ("", "")
    else if line[0] == ' ' then ("", line[1..])
    else ([line[0]] + Keyword(line[1..]).0, Keyword(line[1..]).1)
  }

  function ExtensionsOf(lines: seq<string>): Extensions {
    if lines == [] then map[]
    else
      var k := Keyword(lines[|lines| - 1]);
      ExtensionsOf(lines[..|lines| - 1])[k.0 := k.1]
  }

  /** What a reply to EHLO offers: its first line is a greeting. */
  function Offered(text: string): Extensions {
    ExtensionsOf(Split(text, '\n')[1..])
  }

  /** A line names a word: alone, or with a parameter behind a space. */
  predicate Names(line: string, word: string) {
    line == word || word + " " <= line
  }

  /** What a line that names the word gives as its parameter. */
  function ParameterOf(line: string, word: string): string
    requires Names(line, word)
  {
    if line == word then "" else line[|word| + 1..]
  }

  /** The word is named in place i of the lines, and in no later place. */
  predicate LastNamed(lines: seq<string>, word: string, i: nat) {
    i < |lines| && Names(lines[i], word) && forall j :: i < j < |lines| ==> !Names(lines[j], word)
  }

  /** Some line of the reply but the first names the word. */
  predicate Announces(text: string, word: string) {
    exists i :: 1 <= i < |Split(text, '\n')| && Names(Split(text, '\n')[i], word)
  }

  lemma {:induction false} KeywordNames(line: string, word: string)
    requires ' ' !in word
    ensures Keyword(line).0 == word <==> Names(line, word)
    ensures Names(line, word) ==> Keyword(line).1 == ParameterOf(line, word)
  {
    if line == "" {
    } else if line[0] == ' ' {
      assert word == "" ==> word + " " <= line && line[|word| + 1..] == line[1..];
    } else if word != "" && word[0] == line[0] {
      KeywordNames(line[1..], word[1..]);
      assert word == [word[0]] + word[1..] && line == [line[0]] + line[1..];
      assert word + " " == [word[0]] + (word[1..] + " ");
      assert word + " " <= line <==> word[1..] + " " <= line[1..] by { SameHead(word[0], word[1..] + " ", line[1..]); }
    }
  }

  lemma SameHead(c: char, a: string, b: string)
    ensures [c] + a <= [c] + b <==> a <= b
  {
    assert ([c] + a)[1..] == a && ([c] + b)[1..] == b;
    if a <= b {
      assert b == a + b[|a|..];
      assert [c] + b == ([c] + a) + b[|a|..];
    }
    if [c] + a <= [c] + b {
      assert forall i :: 0 <= i < |a| ==> a[i] == ([c] + a)[i + 1] == ([c] + b)[i + 1] == b[i];
    }
  }

  lemma {:induction false} ExtensionsNamed(lines: seq<string>, word: string)
    requires ' ' !in word
    ensures word in ExtensionsOf(lines) <==> exists i :: 0 <= i < |lines| && Names(lines[i], word)
  {
    hide Names, Keyword;
    if lines != [] {
      var n := |lines| - 1;
      var init := lines[..n];
      ExtensionsNamed(init, word);
      KeywordNames(lines[n], word);
      assert forall i :: 0 <= i < n ==> init[i] == lines[i];
    }
  }

  lemma {:induction false} ParameterNamed(lines: seq<string>, word: string, i: nat)
    requires ' ' !in word && LastNamed(lines, word, i)
    ensures word in ExtensionsOf(lines) && ExtensionsOf(lines)[word] == ParameterOf(lines[i], word)
  {
    hide Names, Keyword, ParameterOf;
    var n := |lines| - 1;
    KeywordNames(lines[n], word);
    if i < n {
      assert LastNamed(lines[..n], word, i);
      ParameterNamed(lines[..n], word, i);
    }
  }

  /** What a reply to EHLO offers (section 4.1.1.1 of RFC 5321): a keyword is offered exactly when a
      line behind the greeting names it, with the parameter that the last such line gives. */
  lemma OfferedWhen(text: string, word: string)
    requires ' ' !in word
    ensures word in Offered(text) <==> Announces(text, word)
    ensures forall i: nat | 1 <= i && LastNamed(Split(text, '\n'), word, i) ::
              word in Offered(text) && Offered(text)[word] == ParameterOf(Split(text, '\n')[i], word)
  {
    hide Names, ExtensionsOf;
    var all := Split(text, '\n');
    var lines := all[1..];
    ExtensionsNamed(lines, word);
    assert forall i :: 1 <= i < |all| ==> all[i] == lines[i - 1];
    assert forall i :: 0 <= i < |lines| ==> lines[i] == all[i + 1];
    forall i: nat | 1 <= i && LastNamed(all, word, i)
      ensures word in Offered(text) && Offered(text)[word] == ParameterOf(all[i], word)
    {
      assert LastNamed(lines, word, i - 1);
      ParameterNamed(lines, word, i - 1);
    }
  }

  predicate OneLine(s: string) {
    '\n' !in s && '\r' !in s
  }

  // ---------------------------------------------------------------- the order of commands

  /** How far a session has come, judged from the wire alone (section 4.1.4 of RFC 5321). */
  datatype Stage =
    | Fresh
    | Refused                                      // EHLO failed: HELO may follow
    | Ready(ext: Option<Extensions>, tls: bool)    // greeted; None after HELO
    | Upgraded                                     // STARTTLS accepted: EHLO must follow
    | Challenged(ext: Option<Extensions>, tls: bool)
    | Rejected                                     // AUTH ended with another code
    | Cancelled
    | Mailed | Addressed | Body | Accepted | Closed
    | Halted                                       // a step failed: nothing may follow
    | Broken                                       // a command out of order

  predicate Offers(ext: Option<Extensions>, keyword: string) {
    ext.Some? && keyword in ext.value
  }

  function AuthStage(ext: Option<Extensions>, tls: bool, o: Outcome): Stage {
    if !o.Reply? then Halted
    else if o.code == 235 then Ready(ext, tls)
    else if o.code == 334 then Challenged(ext, tls)
    else Rejected
  }

  function Next(st: Stage, x: Exchange): Stage {
    var o := x.outcome;
    match (st, x.command)
    case (Fresh, Ehlo(_)) => if Expected(o, 250) then Ready(Some(Offered(o.text)), false) else Refused
    case (Refused, Helo(_)) => if Expected(o, 250) then Ready(None, false) else Halted
    case (Ready(ext, tls), StartTls) =>
      if tls || !Offers(ext, "STARTTLS") then Broken else if Expected(o, 220) then Upgraded else Halted
    case (Upgraded, Ehlo(_)) => if Expected(o, 250) then Ready(Some(Offered(o.text)), true) else Halted
    case (Ready(ext, tls), Auth(_, _)) => AuthStage(ext, tls, o)
    case (Challenged(ext, tls), AuthReply(_)) => AuthStage(ext, tls, o)
    case (Challenged(_, _), AuthCancel) => Cancelled
    case (Rejected, AuthCancel) => Cancelled
    case (Ready(ext, _), MailFrom(_, body8)) =>
      if body8 != Offers(ext, "8BITMIME") then Broken else if Expected(o, 250) then Mailed else Halted
    case (Mailed, RcptTo(_)) => if Expected(o, 25) then Addressed else Halted
    case (Addressed, RcptTo(_)) => if Expected(o, 25) then Addressed else Halted
    case (Addressed, DataCommand) => if Expected(o, 354) then Body else Halted
    case (Body, Payload(_)) => if Expected(o, 250) then Accepted else Halted
    case (Accepted, Quit) => Closed
    case (Cancelled, Quit) => Closed
    case (Ready(_, _), Quit) => Closed
    case _ => Broken
  }

  function StageOf(t: seq<Exchange>): Stage {
    if t == [] then Fresh else Next(StageOf(t[..|t| - 1]), t[|t| - 1])
  }

  lemma StageAppend(t: seq<Exchange>, x: Exchange)
    ensures StageOf(t + [x]) == Next(StageOf(t), x)
  {
    assert (t + [x])[..|t|] == t;
  }

  /** An order once broken stays broken, so every beginning of an orderly trace is orderly. */
  lemma {:induction false} PrefixOrderly(t: seq<Exchange>, n: nat)
    requires n <= |t| && StageOf(t) != Broken
    ensures StageOf(t[..n]) != Broken
    decreases |t|
  {
    if n < |t| {
      PrefixOrderly(t[..|t| - 1], n);
      assert t[..|t| - 1][..n] == t[..n];
    } else {
      assert t[..n] == t;
    }
  }

  /** The reply to the latest EHLO; None when there was none, or a HELO came after it. */
  function LatestGreeting(t: seq<Exchange>): Option<Outcome> {
    if t == [] then None
    else
      var last := t[|t| - 1];
      if last.command.Ehlo? then Some(last.outcome)
      else if last.command.Helo? then None
      else LatestGreeting(t[..|t| - 1])
  }

  function LatestExtensions(t: seq<Exchange>): Option<Extensions> {
    var g := LatestGreeting(t);
    if g.Some? && Expected(g.value, 250) then Some(Offered(g.value.text)) else None
  }

  /** The reply to the latest EHLO names the word. */
  predicate Announced(t: seq<Exchange>, word: string) {
    var g := LatestGreeting(t);
    g.Some? && Expected(g.value, 250) && Announces(g.value.text, word)
  }

  lemma AnnouncedWhen(t: seq<Exchange>, word: string)
    requires ' ' !in word
    ensures Offers(LatestExtensions(t), word) <==> Announced(t, word)
  {
    hide Offered, Announces;
    var g := LatestGreeting(t);
    if g.Some? && g.value.Reply? {
      OfferedWhen(g.value.text, word);
    }
  }

  /** A server greeted with EHLO that names the word in its reply. */
  predicate Welcomes(x: Exchange, word: string) {
    x.command.Ehlo? && Succeeded(x, 250) && Announces(x.outcome.text, word)
  }

  /** No command but STARTTLS follows the greeting of a server that offers it. */
  predicate Encrypts(t: seq<Exchange>) {
    |t| > 1 && Welcomes(t[0], "STARTTLS") ==> t[1].command == StartTls
  }

  /** One EHLO that was accepted, or a HELO after it. */
  predicate JustGreeted(t: seq<Exchange>) {
    1 <= |t| <= 2 && t[0].command.Ehlo? && (|t| == 1 <==> Succeeded(t[0], 250))
  }

  lemma WelcomesWhen(t: seq<Exchange>, word: string)
    requires JustGreeted(t) && StageOf(t).Ready? && (|t| == 2 ==> StageOf(t) == Ready(None, false)) && ' ' !in word
    ensures Offers(StageOf(t).ext, word) <==> |t| == 1 && Welcomes(t[0], word)
  {
    hide Offered, Announces;
    if |t| == 1 {
      assert t[..0] == [] && StageOf(t) == Next(StageOf([]), t[0]);
      OfferedWhen(t[0].outcome.text, word);
    }
  }

  /** Behind a greeting that offers no STARTTLS anything may follow, and else STARTTLS. */
  lemma EncryptsOn(base: seq<Exchange>, t: seq<Exchange>)
    requires JustGreeted(base) && base <= t
    requires |base| == 1 && Welcomes(base[0], "STARTTLS") && |t| > 1 ==> t[1].command == StartTls
    ensures Encrypts(t)
  {
    hide Announces;
    assert t[0] == base[0];
  }

  lemma EncryptsAfter(base: seq<Exchange>, t: seq<Exchange>)
    requires base != [] && base <= t && Encrypts(base) && (|base| == 1 ==> !Welcomes(base[0], "STARTTLS"))
    ensures Encrypts(t)
  {
    hide Welcomes;
    assert t[0] == base[0] && (|base| > 1 ==> t[1] == base[1]);
  }

  predicate Secured(t: seq<Exchange>) {
    exists i | 0 <= i < |t| :: t[i].command == StartTls
  }

  predicate Succeeded(x: Exchange, wanted: nat) {
    Expected(x.outcome, wanted)
  }

  /** What the order means, command by command. */
  ghost predicate InOrder(before: seq<Exchange>, c: Command) {
    if before == [] then c.Ehlo?
    else
      var last := before[|before| - 1];
      match c
      case Ehlo(_) => last.command == StartTls && Succeeded(last, 220)
      case Helo(_) => |before| == 1 && last.command.Ehlo? && !Succeeded(last, 250)
      case StartTls => Announced(before, "STARTTLS") && !Secured(before)
      case MailFrom(_, body8) => body8 == Announced(before, "8BITMIME")
      case RcptTo(_) =>
        (last.command.MailFrom? && Succeeded(last, 250)) || (last.command.RcptTo? && Succeeded(last, 25))
      case DataCommand => last.command.RcptTo? && Succeeded(last, 25)
      case Payload(_) => last.command == DataCommand && Succeeded(last, 354)
      case Auth(_, _) => !last.command.MailFrom? && !last.command.RcptTo?
      case AuthReply(_) => InAuth(last) && Succeeded(last, 334)
      case AuthCancel => InAuth(last) && last.outcome.Reply? && last.outcome.code != 235
      case Quit =>
        !last.command.MailFrom? && !last.command.RcptTo? && last.command != DataCommand && last.command != Quit
  }

  predicate InAuth(x: Exchange) {
    x.command.Auth? || x.command.AuthReply?
  }

  /** What a stage says about the commands that led to it. */
  ghost predicate StageFits(t: seq<Exchange>) {
    if t == [] then StageOf(t) == Fresh
    else
      var last := t[|t| - 1];
      match StageOf(t)
      case Fresh => false
      case Refused => |t| == 1 && last.command.Ehlo? && !Succeeded(last, 250)
      case Ready(ext, tls) => ext == LatestExtensions(t) && tls == Secured(t) && Greeted(last)
      case Challenged(ext, tls) =>
        ext == LatestExtensions(t) && tls == Secured(t) && InAuth(last) && Succeeded(last, 334)
      case Rejected => InAuth(last) && last.outcome.Reply? && last.outcome.code != 235
      case Upgraded => last.command == StartTls && Succeeded(last, 220)
      case Cancelled => last.command == AuthCancel
      case Mailed => last.command.MailFrom? && Succeeded(last, 250)
      case Addressed => last.command.RcptTo? && Succeeded(last, 25)
      case Body => last.command == DataCommand && Succeeded(last, 354)
      case Accepted => last.command.Payload? && Succeeded(last, 250)
      case _ => true
  }

  predicate Greeted(last: Exchange) {
    last.command.Ehlo? || last.command.Helo? || last.command.Auth? || last.command.AuthReply?
  }

  lemma StepInOrder(p: seq<Exchange>, x: Exchange)
    requires StageFits(p) && Next(StageOf(p), x) != Broken
    ensures InOrder(p, x.command)
  {
    hide Offered, LatestExtensions, Secured, StageOf, Announced;
    AnnouncedWhen(p, "STARTTLS");
    AnnouncedWhen(p, "8BITMIME");
  }

  lemma StepFits(p: seq<Exchange>, x: Exchange)
    requires StageFits(p) && Next(StageOf(p), x) != Broken
    ensures StageFits(p + [x])
  {
    hide Offered, LatestExtensions, Secured, StageOf, Offers;
    var t := p + [x];
    StageAppend(p, x);
    assert t[|t| - 1] == x;
    SecuredAppend(p, x);
    GreetingAppend(p, x);
    SecuredStart(p);
  }

  lemma SecuredStart(p: seq<Exchange>)
    ensures p == [] ==> !Secured(p)
    ensures |p| == 1 && p[0].command.Ehlo? ==> !Secured(p)
    ensures p != [] && p[|p| - 1].command == StartTls ==> Secured(p)
  {
  }

  lemma GreetingAppend(p: seq<Exchange>, x: Exchange)
    ensures x.command.Ehlo? && Expected(x.outcome, 250) ==> LatestExtensions(p + [x]) == Some(Offered(x.outcome.text))
    ensures x.command.Helo? ==> LatestExtensions(p + [x]) == None
    ensures !x.command.Ehlo? && !x.command.Helo? ==> LatestExtensions(p + [x]) == LatestExtensions(p)
  {
    assert (p + [x])[..|p|] == p;
  }

  lemma SecuredAppend(p: seq<Exchange>, x: Exchange)
    ensures Secured(p + [x]) <==> Secured(p) || x.command == StartTls
  {
    var t := p + [x];
    assert forall i | 0 <= i < |p| :: t[i] == p[i];
    assert t[|p|] == x;
  }

  /** In an unbroken trace every command is where section 4.1.4 of RFC 5321 and the extensions
      allow it, whatever the server replied. */
  lemma {:induction false} Orderly(t: seq<Exchange>)
    requires StageOf(t) != Broken
    ensures StageFits(t)
    ensures forall i | 0 <= i < |t| :: InOrder(t[..i], t[i].command)
    decreases |t|
  {
    hide InOrder, StageFits, Next;
    if t == [] {
      EmptyFits();
    } else {
      var n := |t| - 1;
      assert t == t[..n] + [t[n]];
      PrefixOrderly(t, n);
      Orderly(t[..n]);
      StageAppend(t[..n], t[n]);
      StepInOrder(t[..n], t[n]);
      StepFits(t[..n], t[n]);
      assert forall i | 0 <= i < n :: t[..n][..i] == t[..i] && t[..n][i] == t[i];
    }
  }

  lemma EmptyFits()
    ensures StageFits([])
  {
  }

  // what single commands lead to

  lemma NextEhlo(name: string, o: Outcome)
    ensures Next(Fresh, Exchange(Ehlo(name), o)) ==
            if Expected(o, 250) then Ready(Some(Offered(o.text)), false) else Refused
    ensures Next(Upgraded, Exchange(Ehlo(name), o)) ==
            if Expected(o, 250) then Ready(Some(Offered(o.text)), true) else Halted
  {
  }

  lemma NextHelo(name: string, o: Outcome)
    ensures Next(Refused, Exchange(Helo(name), o)) == if Expected(o, 250) then Ready(None, false) else Halted
  {
  }

  lemma NextTls(ext: Option<Extensions>, o: Outcome)
    requires Offers(ext, "STARTTLS")
    ensures Next(Ready(ext, false), Exchange(StartTls, o)) == if Expected(o, 220) then Upgraded else Halted
  {
  }

  lemma NextTlsUnoffered(st: Stage, o: Outcome)
    requires st.Ready? && !(!st.tls && Offers(st.ext, "STARTTLS"))
    ensures Next(st, Exchange(StartTls, o)) == Broken
  {
  }

  lemma NextBroken(x: Exchange)
    ensures Next(Broken, x) == Broken
  {
  }

  lemma NextData(st: Stage, o: Outcome)
    ensures st == Addressed ==> Next(st, Exchange(DataCommand, o)) == if Expected(o, 354) then Body else Halted
    ensures st == Mailed ==> Next(st, Exchange(DataCommand, o)) == Broken
  {
  }

  lemma NextMail(ext: Option<Extensions>, tls: bool, path: string, o: Outcome)
    ensures Next(Ready(ext, tls), Exchange(MailFrom(path, Offers(ext, "8BITMIME")), o)) ==
            if Expected(o, 250) then Mailed else Halted
  {
  }

  lemma NextQuit(st: Stage, o: Outcome)
    requires st in {Accepted, Cancelled} || st.Ready?
    ensures Next(st, Exchange(Quit, o)) == Closed
  {
  }

  lemma NextAuth(st: Stage, c: Command, o: Outcome)
    requires (c.Auth? && st.Ready?) || (c.AuthReply? && st.Challenged?)
    ensures Next(st, Exchange(c, o)) == AuthStage(st.ext, st.tls, o)
  {
  }

  lemma NextCancel(st: Stage, o: Outcome)
    requires st.Challenged? || st == Rejected
    ensures Next(st, Exchange(AuthCancel, o)) == Cancelled
  {
  }

  // ---------------------------------------------------------------- mechanisms

  /** PLAIN of RFC 4616 and CRAM-MD5 of RFC 2195; `digest` is the keyed hash in hexadecimal. */
  datatype Mechanism =
    | Plain(identity: string, username: string, password: string, host: string)
    | CramMd5(username: string, secret: string, digest: (string, string) -> string)

  /** Base64, as the client uses it. */
  datatype Coding = Coding(encode: string -> string, decode: string -> Option<string>)

  predicate IsLocalhost(name: string) {
    name == "localhost" || name == "127.0.0.1" || name == "::1"
  }

  function MechanismName(a: Mechanism): string {
    if a.Plain? then "PLAIN" else "CRAM-MD5"
  }

  /** The initial response; None when the mechanism refuses the server. */
  function StartWith(a: Mechanism, server: string, tls: bool): Option<string> {
    match a
    case Plain(identity, username, password, host) =>
      if (!tls && !IsLocalhost(server)) || server != host then None
      else Some(identity + "\0" + username + "\0" + password)
    case CramMd5(_, _, _) => Some("")
  }

  /** PLAIN shows the password to its own host alone, and only over TLS or on the same machine. */
  predicate MayShow(a: Mechanism, server: string, tls: bool) {
    a.Plain? ==> server == a.host && (tls || server in {"localhost", "127.0.0.1", "::1"})
  }

  lemma StartsWhen(a: Mechanism, server: string, tls: bool)
    ensures StartWith(a, server, tls).Some? <==> MayShow(a, server, tls)
  {
  }

  /** What the lines of an AUTH carry: PLAIN its one response, where that may be shown; CRAM-MD5 nothing
      at first, and then for each challenge the name and the keyed hash of that challenge. */
  ghost predicate Answered(t: seq<Exchange>, a: Mechanism, coding: Coding, server: string, tls: bool) {
    forall i :: 0 <= i < |t| ==> AnsweredAt(t, a, coding, server, tls, i)
  }

  ghost predicate AnsweredAt(t: seq<Exchange>, a: Mechanism, coding: Coding, server: string, tls: bool, i: nat)
    requires i < |t|
  {
    match t[i].command
    case Auth(name, response) =>
      && i == 0 && MayShow(a, server, tls)
      && (a.Plain? ==>
            name == "PLAIN" && response == coding.encode(a.identity + "\0" + a.username + "\0" + a.password))
      && (a.CramMd5? ==> name == "CRAM-MD5" && response == coding.encode(""))
    case AuthReply(response) =>
      && i > 0 && a.CramMd5? && t[i - 1].outcome.Reply? && t[i - 1].outcome.code == 334
      && var challenge := coding.decode(t[i - 1].outcome.text);
         challenge.Some? && response == coding.encode(a.username + " " + a.digest(a.secret, challenge.value))
    case _ => true
  }

  lemma AnsweredMore(t: seq<Exchange>, x: Exchange, a: Mechanism, coding: Coding, server: string, tls: bool)
    requires Answered(t, a, coding, server, tls) && AnsweredAt(t + [x], a, coding, server, tls, |t|)
    ensures Answered(t + [x], a, coding, server, tls)
  {
    var u := t + [x];
    forall i | 0 <= i < |t|
      ensures AnsweredAt(u, a, coding, server, tls, i)
    {
      assert AnsweredAt(t, a, coding, server, tls, i) && u[i] == t[i] && (i > 0 ==> u[i - 1] == t[i - 1]);
    }
  }

  lemma QuitAnswered(x: Exchange, a: Mechanism, coding: Coding, server: string, tls: bool)
    requires x.command == Quit
    ensures Answered([x], a, coding, server, tls)
  {
  }

  lemma FirstAnswered(o: Outcome, a: Mechanism, coding: Coding, server: string, tls: bool)
    requires StartWith(a, server, tls).Some?
    ensures var line := Auth(MechanismName(a), coding.encode(StartWith(a, server, tls).value));
            Answered([Exchange(line, o)], a, coding, server, tls)
  {
  }

  lemma NextAnswered(t: seq<Exchange>, x: Exchange, a: Mechanism, coding: Coding, server: string, tls: bool)
    requires t != [] && Answered(t, a, coding, server, tls) && x.command.AuthReply?
    requires var o := t[|t| - 1].outcome;
             && o.Reply? && o.code == 334 && coding.decode(o.text).Some?
             && NextTurn(a, coding.decode(o.text).value, true).Send?
             && x.command.response == coding.encode(NextTurn(a, coding.decode(o.text).value, true).response)
    ensures Answered(t + [x], a, coding, server, tls)
  {
    hide Answered;
    AnsweredMore(t, x, a, coding, server, tls);
  }

  lemma AbortedAnswered(before: seq<Exchange>, t: seq<Exchange>, after: seq<Exchange>, a: Mechanism, coding: Coding,
                        server: string, tls: bool)
    requires Answered(t, a, coding, server, tls)
    requires |after| == |before| + |t| + 2 && after[..|before| + |t|] == before + t
    requires after[|after| - 2].command == AuthCancel && after[|after| - 1].command == Quit
    ensures Answered(after[|before|..], a, coding, server, tls)
  {
    hide Answered;
    var u := after[|before|..];
    var cancel, quit := after[|after| - 2], after[|after| - 1];
    assert t == (before + t)[|before|..];
    assert u == t + [cancel] + [quit];
    AnsweredMore(t, cancel, a, coding, server, tls);
    AnsweredMore(t + [cancel], quit, a, coding, server, tls);
  }

  datatype Turn = Fail | Done | Send(response: string)

  function NextTurn(a: Mechanism, challenge: string, more: bool): Turn {
    match a
    case Plain(_, _, _, _) => if more then Fail else Done
    case CramMd5(username, secret, digest) => if more then Send(username + " " + digest(secret, challenge)) else Done
  }

  // ---------------------------------------------------------------- the client

  /** The server's answer in turn n; after the end of its script no reply can be read. */
  function AnswerAt(script: seq<Outcome>, n: nat): Outcome {
    if n < |script| then script[n] else ReadFails
  }

  /** The outcomes on the wire are the server's, one a command and in order. */
  ghost predicate Scripted(t: seq<Exchange>, script: seq<Outcome>) {
    forall i :: 0 <= i < |t| ==> t[i].outcome == AnswerAt(script, i)
  }

  /** A connection to a server that answers by a script; after its end no reply can be read. */
  class SmtpClient {
    const script: seq<Outcome>
    const serverName: string
    const closeFails: bool
    var trace: seq<Exchange>
    var localName: string
    var didHello: bool
    var helloError: bool
    var ext: Option<Extensions>
    var mechanisms: seq<string>
    var tls: bool

    /** What the fields say is what the wire shows. */
    ghost predicate Valid()
      reads this
    {
      && didHello == (trace != []) && Scripted(trace, script)
      && (StageOf(trace) == Fresh <==> trace == [])
      && (helloError ==> StageOf(trace) == Halted)
      && StageOf(trace) !in {Refused, Upgraded}
      && (trace == [] ==> ext == None && !tls)
      && match StageOf(trace)
         case Ready(e, t) => ext == e && tls == t
         case Challenged(e, t) => ext == e && tls == t
         case _ => true
    }

    constructor (host: string, s: seq<Outcome>, close: bool)
      ensures Valid() && trace == [] && script == s && serverName == host && closeFails == close &&
          localName == "localhost"
    {
      script, serverName, closeFails := s, host, close;
      trace, localName, didHello, helloError, ext, mechanisms, tls := [], "localhost", false, false, None, [], false;
    }

    function Answer(): Outcome
      reads this
    {
      AnswerAt(script, |trace|)
    }

    method Cmd(wanted: nat, c: Command) returns (ok: bool, o: Outcome)
      modifies this`trace
      ensures o == old(Answer()) && ok == Expected(o, wanted)
      ensures trace == old(trace) + [Exchange(c, o)] && StageOf(trace) == Next(StageOf(old(trace)), Exchange(c, o))
      ensures Scripted(old(trace), script) ==> Scripted(trace, script)
    {
      o := Answer();
      StageAppend(trace, Exchange(c, o));
      trace := trace + [Exchange(c, o)];
      ok := Expected(o, wanted);
    }

    method SendHelo() returns (ok: bool)
      modifies this`trace, this`ext
      ensures trace == old(trace) + [Exchange(Helo(localName), old(Answer()))] && ext == None
      ensures StageOf(trace) == Next(StageOf(old(trace)), Exchange(Helo(localName), old(Answer())))
      ensures Scripted(old(trace), script) ==> Scripted(trace, script)
      ensures ok == Expected(old(Answer()), 250)
    {
      ext := None;
      var o;
      ok, o := Cmd(250, Helo(localName));
    }

    method SendEhlo() returns (ok: bool)
      modifies this`trace, this`ext, this`mechanisms
      ensures trace == old(trace) + [Exchange(Ehlo(localName), old(Answer()))]
      ensures StageOf(trace) == Next(StageOf(old(trace)), Exchange(Ehlo(localName), old(Answer())))
      ensures Scripted(old(trace), script) ==> Scripted(trace, script)
      ensures ok == Expected(old(Answer()), 250)
      ensures ext == if ok then Some(Offered(old(Answer()).text)) else old(ext)
      ensures mechanisms ==
              if ok && "AUTH" in Offered(old(Answer()).text) then Split(Offered(old(Answer()).text)["AUTH"], ' ')
              else old(mechanisms)
    {
      var o;
      ok, o := Cmd(250, Ehlo(localName));
      if !ok {
        return;
      }
      var found: Extensions := map[];
      var lines := Split(o.text, '\n')[1..];
      var k := 0;
      while k < |lines|
        invariant 0 <= k <= |lines|
        invariant found == ExtensionsOf(lines[..k])
      {
        var word := Keyword(lines[k]);
        found := found[word.0 := word.1];
        assert lines[..k + 1][..k] == lines[..k];
        k := k + 1;
      }
      assert lines[..|lines|] == lines;
      if "AUTH" in found {
        mechanisms := Split(found["AUTH"], ' ');
      }
      ext := Some(found);
    }

    /** Greets once: EHLO, and HELO if that fails. */
    method Greet() returns (ok: bool)
      requires Valid()
      modifies this`trace, this`didHello, this`helloError, this`ext, this`mechanisms
      ensures Valid() && didHello && ok == !helloError
      ensures old(didHello) ==> trace == old(trace) && ext == old(ext)
      ensures !old(didHello) ==> if ok then StageOf(trace).Ready? && !StageOf(trace).tls else StageOf(trace) == Halted
      ensures !old(didHello) ==>
                |trace| >= 1 && trace[0].command == Ehlo(localName) &&
                (if Succeeded(trace[0], 250) then |trace| == 1
                 else
                   && |trace| == 2 && trace[1].command == Helo(localName)
                   && (ok ==> StageOf(trace) == Ready(None, false)))
    {
      hide Next, StageOf, Offered, Scripted;
      if !didHello {
        didHello := true;
        NextEhlo(localName, Answer());
        var greeted := SendEhlo();
        if !greeted {
          NextHelo(localName, Answer());
          var heard := SendHelo();
          helloError := !heard;
        }
      }
      return !helloError;
    }

    method Hello(name: string) returns (ok: bool)
      requires Valid()
      modifies this`localName, this`trace, this`didHello, this`helloError, this`ext, this`mechanisms
      ensures Valid()
      ensures !OneLine(name) || old(didHello) ==> !ok && trace == old(trace)
      ensures OneLine(name) && !old(didHello) ==>
                && localName == name && didHello
                && (if ok then StageOf(trace).Ready? && !StageOf(trace).tls else StageOf(trace) == Halted)
                && |trace| >= 1 && trace[0].command == Ehlo(name)
                && (if Succeeded(trace[0], 250) then |trace| == 1
                    else
                      && |trace| == 2 && trace[1].command == Helo(name)
                      && (ok ==> StageOf(trace) == Ready(None, false)))
    {
      if !OneLine(name) || didHello {
        return false;
      }
      localName := name;
      ok := Greet();
    }

    method Extension(keyword: string) returns (offered: bool)
      requires Valid()
      modifies this`trace, this`didHello, this`helloError, this`ext, this`mechanisms
      ensures Valid() && didHello
      ensures old(didHello) ==> trace == old(trace)
      ensures StageOf(trace).Ready? ==> offered == Offers(StageOf(trace).ext, keyword)
    {
      var ok := Greet();
      return ok && ext.Some? && keyword in ext.value;
    }

    /** Whether STARTTLS is in its place: offered by the greeting, and not yet used. */
    static predicate MayUpgrade(st: Stage) {
      st.Ready? && !st.tls && Offers(st.ext, "STARTTLS")
    }

    /** What is sent behind the greeting: STARTTLS and, once it is accepted, a new EHLO. */
    static predicate Upgrading(t: seq<Exchange>, name: string, ok: bool) {
      && 1 <= |t| <= 2 && t[0].command == StartTls
      && (|t| == 2 <==> Succeeded(t[0], 220)) && (|t| == 2 ==> t[1].command == Ehlo(name))
      && (ok <==> |t| == 2 && Succeeded(t[1], 250))
    }

    /** Meant for a server that advertises STARTTLS: to any other it is sent out of order. What was
        learnt before is forgotten. */
    method UpgradeTls() returns (ok: bool, ghost greeted: seq<Exchange>)
      requires Valid() && (StageOf(trace) == Fresh || StageOf(trace).Ready?)
      modifies this`trace, this`didHello, this`helloError, this`ext, this`mechanisms, this`tls
      ensures Valid() && old(trace) <= greeted <= trace && (old(didHello) ==> greeted == old(trace))
      ensures !StageOf(greeted).Ready? ==> !ok && trace == greeted && StageOf(trace) == Halted
      ensures StageOf(greeted).Ready? ==>
                && Upgrading(trace[|greeted|..], localName, ok)
                && if !MayUpgrade(StageOf(greeted)) then StageOf(trace) == Broken
                   else if ok then StageOf(trace).Ready? && StageOf(trace).tls
                   else StageOf(trace) == Halted
    {
      hide Next, StageOf, Offered, Expected, Scripted;
      ok := Greet();
      greeted := trace;
      if ok {
        ok := Upgrade();
      }
    }

    /** The same once the session is greeted. */
    method Upgrade() returns (ok: bool)
      requires Valid() && StageOf(trace).Ready?
      modifies this`trace, this`ext, this`mechanisms, this`tls
      ensures Valid() && old(trace) <= trace && Upgrading(trace[|old(trace)|..], localName, ok)
      ensures if !MayUpgrade(StageOf(old(trace))) then StageOf(trace) == Broken
              else if ok then StageOf(trace).Ready? && StageOf(trace).tls
              else StageOf(trace) == Halted
    {
      hide Next, StageOf, Offered, Expected, Scripted;
      ghost var greeted := trace;
      if MayUpgrade(StageOf(trace)) {
        NextTls(ext, Answer());
      } else {
        NextTlsUnoffered(StageOf(trace), Answer());
      }
      var o;
      ok, o := Cmd(220, StartTls);
      ghost var first := Exchange(StartTls, o);
      assert trace == greeted + [first] && trace[|greeted|..] == [first];
      if !ok {
        return;
      }
      tls := true;
      NextEhlo(localName, Answer());
      NextBroken(Exchange(Ehlo(localName), Answer()));
      ghost var second := Exchange(Ehlo(localName), Answer());
      ok := SendEhlo();
      assert trace == greeted + [first, second] && trace[|greeted|..] == [first, second];
    }

    /** BODY=8BITMIME goes with the path exactly when the server's current greeting offers it. */
    method Mail(path: string) returns (ok: bool)
      requires Valid() && (StageOf(trace) == Fresh || StageOf(trace).Ready?)
      modifies this`trace, this`didHello, this`helloError, this`ext, this`mechanisms
      ensures Valid() && old(trace) <= trace
      ensures !OneLine(path) ==> !ok && trace == old(trace)
      ensures OneLine(path) && old(didHello) ==>
                && trace == old(trace) + [Exchange(MailFrom(path, Offers(StageOf(old(trace)).ext, "8BITMIME")),
                                                   old(Answer()))]
                && ok == Expected(old(Answer()), 250)
      ensures ok ==> StageOf(trace) == Mailed
      ensures !ok && OneLine(path) ==> StageOf(trace) == Halted
    {
      hide Next, StageOf, Offered, Expected, Scripted;
      if !OneLine(path) {
        return false;
      }
      var greeted := Greet();
      if !greeted {
        return false;
      }
      NextMail(ext, tls, path, Answer());
      var body8 := false;
      if ext.Some? {
        if "8BITMIME" in ext.value {
          body8 := true;
        }
      }
      var o;
      ok, o := Cmd(250, MailFrom(path, body8));
    }

    /** Only after Mail or another Rcpt. */
    method Rcpt(address: string) returns (ok: bool)
      requires Valid() && StageOf(trace) in {Mailed, Addressed}
      modifies this`trace
      ensures Valid()
      ensures if !OneLine(address) then !ok && trace == old(trace)
              else trace == old(trace) + [Exchange(RcptTo(address), old(Answer()))] && ok == Expected(old(Answer()), 25)
      ensures ok ==> StageOf(trace) == Addressed
      ensures !ok && OneLine(address) ==> StageOf(trace) == Halted
    {
      if !OneLine(address) {
        return false;
      }
      var o;
      ok, o := Cmd(25, RcptTo(address));
    }

    /** Meant for after one or more Rcpt: after none it is sent out of order. */
    method Data() returns (ok: bool)
      requires Valid() && StageOf(trace) in {Mailed, Addressed}
      modifies this`trace
      ensures Valid()
      ensures trace == old(trace) + [Exchange(DataCommand, old(Answer()))] && ok == Expected(old(Answer()), 354)
      ensures StageOf(trace) == if StageOf(old(trace)) == Mailed then Broken else if ok then Body else Halted
    {
      hide Next, StageOf, Offered, Expected, Scripted;
      NextData(StageOf(trace), Answer());
      var o;
      ok, o := Cmd(354, DataCommand);
    }

    /** Writing the message and closing the writer; the text is what the server said of the message. */
    method CloseData(bytes: string) returns (ok: bool, text: string)
      requires Valid() && StageOf(trace) in {Body, Broken}
      modifies this`trace
      ensures Valid()
      ensures trace == old(trace) + [Exchange(Payload(bytes), old(Answer()))] && ok == Expected(old(Answer()), 250)
      ensures StageOf(trace) == if StageOf(old(trace)) == Broken then Broken else if ok then Accepted else Halted
      ensures ok ==> text == old(Answer()).text
    {
      var o;
      ok, o := Cmd(250, Payload(bytes));
      text := if o.Reply? then o.text else "";
    }

    method EndSession() returns (ok: bool)
      requires Valid() && (StageOf(trace) in {Fresh, Accepted, Cancelled, Broken} || StageOf(trace).Ready?)
      modifies this`trace, this`didHello, this`helloError, this`ext, this`mechanisms
      ensures Valid() && old(trace) <= trace
      ensures old(didHello) ==>
                && trace == old(trace) + [Exchange(Quit, old(Answer()))]
                && StageOf(trace) == (if StageOf(old(trace)) == Broken then Broken else Closed)
                && ok == (Expected(old(Answer()), 221) && !closeFails)
      ensures !old(didHello) ==> StageOf(trace) in {Closed, Halted}
    {
      hide Next, StageOf, Offered, Expected, Scripted;
      var greeted := Greet();
      if !greeted {
        return false;
      }
      NextBroken(Exchange(Quit, Answer()));
      if StageOf(trace) != Broken {
        NextQuit(StageOf(trace), Answer());
      }
      var o;
      ok, o := Cmd(221, Quit);
      if !ok {
        return;
      }
      return !closeFails;
    }

    // ---------------------------------------------------------------- authentication

    /** The exchanges of one AUTH: the last of them, before what cancels it, has code `c`. */
    static ghost predicate LastReply(t: seq<Exchange>, code: nat) {
      && t != [] && (t[|t| - 1].command.Auth? || t[|t| - 1].command.AuthReply?)
      && t[|t| - 1].outcome.Reply? && t[|t| - 1].outcome.code == code
    }

    static ghost predicate BrokeOff(t: seq<Exchange>) {
      t != [] && (t[|t| - 1].command.Auth? || t[|t| - 1].command.AuthReply?) && !t[|t| - 1].outcome.Reply?
    }

    static ghost predicate CancelledAndQuit(t: seq<Exchange>) {
      |t| >= 3 && t[|t| - 2].command == AuthCancel && t[|t| - 1].command == Quit
    }

    /** One line of AUTH and its reply, of any code. */
    method SendAuth(c: Command) returns (o: Outcome)
      requires Valid() && ((c.Auth? && StageOf(trace).Ready?) || (c.AuthReply? && StageOf(trace).Challenged?))
      modifies this`trace
      ensures Valid() && o == old(Answer()) && trace == old(trace) + [Exchange(c, o)]
      ensures StageOf(trace) == AuthStage(ext, tls, o)
    {
      hide Next, StageOf, Offered, Expected, Scripted;
      NextAuth(StageOf(trace), c, Answer());
      var ok;
      ok, o := Cmd(0, c);
    }

    /** Cancels the AUTH and closes the session, whatever the replies to that. */
    method Abort()
      requires Valid() && (StageOf(trace).Challenged? || StageOf(trace) == Rejected)
      modifies this`trace, this`didHello, this`helloError, this`ext, this`mechanisms
      ensures Valid() && StageOf(trace) == Closed
      ensures |trace| == |old(trace)| + 2 && trace[..|old(trace)|] == old(trace)
      ensures trace[|trace| - 2].command == AuthCancel && trace[|trace| - 1].command == Quit
    {
      hide Next, StageOf, Offered, Expected, Scripted;
      NextCancel(StageOf(trace), Answer());
      var ok, o := Cmd(501, AuthCancel);
      ok := EndSession();
    }

    /** What an AUTH from a greeted session comes to: success exactly when the last reply was 235.
        Every other end is a refusal before AUTH, a failure to read or write, or the cancel line
        and QUIT. PLAIN never answers a challenge. */
    static ghost predicate AuthEnded(t: seq<Exchange>, a: Mechanism, refused: bool, ok: bool) {
      && t != []
      && (ok <==> LastReply(t, 235))
      && (!ok ==> BrokeOff(t) || CancelledAndQuit(t) || RefusedAtStart(t))
      && (RefusedAtStart(t) <==> refused)
      && (a.Plain? ==> |t| <= 3 && forall x :: x in t ==> !x.command.AuthReply?)
    }

    method Authenticate(a: Mechanism, coding: Coding) returns (ok: bool, ghost greeted: seq<Exchange>)
      requires Valid() && (StageOf(trace) == Fresh || StageOf(trace).Ready?)
      modifies this`trace, this`didHello, this`helloError, this`ext, this`mechanisms
      ensures Valid() && old(trace) <= greeted <= trace && (old(didHello) ==> greeted == old(trace))
      ensures !StageOf(greeted).Ready? ==> !ok && trace == greeted
      ensures StageOf(greeted).Ready? ==>
                && AuthEnded(trace[|greeted|..], a, !MayShow(a, serverName, old(tls)), ok)
                && Answered(trace[|greeted|..], a, coding, serverName, old(tls))
      ensures if ok then StageOf(trace) == StageOf(greeted) else StageOf(trace) in {Closed, Halted}
    {
      hide Next, StageOf, Expected, Offered, StartWith, AuthEnded, Answered, MayShow, Scripted;
      ok := Greet();
      greeted := trace;
      if ok {
        ok := AuthLoop(a, coding);
      }
    }

    /** What a reply calls for: an answer only to a challenge that decodes, and an end only with 235. */
    method Respond(a: Mechanism, coding: Coding, code: nat, text: string) returns (turn: Turn)
      ensures turn == Done <==> code == 235
      ensures turn.Send? ==>
                code == 334 && coding.decode(text).Some? && turn == NextTurn(a, coding.decode(text).value, true)
      ensures turn.Send? ==> a.CramMd5?
    {
      turn := Fail;
      if code == 334 {
        var challenge := coding.decode(text);
        if challenge.Some? {
          turn := NextTurn(a, challenge.value, true);
        }
      } else if code == 235 {
        turn := NextTurn(a, text, false);
      }
    }

    method AuthLoop(a: Mechanism, coding: Coding) returns (ok: bool)
      requires Valid() && StageOf(trace).Ready?
      modifies this`trace, this`didHello, this`helloError, this`ext, this`mechanisms
      ensures Valid() && old(trace) <= trace
      ensures AuthEnded(trace[|old(trace)|..], a, !MayShow(a, serverName, old(tls)), ok)
      ensures Answered(trace[|old(trace)|..], a, coding, serverName, old(tls))
      ensures if ok then StageOf(trace) == StageOf(old(trace)) else StageOf(trace) in {Closed, Halted}
    {
      hide Next, StageOf, Expected, Offered, StartWith, MayShow, Scripted, Answered, AnsweredAt, NextTurn;
      StartsWhen(a, serverName, tls);
      var start := StartWith(a, serverName, tls);
      if start.None? {
        var closed := EndSession();
        assert trace[|old(trace)|..] == [trace[|old(trace)|]];
        QuitAnswered(trace[|old(trace)|], a, coding, serverName, tls);
        return false;
      }
      ok := Challenges(a, coding, start.value);
    }

    /** The AUTH line and the loop over challenges. */
    method Challenges(a: Mechanism, coding: Coding, start: string) returns (ok: bool)
      requires Valid() && StageOf(trace).Ready? && StartWith(a, serverName, tls) == Some(start)
      modifies this`trace, this`didHello, this`helloError, this`ext, this`mechanisms
      ensures Valid() && old(trace) <= trace
      ensures AuthEnded(trace[|old(trace)|..], a, false, ok)
      ensures Answered(trace[|old(trace)|..], a, coding, serverName, old(tls))
      ensures if ok then StageOf(trace) == StageOf(old(trace)) else StageOf(trace) in {Closed, Halted}
    {
      hide Next, StageOf, Expected, Offered, StartWith, Scripted, Answered, AnsweredAt, NextTurn, AuthEnded;
      var o := SendAuth(Auth(MechanismName(a), coding.encode(start)));
      ghost var t := [Exchange(Auth(MechanismName(a), coding.encode(start)), o)];
      FirstAnswered(o, a, coding, serverName, tls);
      while o.Reply?
        invariant Valid() && trace == old(trace) + t && AuthLines(t) && o == t[|t| - 1].outcome
        invariant o.Reply? ==> |trace| <= |script|
        invariant StageOf(trace) == AuthStage(ext, tls, o) && StageOf(old(trace)) == Ready(ext, tls)
        invariant a.Plain? ==> |t| == 1
        invariant Answered(t, a, coding, serverName, tls)
        decreases |script| - |trace|
      {
        var turn := Respond(a, coding, o.code, o.text);
        if turn == Fail {
          Abort();
          AbortedTail(old(trace), t, trace);
          AbortedEnded(old(trace), t, trace, a);
          AbortedAnswered(old(trace), t, trace, a, coding, serverName, tls);
          return false;
        }
        if turn == Done {
          LinesEnded(t, a);
          return true;
        }
        ghost var line := AuthReply(coding.encode(turn.response));
        o := SendAuth(AuthReply(coding.encode(turn.response)));
        NextAnswered(t, Exchange(line, o), a, coding, serverName, tls);
        t := t + [Exchange(line, o)];
      }
      LinesEnded(t, a);
      return false;
    }

    /** Without a further line the exchange has ended well with 235, and badly when nothing could be read. */
    static lemma LinesEnded(t: seq<Exchange>, a: Mechanism)
      requires AuthLines(t) && (a.Plain? ==> |t| == 1)
      ensures var o := t[|t| - 1].outcome;
              && (o.Reply? && o.code == 235 ==> AuthEnded(t, a, false, true))
              && (!o.Reply? ==> AuthEnded(t, a, false, false))
    {
    }

    static lemma AbortedEnded(before: seq<Exchange>, t: seq<Exchange>, after: seq<Exchange>, a: Mechanism)
      requires before <= after && AuthLines(t) && (a.Plain? ==> |t| == 1)
      requires var u := after[|before|..];
               && CancelledAndQuit(u) && !LastReply(u, 235) && |u| == |t| + 2
               && (|t| == 1 ==> forall x :: x in u ==> !x.command.AuthReply?)
      ensures AuthEnded(after[|before|..], a, false, false)
    {
    }

    // ---------------------------------------------------------------- whole messages

    /** MAIL and every RCPT accepted, in order. */
    static ghost predicate Enveloped(t: seq<Exchange>, path: string, to: seq<string>) {
      && |t| == |to| + 1
      && t[0].command.MailFrom? && t[0].command.path == path && Succeeded(t[0], 250)
      && (forall i :: 0 <= i < |to| ==> t[i + 1].command == RcptTo(to[i]) && Succeeded(t[i + 1], 25))
    }

    static ghost predicate Finished(t: seq<Exchange>, bytes: string) {
      && |t| == 3
      && t[0].command == DataCommand && Succeeded(t[0], 354)
      && t[1].command == Payload(bytes) && Succeeded(t[1], 250)
      && t[2].command == Quit && Succeeded(t[2], 221)
    }

    /** A message handed over: every command of it accepted, for every recipient in order. */
    static ghost predicate Transaction(t: seq<Exchange>, path: string, to: seq<string>, bytes: string) {
      |t| == |to| + 4 && Enveloped(t[..|to| + 1], path, to) && Finished(t[|to| + 1..], bytes)
    }

    static lemma FinishedAt(after: seq<Exchange>, n: nat, bytes: string)
      requires |after| == n + 3 && Succeeded(after[n], 354) && Succeeded(after[n + 1], 250) &&
          Succeeded(after[n + 2], 221)
      requires forall i :: n <= i < n + 3 ==> after[i].command == [DataCommand, Payload(bytes), Quit][i - n]
      ensures Finished(after[n..], bytes)
    {
      var u := after[n..];
      assert u[0] == after[n] && u[1] == after[n + 1] && u[2] == after[n + 2];
    }

    static lemma Completed(base: seq<Exchange>, t: seq<Exchange>, after: seq<Exchange>, path: string, to: seq<string>,
                           bytes: string)
      requires Enveloped(t, path, to) && base + t <= after && Finished(after[|base| + |t|..], bytes)
      ensures |after| == |base| + |to| + 4 && after[..|base|] == base && Transaction(after[|base|..], path, to, bytes)
    {
      var u := after[|base|..];
      assert u[|to| + 1..] == after[|base| + |t|..];
      assert after[..|base| + |t|] == base + t;
      assert u[..|to| + 1] == after[..|base| + |t|][|base|..] == t;
      assert after[..|base|] == after[..|base| + |t|][..|base|];
    }

    static lemma EnvelopeMore(t: seq<Exchange>, path: string, to: seq<string>, x: Exchange, r: string)
      requires Enveloped(t, path, to) && x.command == RcptTo(r) && Succeeded(x, 25)
      ensures Enveloped(t + [x], path, to + [r])
    {
      var u, all := t + [x], to + [r];
      forall i | 0 <= i < |all|
        ensures u[i + 1].command == RcptTo(all[i]) && Succeeded(u[i + 1], 25)
      {
        if i < |to| {
          assert u[i + 1] == t[i + 1] && all[i] == to[i];
        }
      }
      assert u[0] == t[0];
    }

    method Envelope(path: string, to: seq<string>) returns (ok: bool)
      requires Valid() && StageOf(trace).Ready?
      modifies this`trace, this`didHello, this`helloError, this`ext, this`mechanisms
      ensures Valid() && old(trace) <= trace && StageOf(trace) != Broken
      ensures ok ==>
                && StageOf(trace) == (if to == [] then Mailed else Addressed)
                && Enveloped(trace[|old(trace)|..], path, to)
    {
      hide Next, StageOf, Expected, Offered, Scripted;
      ok := Mail(path);
      if !ok {
        return;
      }
      ghost var t := trace[|old(trace)|..];
      var k := 0;
      while k < |to|
        invariant 0 <= k <= |to| && Valid() && trace == old(trace) + t
        invariant StageOf(trace) == if k == 0 then Mailed else Addressed
        invariant Enveloped(t, path, to[..k])
      {
        ok := Rcpt(to[k]);
        assert old(trace) <= old(trace) + t <= trace;
        if !ok {
          return;
        }
        EnvelopeMore(t, path, to[..k], trace[|trace| - 1], to[k]);
        assert to[..k + 1] == to[..k] + [to[k]];
        t := t + [trace[|trace| - 1]];
        k := k + 1;
      }
      ok := true;
      assert to[..|to|] == to;
      assert trace[|old(trace)|..] == t;
    }

    /** Somewhere in these exchanges an AUTH succeeded. */
    static ghost predicate Authenticated(t: seq<Exchange>) {
      exists x | x in t :: (x.command.Auth? || x.command.AuthReply?) && x.outcome.Reply? && x.outcome.code == 235
    }

    /** From a new connection; success means a complete transaction at the end of the trace, behind a
        greeting and, if it was asked for and the server speaks ESMTP, a successful AUTH. Without
        any recipient DATA is sent out of order. */
    method SendMail(a: Option<Mechanism>, coding: Coding, path: string, to: seq<string>, bytes: string)
      returns (ok: bool)
      requires Valid() && trace == []
      modifies this
      ensures Valid() && (StageOf(trace) == Broken ==> to == []) && (ok && to == [] ==> StageOf(trace) == Broken)
      ensures !OneLine(path) || (exists r :: r in to && !OneLine(r)) ==> !ok && trace == []
      ensures ok ==>
                |trace| > |to| + 4 &&
                var n := |trace| - |to| - 4;
                && Transaction(trace[n..], path, to, bytes) && StageOf(trace[..n]).Ready? && Encrypts(trace)
                && (a.Some? && StageOf(trace[..n]).ext.Some? ==> Authenticated(trace[..n]))
    {
      hide Next, StageOf, Expected, Offered, StartWith, Scripted;
      if !OneLine(path) {
        return false;
      }
      var k := 0;
      while k < |to|
        invariant 0 <= k <= |to| && forall i :: 0 <= i < k ==> OneLine(to[i])
      {
        if !OneLine(to[k]) {
          return false;
        }
        k := k + 1;
      }
      ok := Prepare(a, coding);
      if ok {
        ok := Transact(path, to, bytes);
      }
    }

    /** The envelope, the message and QUIT, in a session that is ready for them. */
    method Transact(path: string, to: seq<string>, bytes: string) returns (ok: bool)
      requires Valid() && StageOf(trace).Ready?
      modifies this`trace, this`didHello, this`helloError, this`ext, this`mechanisms
      ensures Valid() && (StageOf(trace) == Broken ==> to == []) && (ok && to == [] ==> StageOf(trace) == Broken)
      ensures ok ==>
                var n := |old(trace)|;
                && |trace| == n + |to| + 4 && trace[..n] == old(trace) && Transaction(trace[n..], path, to, bytes)
    {
      hide Next, StageOf, Expected, Offered, Scripted, Transaction, Succeeded;
      ghost var base := trace;
      ok := Envelope(path, to);
      if !ok {
        return;
      }
      ghost var t := trace[|base|..];
      assert trace == base + t;
      var text;
      ok, text := HandOver(bytes);
      if ok {
        FinishedAt(trace, |base| + |t|, bytes);
        Completed(base, t, trace, path, to, bytes);
      }
    }

    /** Greeting, encryption where it is offered and, when asked for, authentication. */
    method Prepare(a: Option<Mechanism>, coding: Coding) returns (ok: bool)
      requires Valid() && trace == []
      modifies this`trace, this`didHello, this`helloError, this`ext, this`mechanisms, this`tls
      ensures Valid() && StageOf(trace) != Broken && (ok ==> trace != [] && StageOf(trace).Ready?)
      ensures ok && a.Some? && StageOf(trace).ext.Some? ==> Authenticated(trace)
      ensures Encrypts(trace) && (ok && |trace| == 1 ==> !Welcomes(trace[0], "STARTTLS"))
    {
      hide Next, StageOf, Expected, Offered, StartWith, MayShow, Scripted, Encrypts, Welcomes, Answered, AuthEnded,
        Authenticated, Upgrading;
      ok := Greet();
      ghost var base := trace;
      EncryptsOn(base, trace);
      if !ok {
        return;
      }
      var offered := Extension("STARTTLS");
      WelcomesWhen(base, "STARTTLS");
      if offered {
        ghost var greeted;
        ok, greeted := UpgradeTls();
        assert trace[1].command == StartTls by { FirstUpgrading(base, trace, localName, ok); }
        EncryptsOn(base, trace);
        if !ok {
          return;
        }
      }
      if a.Some? && ext.Some? {
        if "AUTH" !in ext.value {
          return false;
        }
        ghost var before;
        ok, before := Authenticate(a.value, coding);
        EncryptsOn(base, trace);
        if ok {
          EndedWell(trace, |before|, a.value, !MayShow(a.value, serverName, tls));
        }
      }
    }

    static lemma FirstUpgrading(base: seq<Exchange>, t: seq<Exchange>, name: string, ok: bool)
      requires |base| <= |t| && Upgrading(t[|base|..], name, ok)
      ensures |t| > |base| && t[|base|].command == StartTls
    {
      assert t[|base|] == t[|base|..][0];
    }

    static lemma EndedWell(t: seq<Exchange>, n: nat, a: Mechanism, refused: bool)
      requires n <= |t| && AuthEnded(t[n..], a, refused, true)
      ensures Authenticated(t)
    {
      assert t[|t| - 1] == t[n..][|t| - n - 1];
    }

    /** DATA, the message and QUIT; the text is what the server said of the message. */
    method HandOver(bytes: string) returns (ok: bool, text: string)
      requires Valid() && StageOf(trace) in {Mailed, Addressed}
      modifies this`trace, this`didHello, this`helloError, this`ext, this`mechanisms
      ensures Valid() && (StageOf(trace) == Broken <==> StageOf(old(trace)) == Mailed)
      ensures old(trace) <= trace && |old(trace)| < |trace| <= |old(trace)| + 3
      ensures forall i :: |old(trace)| <= i < |trace| ==>
                trace[i].command == [DataCommand, Payload(bytes), Quit][i - |old(trace)|]
      ensures ok <==> |trace| == |old(trace)| + 3 && Succeeded(trace[|trace| - 1], 221) && !closeFails
      ensures StageOf(old(trace)) == Addressed ==> (StageOf(trace) == Closed <==> |trace| == |old(trace)| + 3)
      ensures ok ==>
                var n := |old(trace)|;
                && |trace| == n + 3
                && Succeeded(trace[n], 354) && Succeeded(trace[n + 1], 250) && Succeeded(trace[n + 2], 221)
                && text == trace[n + 1].outcome.text
    {
      hide Next, StageOf, Offered, Scripted;
      text := "";
      ok := Data();
      if !ok {
        return;
      }
      ok, text := CloseData(bytes);
      if !ok {
        return;
      }
      ok := EndSession();
    }

    /** The lines of an AUTH under way: the command first, then answers to challenges. */
    static ghost predicate AuthLines(t: seq<Exchange>) {
      t != [] && t[0].command.Auth? && forall i :: 0 < i < |t| ==> t[i].command.AuthReply?
    }

    static ghost predicate RefusedAtStart(t: seq<Exchange>) {
      |t| == 1 && t[0].command == Quit
    }

    static lemma AbortedTail(before: seq<Exchange>, t: seq<Exchange>, after: seq<Exchange>)
      requires AuthLines(t) && |after| == |before| + |t| + 2 && after[..|before| + |t|] == before + t
      requires after[|after| - 2].command == AuthCancel && after[|after| - 1].command == Quit
      ensures before <= after && CancelledAndQuit(after[|before|..]) && !LastReply(after[|before|..], 235)
      ensures |after[|before|..]| == |t| + 2
      ensures |t| == 1 ==> forall x :: x in after[|before|..] ==> !x.command.AuthReply?
    {
      var u := after[|before|..];
      assert forall i :: 0 <= i < |t| ==> u[i] == after[..|before| + |t|][|before| + i] == t[i];
      assert forall i :: 0 <= i < |before| ==> before[i] == after[..|before| + |t|][i] == after[i];
    }
  }
}
