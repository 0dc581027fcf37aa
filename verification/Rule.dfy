/** Alias rules: the regular expressions that users write, how a rule is anchored before it is
    compiled, and what the compiled rule then matches. Covers literals, escaped punctuation, '.',
    groups, '|', '*', '+', '?' and their lazy forms, '^' and '$' of the syntax of Go's `regexp`;
    classes, counted repetition, flags and escaped letters or digits are taken as not compiling. */
module Rule {
  import opened Text

  datatype Regex =
    | Empty
    | Lit(c: char)
    | Dot
    | Begin
    | End
    | Cat(left: Regex, right: Regex)
    | Alt(first: Regex, second: Regex)
    | Star(body: Regex)

  // ---------------------------------------------------------------- meaning

  /** `r` matches the part of `s` from position i to position j. */
  predicate Match(r: Regex, s: string, i: nat, j: nat)
    requires i <= j <= |s|
    decreases r, j - i
  {
    match r
    case Empty => i == j
    case Lit(c) => j == i + 1 && s[i] == c
    case Dot => j == i + 1 && s[i] != '\n'
    case Begin => i == 0 == j
    case End => i == |s| == j
    case Cat(a, b) => exists k | i <= k <= j :: Match(a, s, i, k) && Match(b, s, k, j)
    case Alt(a, b) => Match(a, s, i, j) || Match(b, s, i, j)
    case Star(a) => i == j || exists k | i < k <= j :: Match(a, s, i, k) && Match(r, s, k, j)
  }

  /** `MatchString`: some part of the text matches. */
  predicate Search(r: Regex, s: string) {
    exists i, j | 0 <= i <= j <= |s| :: Match(r, s, i, j)
  }

  predicate Whole(r: Regex, s: string) {
    Match(r, s, 0, |s|)
  }

  // ---------------------------------------------------------------- compiling

  /** An open group: the alternatives it has completed and the sequence being read. */
  datatype Frame = Frame(alts: seq<Regex>, cat: Regex)

  /** What stands just before the next character: an operator, which takes no second one; an operator
      made lazy by '?', which takes none either; or a backslash. */
  datatype Mode = Plain | Repeated | Settled | Escaping

  datatype State = Bad | Open(outer: seq<Frame>, top: Frame, mode: Mode)

  const START: State := Open([], Frame([], Empty), Plain)

  function AltOf(rs: seq<Regex>): Regex
    requires |rs| > 0
  {
    if |rs| == 1 then rs[0] else Alt(rs[0], AltOf(rs[1..]))
  }

  function Append(s: State, item: Regex): State
    requires s.Open?
  {
    Open(s.outer, s.top.(cat := Cat(s.top.cat, item)), Plain)
  }

  predicate IsOperator(c: char) {
    c == '*' || c == '+' || c == '?'
  }

  predicate Leads(text: string) {
    text != "" && IsOperator(text[0])
  }

  function Repeat(c: char, x: Regex): Regex
    requires IsOperator(c)
  {
    if c == '*' then Star(x) else if c == '+' then Cat(x, Star(x)) else Alt(x, Empty)
  }

  /** A backslash makes ASCII characters other than letters and digits stand for themselves. */
  predicate Escapable(c: char) {
    c as int < 128 && !('0' <= c <= '9' || 'A' <= c <= 'Z' || 'a' <= c <= 'z')
  }

  /** An operator repeats the last item, or makes the operator before it lazy, which matches the same. */
  function Operate(s: State, c: char): State
    requires s.Open? && IsOperator(c)
  {
    if c == '?' && s.mode == Repeated then s.(mode := Settled)
    else if !s.top.cat.Cat? || s.mode != Plain then Bad
    else Open(s.outer, s.top.(cat := Cat(s.top.cat.left, Repeat(c, s.top.cat.right))), Repeated)
  }

  function Read(s: State, c: char): State {
    if s.Bad? then Bad
    else if s.mode == Escaping then if Escapable(c) then Append(s, Lit(c)) else Bad
    else if c == '\\' then s.(mode := Escaping)
    else if c == '(' then Open(s.outer + [s.top], Frame([], Empty), Plain)
    else if c == ')' then
      if s.outer == [] then Bad
      else
        var up := s.outer[|s.outer| - 1];
        Open(s.outer[..|s.outer| - 1], up.(cat := Cat(up.cat, AltOf(s.top.alts + [s.top.cat]))), Plain)
    else if c == '|' then Open(s.outer, Frame(s.top.alts + [s.top.cat], Empty), Plain)
    else if IsOperator(c) then Operate(s, c)
    else if c == '.' then Append(s, Dot)
    else if c == '^' then Append(s, Begin)
    else if c == '$' then Append(s, End)
    else if c == '[' || c == '{' then Bad
    else Append(s, Lit(c))
  }

  function ReadAll(s: State, text: string): State
    decreases |text|
  {
    if text == "" then s else ReadAll(Read(s, text[0]), text[1..])
  }

  /** An expression may end here. */
  predicate Closed(s: State) {
    s.Open? && s.outer == [] && s.mode != Escaping
  }

  /** The alternatives outside any group; None when the expression does not compile. */
  function Alternatives(text: string): (r: Option<seq<Regex>>)
    ensures r.Some? ==> |r.value| > 0
  {
    var s := ReadAll(START, text);
    if Closed(s) then Some(s.top.alts + [s.top.cat]) else None
  }

  function Compile(text: string): Option<Regex> {
    var alts := Alternatives(text);
    if alts.None? then None else Some(AltOf(alts.value))
  }

  // ---------------------------------------------------------------- normalisation

  function TrimPrefix(s: string, c: char): string {
    if s != "" && s[0] == c then s[1..] else s
  }

  function TrimSuffix(s: string, c: char): string {
    if s != "" && s[|s| - 1] == c then s[..|s| - 1] else s
  }

  /** The rule without its own anchors. */
  function Core(rule: string): string {
    TrimSuffix(TrimPrefix(Lower(rule), '^'), '$')
  }

  function Anchored(rule: string): string {
    "^" + Core(rule) + "$"
  }

  /** What `Alias.Check` says of a local part; None when the rule does not compile. */
  function Verdict(rule: string, user: string): Option<bool> {
    var r := Compile(Anchored(rule));
    if r.None? then None else Some(Search(r.value, user))
  }

  /** An alias with its lazily compiled rule. */
  class AliasRule {
    const text: string
    var rule: Option<Regex>

    ghost predicate Valid()
      reads this
    {
      rule.Some? ==> rule == Compile(Anchored(text))
    }

    constructor (s: string)
      ensures Valid() && text == s
    {
      text, rule := s, None;
    }

    /** The first call compiles, later ones reuse the result; the answer is always that of a
        fresh compilation. */
    method Check(user: string) returns (ok: Option<bool>)
      requires Valid()
      modifies this
      ensures Valid() && ok == Verdict(text, user)
    {
      if rule.None? {
        var normal := Lower(text);
        normal := TrimPrefix(normal, '^');
        normal := TrimSuffix(normal, '$');
        normal := "^" + normal + "$";
        var r := Compile(normal);
        if r.None? {
          return None;
        }
        rule := r;
      }
      return Some(Search(rule.value, user));
    }
  }

  // ---------------------------------------------------------------- what stands in front

  /** The same expression behind `x`. */
  function From(x: Regex, r: Regex): Regex {
    match r
    case Empty => Cat(Empty, x)
    case Cat(a, b) => Cat(From(x, a), b)
    case _ => Cat(x, r)
  }

  /** `x` takes up no character, and matches nowhere but at the beginning, if `pinned`. */
  ghost predicate Guards(x: Regex, pinned: bool, s: string) {
    forall i, j | 0 <= i <= j <= |s| :: Match(x, s, i, j) <==> i == j && (pinned ==> i == 0)
  }

  lemma {:induction false} FromMatches(x: Regex, pinned: bool, r: Regex, s: string, i: nat, j: nat)
    requires i <= j <= |s| && Guards(x, pinned, s)
    ensures Match(From(x, r), s, i, j) <==> (pinned ==> i == 0) && Match(r, s, i, j)
  {
    match r
    case Cat(a, b) =>
      forall k | i <= k <= j
        ensures Match(From(x, a), s, i, k) <==> (pinned ==> i == 0) && Match(a, s, i, k)
      {
        FromMatches(x, pinned, a, s, i, k);
      }
      hide Guards;
    case Empty =>
      if (pinned ==> i == 0) && i == j {
        assert Match(Empty, s, i, i) && Match(x, s, i, j);
      }
    case _ =>
      BeforeMatches(x, pinned, r, s, i, j);
  }

  lemma BeforeMatches(x: Regex, pinned: bool, r: Regex, s: string, i: nat, j: nat)
    requires i <= j <= |s| && Guards(x, pinned, s)
    ensures Match(Cat(x, r), s, i, j) <==> (pinned ==> i == 0) && Match(r, s, i, j)
  {
    if (pinned ==> i == 0) && Match(r, s, i, j) {
      assert Match(x, s, i, i) && Match(r, s, i, j);
    }
  }

  /** What may follow an anchor without being an item of its own. */
  const OPERATORS: set<string> := {"", "*", "+", "?", "*?", "+?", "??"}

  /** What "^" and these operators read as. */
  function Front(ops: string): Regex
    requires ops in OPERATORS
  {
    if ops == "" then Begin else Repeat(ops[0], Begin)
  }

  /** The anchor may not be left out. */
  predicate Pinned(ops: string) {
    ops == "" || ops[0] == '+'
  }

  lemma FrontGuards(ops: string, s: string)
    requires ops in OPERATORS
    ensures Guards(Front(ops), Pinned(ops), s)
  {
    forall i, j | 0 <= i <= j <= |s|
      ensures Match(Begin, s, i, j) <==> i == 0 == j
      ensures Match(Star(Begin), s, i, j) <==> i == j
      ensures Match(Cat(Begin, Star(Begin)), s, i, j) <==> i == 0 == j
    {
      assert forall k | i < k <= j :: !Match(Begin, s, i, k);
      if i == 0 == j {
        assert Match(Begin, s, 0, 0) && Match(Star(Begin), s, 0, 0);
      }
    }
  }

  lemma ToEndMatches(r: Regex, s: string, i: nat, j: nat)
    requires i <= j <= |s|
    ensures Match(Cat(r, End), s, i, j) <==> j == |s| && Match(r, s, i, j)
  {
    if j == |s| && Match(r, s, i, j) {
      assert Match(End, s, j, j);
    }
  }

  // ---------------------------------------------------------------- reading behind a prefix

  predicate FrameFrom(x: Regex, f: Frame, g: Frame) {
    if f.alts == [] then g == Frame([], From(x, f.cat))
    else g == Frame([From(x, f.alts[0])] + f.alts[1..], f.cat)
  }

  /** Nothing has been read that an operator could repeat. */
  predicate Pristine(s: State) {
    s.Open? && s.outer == [] && s.top.alts == [] && !s.top.cat.Cat? && s.mode == Plain
  }

  /** `t` is `s` with `x` in front of the first alternative outside any group. */
  predicate Behind(x: Regex, s: State, t: State) {
    && s.Open? && t.Open? && |s.outer| == |t.outer|
    && (if Pristine(s) then t.mode != Escaping else s.mode == t.mode)
    && if s.outer == [] then FrameFrom(x, s.top, t.top)
       else s.top == t.top && FrameFrom(x, s.outer[0], t.outer[0]) && s.outer[1..] == t.outer[1..]
  }

  /** One character read by both states: both go on, or neither. */
  predicate Together(x: Regex, s: State, t: State) {
    if s.Bad? then t.Bad? else Behind(x, s, t) && !Pristine(s)
  }

  lemma AppendBehind(x: Regex, s: State, t: State, item: Regex)
    requires Behind(x, s, t)
    ensures Together(x, Append(s, item), Append(t, item))
  {
  }

  lemma OperateBehind(x: Regex, s: State, t: State, c: char)
    requires Behind(x, s, t) && IsOperator(c) && !Pristine(s)
    ensures Together(x, Operate(s, c), Operate(t, c))
  {
  }

  lemma EscapeBehind(x: Regex, s: State, t: State)
    requires Behind(x, s, t) && s.mode != Escaping
    ensures Together(x, s.(mode := Escaping), t.(mode := Escaping))
  {
  }

  lemma EscapedBehind(x: Regex, s: State, t: State, c: char)
    requires Behind(x, s, t) && s.mode == Escaping
    ensures Together(x, Read(s, c), Read(t, c))
  {
    hide AltOf, From;
    AppendBehind(x, s, t, Lit(c));
  }

  /** An item or an operator goes to the sequence that is being read. */
  lemma ItemBehind(x: Regex, s: State, t: State, c: char)
    requires Behind(x, s, t) && c !in "()|" && !(Pristine(s) && IsOperator(c)) && s.mode != Escaping
    ensures Together(x, Read(s, c), Read(t, c))
  {
    hide AltOf, Together, Append, Operate, FrameFrom;
    if IsOperator(c) {
      OperateBehind(x, s, t, c);
    } else if c == '\\' {
      EscapeBehind(x, s, t);
    } else {
      assert forall item :: Together(x, Append(s, item), Append(t, item)) by {
        forall item
          ensures Together(x, Append(s, item), Append(t, item))
        {
          AppendBehind(x, s, t, item);
        }
      }
      assert Together(x, Bad, Bad) by { BothBad(x); }
    }
  }

  lemma BothBad(x: Regex)
    ensures Together(x, Bad, Bad)
  {
  }

  lemma OpenBehind(x: Regex, s: State, t: State)
    requires Behind(x, s, t) && s.mode != Escaping
    ensures Together(x, Read(s, '('), Read(t, '('))
  {
    hide AltOf, From;
    if s.outer != [] {
      assert (s.outer + [s.top])[1..] == s.outer[1..] + [s.top];
      assert (t.outer + [t.top])[1..] == t.outer[1..] + [t.top];
    }
  }

  lemma CloseBehind(x: Regex, s: State, t: State)
    requires Behind(x, s, t) && s.mode != Escaping
    ensures Together(x, Read(s, ')'), Read(t, ')'))
  {
    if |s.outer| > 1 {
      CloseWithin(x, s, t);
    } else {
      hide AltOf;
    }
  }

  lemma CloseWithin(x: Regex, s: State, t: State)
    requires Behind(x, s, t) && s.mode != Escaping && |s.outer| > 1
    ensures Together(x, Read(s, ')'), Read(t, ')'))
  {
    hide AltOf, FrameFrom;
    var n := |s.outer|;
    assert s.outer[n - 1] == s.outer[1..][n - 2] == t.outer[n - 1];
    assert s.outer[..n - 1][1..] == s.outer[1..][..n - 2];
    assert t.outer[..n - 1][1..] == t.outer[1..][..n - 2];
    assert s.outer[..n - 1][0] == s.outer[0] && t.outer[..n - 1][0] == t.outer[0];
  }

  lemma BarBehind(x: Regex, s: State, t: State)
    requires Behind(x, s, t) && s.mode != Escaping
    ensures Together(x, Read(s, '|'), Read(t, '|'))
  {
    hide AltOf, From;
    if s.outer == [] && s.top.alts != [] {
      assert (s.top.alts + [s.top.cat])[1..] == s.top.alts[1..] + [s.top.cat];
      assert ([From(x, s.top.alts[0])] + s.top.alts[1..]) + [s.top.cat] ==
             [From(x, s.top.alts[0])] + (s.top.alts[1..] + [s.top.cat]);
    }
  }

  lemma ReadBehind(x: Regex, s: State, t: State, c: char)
    requires Behind(x, s, t) && !(Pristine(s) && IsOperator(c))
    ensures Together(x, Read(s, c), Read(t, c))
  {
    hide Behind, Together, Read, Pristine;
    BothOpen(x, s, t);
    if s.mode == Escaping {
      EscapedBehind(x, s, t, c);
    } else if c == '(' {
      OpenBehind(x, s, t);
    } else if c == ')' {
      CloseBehind(x, s, t);
    } else if c == '|' {
      BarBehind(x, s, t);
    } else {
      ItemBehind(x, s, t, c);
    }
  }

  lemma {:induction false} ReadAllBehind(x: Regex, s: State, t: State, text: string)
    requires Behind(x, s, t) && !(Pristine(s) && Leads(text))
    ensures ReadAll(s, text).Bad? <==> ReadAll(t, text).Bad?
    ensures ReadAll(s, text).Open? ==> Behind(x, ReadAll(s, text), ReadAll(t, text))
    decreases |text|
  {
    hide Behind, Read, Pristine;
    if text == "" {
      BothOpen(x, s, t);
    } else {
      StaysBad(text[1..]);
      ReadBehind(x, s, t, text[0]);
      var u, v := Read(s, text[0]), Read(t, text[0]);
      if u.Open? {
        ReadAllBehind(x, u, v, text[1..]);
      } else {
        assert u == Bad && v == Bad;
      }
    }
  }

  lemma BothOpen(x: Regex, s: State, t: State)
    requires Behind(x, s, t)
    ensures s.Open? && t.Open? && |s.outer| == |t.outer| && (t.mode == Escaping <==> s.mode == Escaping)
  {
  }

  lemma {:induction false} StaysBad(text: string)
    ensures ReadAll(Bad, text) == Bad
  {
    if text != "" {
      StaysBad(text[1..]);
    }
  }

  lemma {:induction false} ReadAllConcat(s: State, a: string, b: string)
    ensures ReadAll(s, a + b) == ReadAll(ReadAll(s, a), b)
    decreases |a|
  {
    if a == "" {
      assert a + b == b;
    } else {
      assert (a + b)[1..] == a[1..] + b;
      ReadAllConcat(Read(s, a[0]), a[1..], b);
    }
  }

  /** `x` in front of the first alternative, and of no other. */
  function InFront(x: Regex, a: seq<Regex>): seq<Regex>
    requires |a| > 0
  {
    [From(x, a[0])] + a[1..]
  }

  lemma FrontOf(x: Regex, s: State, t: State)
    requires Behind(x, s, t) && s.outer == []
    ensures t.top.alts + [t.top.cat] == InFront(x, s.top.alts + [s.top.cat])
  {
    if s.top.alts == [] {
      var f := From(x, s.top.cat);
      assert s.top.alts + [s.top.cat] == [s.top.cat];
      assert [] + [f] == [f] + [s.top.cat][1..];
    } else {
      var first, rest := From(x, s.top.alts[0]), s.top.alts[1..];
      assert (s.top.alts + [s.top.cat])[1..] == rest + [s.top.cat];
      assert ([first] + rest) + [s.top.cat] == [first] + (rest + [s.top.cat]);
    }
  }

  /** Reading a text behind `x` compiles exactly when the text does. */
  lemma CompilesBehind(x: Regex, t: State, text: string)
    requires Behind(x, START, t) && !Leads(text)
    ensures var u, a := ReadAll(t, text), Alternatives(text);
            && (Closed(u) <==> a.Some?)
            && (a.Some? ==> u.top.alts + [u.top.cat] == InFront(x, a.value))
  {
    hide Behind;
    ReadAllBehind(x, START, t, text);
    var s, u := ReadAll(START, text), ReadAll(t, text);
    if s.Open? {
      BothOpen(x, s, u);
    }
    if Alternatives(text).Some? {
      FrontOf(x, s, u);
    }
  }

  /** The state behind "^" and these operators. */
  function Fronted(ops: string): State
    requires ops in OPERATORS
  {
    Open([], Frame([], Cat(Empty, Front(ops))), if ops == "" then Plain else if |ops| == 1 then Repeated else Settled)
  }

  lemma FrontedReads(ops: string)
    requires ops in OPERATORS
    ensures ReadAll(START, "^" + ops) == Fronted(ops) && Behind(Front(ops), START, Fronted(ops))
  {
    var t := Fronted("");
    assert ("^" + ops)[1..] == ops;
    assert ReadAll(START, "^" + ops) == ReadAll(t, ops) by { assert Read(START, '^') == t; }
    FrontedBehind(ops);
    if ops != "" {
      OneOperator(ops[0]);
      hide Read, Front;
      var u := Fronted([ops[0]]);
      assert ReadAll(t, ops) == ReadAll(u, ops[1..]);
      if |ops| == 1 {
        assert ops == [ops[0]] && ops[1..] == "";
      } else {
        assert ops[1..] == "?" && "?"[1..] == "";
        assert ReadAll(u, "?") == ReadAll(Read(u, '?'), "");
        LazyOperator(ops[0]);
        assert ops == [ops[0], '?'];
      }
    }
  }

  lemma FrontedBehind(ops: string)
    requires ops in OPERATORS
    ensures Behind(Front(ops), START, Fronted(ops))
  {
    hide Front;
  }

  lemma OneOperator(c: char)
    requires IsOperator(c)
    ensures [c] in OPERATORS && Read(Fronted(""), c) == Fronted([c])
  {
    assert [c] == "*" || [c] == "+" || [c] == "?";
  }

  lemma LazyOperator(c: char)
    requires IsOperator(c)
    ensures [c] in OPERATORS && [c, '?'] in OPERATORS && Read(Fronted([c]), '?') == Fronted([c, '?'])
  {
    assert [c] == "*" || [c] == "+" || [c] == "?";
    assert [c, '?'] == "*?" || [c, '?'] == "+?" || [c, '?'] == "??";
  }

  lemma LeadingFails(s: State, text: string)
    requires Leads(text) && Read(s, text[0]) == Bad
    ensures ReadAll(s, text) == Bad
  {
    StaysBad(text[1..]);
  }

  /** '^' and its operators in front of a text that begins with none compile exactly when the text
      does, and tie only the first alternative to the beginning. With "*" or "?" they tie nothing. */
  lemma FrontCompiles(ops: string, text: string)
    requires ops in OPERATORS && (Leads(text) ==> ops != "" && (|ops| == 1 ==> text[0] != '?'))
    ensures Alternatives("^" + ops + text).Some? <==> Alternatives(text).Some?
    ensures Alternatives(text).Some? ==>
              Alternatives("^" + ops + text) == Some(InFront(Front(ops), Alternatives(text).value))
  {
    hide Behind, InFront;
    FrontedReads(ops);
    ReadAllConcat(START, "^" + ops, text);
    if Leads(text) {
      LeadingFails(START, text);
      LeadingFails(Fronted(ops), text);
    } else {
      CompilesBehind(Front(ops), Fronted(ops), text);
    }
  }

  /** The last alternative, and no other, up to the end of the text. */
  function UpToEnd(a: seq<Regex>): seq<Regex>
    requires |a| > 0
  {
    a[..|a| - 1] + [Cat(a[|a| - 1], End)]
  }

  /** The text ends in a backslash that is not itself escaped. */
  predicate Dangling(text: string) {
    text != "" && text[|text| - 1] == '\\' && !Dangling(text[..|text| - 1])
  }

  lemma {:induction false} EscapingWhen(text: string)
    ensures var s := ReadAll(START, text); s.Open? ==> (s.mode == Escaping <==> Dangling(text))
  {
    if text != "" {
      var n := |text| - 1;
      var init, last := text[..n], text[n..];
      EscapingWhen(init);
      assert init + last == text;
      ReadAllConcat(START, init, last);
      assert ReadAll(ReadAll(START, init), last) == Read(ReadAll(START, init), text[n]);
    }
  }

  /** '$' behind ties the last alternative to the end, and only the last, unless a backslash
      makes it a character of its own. */
  lemma SuffixCompiles(text: string)
    requires !Dangling(text)
    ensures Alternatives(text + "$").Some? <==> Alternatives(text).Some?
    ensures Alternatives(text).Some? ==> Alternatives(text + "$") == Some(UpToEnd(Alternatives(text).value))
  {
    EscapingWhen(text);
    ReadAllConcat(START, text, "$");
    var s := ReadAll(START, text);
    assert ReadAll(s, "$") == Read(s, '$');
  }

  lemma DanglingFails(text: string)
    requires Dangling(text)
    ensures Alternatives(text).None?
  {
    EscapingWhen(text);
  }

  lemma {:induction false} AltOfMatches(rs: seq<Regex>, s: string, i: nat, j: nat)
    requires |rs| > 0 && i <= j <= |s|
    ensures Match(AltOf(rs), s, i, j) <==> exists k :: 0 <= k < |rs| && Match(rs[k], s, i, j)
  {
    if |rs| > 1 {
      AltOfMatches(rs[1..], s, i, j);
      if k :| 0 <= k < |rs| && Match(rs[k], s, i, j) {
        assert k > 0 ==> rs[1..][k - 1] == rs[k];
      }
    }
  }

  // ---------------------------------------------------------------- what a rule matches

  /** The operators that trimming leaves in front: they then apply to the new anchor. */
  function Ops(core: string): (ops: string)
    ensures ops in OPERATORS && |ops| <= |core| && core[..|ops|] == ops
    ensures Leads(core[|ops|..]) ==> ops != "" && (|ops| == 1 ==> core[|ops|] != '?')
  {
    if !Leads(core) then ""
    else if |core| > 1 && core[1] == '?' then
      assert core[..2] == [core[0], '?'] && "*?" == ['*', '?'] && "+?" == ['+', '?'] && "??" == ['?', '?'];
      core[..2]
    else
      assert core[..1] == [core[0]];
      core[..1]
  }

  function Rest(rule: string): string {
    Core(rule)[|Ops(Core(rule))|..]
  }

  /** The '$' that is put behind a dangling backslash becomes a character of the rule. */
  function Completed(text: string): string {
    if Dangling(text) then text + "$" else text
  }

  /** The rule without its anchors, nor the operators that apply to the first. */
  function Body(rule: string): string {
    Completed(Rest(rule))
  }

  /** Behind its own '^' the rule begins with "*" or "?", so that the anchor may be left out. */
  predicate FreeFront(rule: string) {
    Core(rule) != "" && (Core(rule)[0] == '*' || Core(rule)[0] == '?')
  }

  /** The rule ends in an escaped '$', whose backslash then escapes the new anchor. */
  predicate FreeEnd(rule: string) {
    Dangling(Rest(rule))
  }

  /** Which outer ends of a rule the anchors tie down. */
  datatype Ties = Ties(begin: bool, end: bool)

  function TiesOf(rule: string): Ties {
    Ties(!FreeFront(rule), !FreeEnd(rule))
  }

  /** The alternatives with the anchor and its operators in front, and with the last tied or not. */
  function Dress(front: Option<string>, end: bool, a: seq<Regex>): (r: seq<Regex>)
    requires |a| > 0 && (front.Some? ==> front.value in OPERATORS)
    ensures |r| == |a|
  {
    var b := if end then UpToEnd(a) else a;
    if front.Some? then InFront(Front(front.value), b) else b
  }

  lemma DressedMatches(front: Option<string>, end: bool, a: seq<Regex>, k: nat, s: string, i: nat, j: nat)
    requires k < |a| && i <= j <= |s| && (front.Some? ==> front.value in OPERATORS)
    ensures Match(Dress(front, end, a)[k], s, i, j) <==>
              && Match(a[k], s, i, j)
              && (k == 0 && front.Some? && Pinned(front.value) ==> i == 0)
              && (k == |a| - 1 && end ==> j == |s|)
  {
    hide Match, From, Guards, Pinned, Front;
    var b := if end then UpToEnd(a) else a;
    ToEndMatches(a[k], s, i, j);
    assert Match(b[k], s, i, j) <==> Match(a[k], s, i, j) && (k == |a| - 1 && end ==> j == |s|);
    if front.Some? {
      FrontGuards(front.value, s);
      FromMatches(Front(front.value), Pinned(front.value), b[k], s, i, j);
    }
  }

  /** What a rule's own anchors put in front, and whether they tie its last alternative. */
  function OwnFront(rule: string): (front: Option<string>)
    ensures front.Some? ==> front.value in OPERATORS
  {
    if Lower(rule) == "" || Lower(rule)[0] != '^' then None else Some(Ops(Core(rule)))
  }

  predicate OwnEnd(rule: string) {
    Core(rule) != TrimPrefix(Lower(rule), '^') && !FreeEnd(rule)
  }

  lemma TrimmedEnd(text: string)
    requires Alternatives(text).Some?
    ensures var t := TrimSuffix(text, '$');
            && Alternatives(Completed(t)).Some?
            && Alternatives(text) ==
                 Some(Dress(None, t != text && !Dangling(t), Alternatives(Completed(t)).value))
  {
    hide Alternatives, Dangling;
    var t := TrimSuffix(text, '$');
    if Dangling(t) {
      DanglingFails(t);
      assert t + "$" == text;
    } else if t != text {
      assert text == t + "$";
      SuffixCompiles(t);
    }
  }

  lemma PartsOfText(mid: string)
    ensures var core, ops := TrimSuffix(mid, '$'), Ops(TrimSuffix(mid, '$'));
            && |ops| <= |mid| && mid == ops + mid[|ops|..]
            && (Leads(mid[|ops|..]) ==> ops != "" && (|ops| == 1 ==> mid[|ops|] != '?'))
            && TrimSuffix(mid[|ops|..], '$') == core[|ops|..]
            && (mid[|ops|..] != core[|ops|..] <==> core != mid)
            && (Leads(core) ==> Leads(mid))
  {
    hide Ops;
    var core, ops := TrimSuffix(mid, '$'), Ops(TrimSuffix(mid, '$'));
    if core == mid {
      assert mid == ops + mid[|ops|..];
    } else {
      assert mid == core + "$" && core == ops + core[|ops|..];
      assert mid[..|ops|] == ops && mid[|ops|..] == core[|ops|..] + "$";
    }
  }

  /** The rule in its parts: what is trimmed, the operators in front, and the rest. */
  lemma PartsOf(rule: string)
    ensures var text, mid, ops := Lower(rule), TrimPrefix(Lower(rule), '^'), Ops(Core(rule));
            && |ops| <= |mid| && mid == ops + mid[|ops|..]
            && (Leads(mid[|ops|..]) ==> ops != "" && (|ops| == 1 ==> mid[|ops|] != '?'))
            && TrimSuffix(mid[|ops|..], '$') == Rest(rule)
            && (mid[|ops|..] != Rest(rule) <==> Core(rule) != mid)
            && (Leads(Core(rule)) ==> Leads(mid))
  {
    hide Lower, Ops, Leads;
    PartsOfText(TrimPrefix(Lower(rule), '^'));
  }

  /** A rule that compiles as written has a body that compiles, and its own anchors are all that
      tells the two apart. Its core compiles by itself unless it begins with an operator, which
      then repeated the rule's own '^', or ends in the backslash that escaped its own '$'. */
  lemma CoreCompiles(rule: string)
    requires Alternatives(Lower(rule)).Some?
    ensures Alternatives(Body(rule)).Some?
    ensures Alternatives(Lower(rule)) ==
            Some(Dress(OwnFront(rule), OwnEnd(rule), Alternatives(Body(rule)).value))
    ensures Alternatives(Core(rule)).None? <==> Leads(Core(rule)) || FreeEnd(rule)
    ensures Leads(Core(rule)) ==> Lower(rule)[0] == '^'
  {
    hide Alternatives, Lower, Dangling, Core, Dress;
    var text, mid, ops := Lower(rule), TrimPrefix(Lower(rule), '^'), Ops(Core(rule));
    PartsOf(rule);
    var tail := mid[|ops|..];
    if mid == text {
      if Leads(text) {
        StartFails(text);
      }
      assert tail == text;
    } else {
      assert text == "^" + ops + tail;
      FrontCompiles(ops, tail);
    }
    TrimmedEnd(tail);
    DressTwice(OwnFront(rule), OwnEnd(rule), Alternatives(Body(rule)).value);
    if Leads(Core(rule)) {
      StartFails(Core(rule));
    } else if FreeEnd(rule) {
      DanglingFails(Core(rule));
    }
  }

  lemma DressTwice(front: Option<string>, end: bool, a: seq<Regex>)
    requires |a| > 0 && (front.Some? ==> front.value in OPERATORS)
    ensures Dress(front, end, a) ==
            if front.Some? then InFront(Front(front.value), Dress(None, end, a)) else Dress(None, end, a)
  {
  }

  lemma StartFails(text: string)
    requires Leads(text)
    ensures Alternatives(text).None?
  {
    LeadingFails(START, text);
  }

  /** What is compiled for a rule: its body, tied at both outer ends, unless operators make the
      first tie optional or a backslash takes the last. */
  lemma AnchoredCompiles(rule: string)
    ensures Alternatives(Anchored(rule)).Some? <==> Alternatives(Body(rule)).Some?
    ensures Alternatives(Body(rule)).Some? ==>
              Alternatives(Anchored(rule)) ==
                  Some(Dress(Some(Ops(Core(rule))), !FreeEnd(rule), Alternatives(Body(rule)).value))
  {
    hide Alternatives, Core, Dangling, Ops;
    var ops, rest := Ops(Core(rule)), Rest(rule);
    assert Core(rule) == ops + rest;
    assert Anchored(rule) == "^" + ops + (rest + "$");
    FrontCompiles(ops, rest + "$");
    if !Dangling(rest) {
      SuffixCompiles(rest);
    }
  }

  /** One of the alternatives matches a part of the local part: the first only a beginning, when
      it is tied to it, and the last only an end. */
  ghost predicate Tied(a: seq<Regex>, ties: Ties, user: string) {
    exists k, i, j | 0 <= k < |a| && 0 <= i <= j <= |user| :: TiedAt(a, ties, user, k, i, j)
  }

  predicate TiedAt(a: seq<Regex>, ties: Ties, user: string, k: nat, i: nat, j: nat)
    requires k < |a| && i <= j <= |user|
  {
    Match(a[k], user, i, j) && (k == 0 && ties.begin ==> i == 0) && (k == |a| - 1 && ties.end ==> j == |user|)
  }

  lemma TiesAre(rule: string)
    ensures TiesOf(rule) == Ties(Pinned(Ops(Core(rule))), !FreeEnd(rule))
  {
    hide Core;
  }

  /** The exact verdict on every rule and local part. */
  lemma CheckExact(rule: string, user: string)
    ensures Verdict(rule, user) ==
            if Alternatives(Body(rule)).None? then None
            else Some(Tied(Alternatives(Body(rule)).value, TiesOf(rule), user))
  {
    hide Match, Alternatives, Dress, AltOf, Anchored, Body, TiesOf, Core, Ops, FreeEnd, Pinned;
    AnchoredCompiles(rule);
    TiesAre(rule);
    if Alternatives(Body(rule)).Some? {
      var a, front, ties := Alternatives(Body(rule)).value, Some(Ops(Core(rule))), TiesOf(rule);
      var b := Dress(front, ties.end, a);
      forall i, j | 0 <= i <= j <= |user|
        ensures Match(AltOf(b), user, i, j) <==> exists k | 0 <= k < |a| :: TiedAt(a, ties, user, k, i, j)
      {
        AltOfMatches(b, user, i, j);
        forall k | 0 <= k < |a|
          ensures Match(b[k], user, i, j) <==> TiedAt(a, ties, user, k, i, j)
        {
          DressedMatches(front, ties.end, a, k, user, i, j);
        }
      }
      if Tied(a, ties, user) {
        var k, i, j :| 0 <= k < |a| && 0 <= i <= j <= |user| && TiedAt(a, ties, user, k, i, j);
        assert Match(AltOf(b), user, i, j);
      }
    }
  }

  /** The whole local part matches the lowered rule as it is written exactly when it matches one
      of the alternatives of the rule's body. */
  lemma OwnAnchors(rule: string, user: string)
    requires Alternatives(Lower(rule)).Some?
    ensures Alternatives(Body(rule)).Some?
    ensures var a := Alternatives(Body(rule)).value;
            Whole(Compile(Lower(rule)).value, user) <==> exists k :: 0 <= k < |a| && Whole(a[k], user)
  {
    hide Match, Alternatives, Dress, AltOf, Lower, Body, OwnFront, OwnEnd;
    CoreCompiles(rule);
    var a, b := Alternatives(Body(rule)).value, Alternatives(Lower(rule)).value;
    AltOfMatches(b, user, 0, |user|);
    forall k | 0 <= k < |a|
      ensures Match(b[k], user, 0, |user|) <==> Match(a[k], user, 0, |user|)
    {
      DressedMatches(OwnFront(rule), OwnEnd(rule), a, k, user, 0, |user|);
    }
  }

  /** A rule with no alternation outside a group accepts a local part exactly when its body matches
      a part of it that the ties allow. */
  lemma CheckOneAlternative(rule: string, user: string)
    requires Alternatives(Lower(rule)).Some? && |Alternatives(Lower(rule)).value| == 1
    ensures Alternatives(Body(rule)).Some? && |Alternatives(Body(rule)).value| == 1
    ensures var body := Alternatives(Body(rule)).value[0];
            Verdict(rule, user) ==
            Some(exists i, j | 0 <= i <= j <= |user| :: && Match(body, user, i, j)
                                                        && (!FreeFront(rule) ==> i == 0)
                                                        && (!FreeEnd(rule) ==> j == |user|))
  {
    hide Match, Alternatives, Verdict, Dress, Body, FreeFront, FreeEnd;
    CoreCompiles(rule);
    CheckExact(rule, user);
    var a, ties := Alternatives(Body(rule)).value, TiesOf(rule);
    forall i, j | 0 <= i <= j <= |user| && Match(a[0], user, i, j) && (ties.begin ==> i == 0) &&
                  (ties.end ==> j == |user|)
      ensures Tied(a, ties, user)
    {
      SomewhereTied(a, ties, user, 0, i, j);
    }
    if Tied(a, ties, user) {
      var k, i, j :| 0 <= k < |a| && 0 <= i <= j <= |user| && TiedAt(a, ties, user, k, i, j);
      assert Match(a[0], user, i, j);
    }
  }

  /** A rule with no alternation outside a group, that neither begins with "^*" or "^?" nor ends in
      an escaped '$', accepts a local part exactly when the whole of it matches the lowered rule. */
  lemma CheckIsFullMatch(rule: string, user: string)
    requires Alternatives(Lower(rule)).Some? && |Alternatives(Lower(rule)).value| == 1
    requires !FreeFront(rule) && !FreeEnd(rule)
    ensures Verdict(rule, user) == Some(Whole(Compile(Lower(rule)).value, user))
  {
    hide Match, Alternatives, Verdict, Compile, Body, FreeFront, FreeEnd;
    CheckOneAlternative(rule, user);
    OwnAnchors(rule, user);
    var a := Alternatives(Body(rule)).value;
    assert Whole(a[0], user) <==> Match(a[0], user, 0, |user|);
  }

  /** Every local part that matches in full is accepted, whatever the rule. */
  lemma FullMatchAccepted(rule: string, user: string)
    requires Alternatives(Lower(rule)).Some? && Whole(Compile(Lower(rule)).value, user)
    ensures Verdict(rule, user) == Some(true)
  {
    hide Match, Alternatives, Verdict, Compile, Body, TiesOf;
    CheckExact(rule, user);
    OwnAnchors(rule, user);
    var a := Alternatives(Body(rule)).value;
    var k :| 0 <= k < |a| && Whole(a[k], user);
    assert TiedAt(a, TiesOf(rule), user, k, 0, |user|);
  }

  // the ways in which a rule matches less than a whole local part

  const LOOSE: seq<Regex> := [Cat(Empty, Lit('a')), Cat(Empty, Lit('b'))]

  /** One literal matches one character. */
  lemma OneCharacter(c: char, s: string)
    requires |s| == 2
    ensures !Match(Cat(Empty, Lit(c)), s, 0, 2)
  {
    forall k | 0 <= k <= 2
      ensures !(Match(Empty, s, 0, k) && Match(Lit(c), s, k, 2))
    {
    }
  }

  /** Alternation: "a|b" accepts "ax", which it does not match in full. */
  lemma LooseRule()
    ensures Verdict("a|b", "ax") == Some(true)
    ensures Compile(Lower("a|b")).Some? && !Whole(Compile(Lower("a|b")).value, "ax")
  {
    hide Tied, Match, Alternatives, Verdict, Compile, ReadAll;
    assert Lower("a|b") == "a|b" && Body("a|b") == "a|b" && TiesOf("a|b") == Ties(true, true);
    LooseRuleCompiles();
    CheckExact("a|b", "ax");
    LiteralAt('a', "ax", 0);
    SomewhereTied(LOOSE, Ties(true, true), "ax", 0, 0, 1);
    OwnAnchors("a|b", "ax");
    CompiledIs("a|b");
    OneCharacter('a', "ax");
    OneCharacter('b', "ax");
  }

  lemma LiteralAt(c: char, s: string, i: nat)
    requires i < |s| && s[i] == c
    ensures Match(Cat(Empty, Lit(c)), s, i, i + 1)
  {
    assert Match(Empty, s, i, i) && Match(Lit(c), s, i, i + 1);
  }

  /** A repeated anchor: "^*" accepts "x", which it does not match in full. */
  lemma StarredRule()
    ensures Verdict("^*", "x") == Some(true)
    ensures Compile(Lower("^*")).Some? && !Whole(Compile(Lower("^*")).value, "x")
    ensures |Alternatives(Lower("^*")).value| == 1
  {
    hide Verdict, Tied, Match, Alternatives, Compile, Body, TiesOf;
    StarredParts();
    EmptyCompiles();
    FrontCompiles("*", "");
    CheckExact("^*", "x");
    OwnAnchors("^*", "x");
    assert Match(Empty, "x", 1, 1) && !Match(Empty, "x", 0, 1) by { EmptyMatches("x"); }
    SomewhereTied([Empty], Ties(false, true), "x", 0, 1, 1);
    CompiledIs("^*");
  }

  lemma StarredParts()
    ensures Lower("^*") == "^*" == "^" + "*" + "" && Body("^*") == "" && TiesOf("^*") == Ties(false, true)
  {
    assert Core("^*") == "*" && Ops("*") == "*";
  }

  lemma EmptyCompiles()
    ensures Alternatives("") == Some([Empty])
  {
    assert [] + [Empty] == [Empty];
  }

  lemma EmptyMatches(s: string)
    ensures forall i, j | 0 <= i <= j <= |s| :: Match(Empty, s, i, j) <==> i == j
  {
  }

  /** An optional anchor: "^?a" accepts "xa", which it does not match in full. */
  lemma OptionalRule()
    ensures Verdict("^?a", "xa") == Some(true)
    ensures Compile(Lower("^?a")).Some? && !Whole(Compile(Lower("^?a")).value, "xa")
    ensures |Alternatives(Lower("^?a")).value| == 1
  {
    hide Verdict, Tied, Match, Alternatives, Compile, ReadAll;
    assert Lower("^?a") == "^?a" && "^" + "?" + "a" == "^?a";
    assert Core("^?a") == "?a" && Ops("?a") == "?" && Rest("^?a") == "a";
    var a := [Cat(Empty, Lit('a'))];
    LiteralCompiles();
    FrontCompiles("?", "a");
    CheckExact("^?a", "xa");
    OwnAnchors("^?a", "xa");
    LiteralAt('a', "xa", 1);
    SomewhereTied(a, Ties(false, true), "xa", 0, 1, 2);
    OneCharacter('a', "xa");
    CompiledIs("^?a");
  }

  lemma LiteralCompiles()
    ensures Alternatives("a") == Some([Cat(Empty, Lit('a'))])
  {
    assert ReadAll(START, "a") == ReadAll(Read(START, 'a'), "");
    assert [] + [Cat(Empty, Lit('a'))] == [Cat(Empty, Lit('a'))];
  }

  const DOLLAR: Regex := Cat(Cat(Empty, Lit('a')), Lit('$'))

  /** An escaped end: "a\\$" accepts "a$x", which it does not match in full. */
  lemma EscapedRule()
    ensures Verdict("a\\$", "a$x") == Some(true)
    ensures Compile(Lower("a\\$")).Some? && !Whole(Compile(Lower("a\\$")).value, "a$x")
    ensures |Alternatives(Lower("a\\$")).value| == 1
  {
    hide Verdict, Tied, Match, Alternatives, Compile, ReadAll;
    assert Lower("a\\$") == "a\\$" && Core("a\\$") == "a\\" && Ops("a\\") == "" && Rest("a\\$") == "a\\";
    assert !Dangling("a") && "a\\"[..1] == "a" && Dangling("a\\") && "a\\" + "$" == "a\\$";
    EscapedRuleCompiles();
    CheckExact("a\\$", "a$x");
    OwnAnchors("a\\$", "a$x");
    EscapedRuleMatches();
    SomewhereTied([DOLLAR], Ties(true, false), "a$x", 0, 0, 2);
    CompiledIs("a\\$");
  }

  lemma EscapedRuleMatches()
    ensures Match(DOLLAR, "a$x", 0, 2) && !Match(DOLLAR, "a$x", 0, 3)
  {
    LiteralAt('a', "a$x", 0);
    assert Match(Lit('$'), "a$x", 1, 2);
    assert forall k | 0 <= k <= 3 :: !Match(Lit('$'), "a$x", k, 3);
  }

  lemma EscapedRuleCompiles()
    ensures Alternatives("a\\$") == Some([DOLLAR])
  {
    var s := Read(START, 'a');
    var t := Read(s, '\\');
    assert "a\\$"[1..] == "\\$" && "\\$"[1..] == "$" && "$"[1..] == "";
    assert ReadAll(t, "$") == ReadAll(Read(t, '$'), "");
    assert ReadAll(s, "\\$") == ReadAll(t, "$");
    assert ReadAll(START, "a\\$") == ReadAll(s, "\\$");
    assert [] + [DOLLAR] == [DOLLAR];
  }

  lemma SomewhereTied(a: seq<Regex>, ties: Ties, user: string, k: nat, i: nat, j: nat)
    requires k < |a| && i <= j <= |user| && TiedAt(a, ties, user, k, i, j)
    ensures Tied(a, ties, user)
  {
  }

  lemma CompiledIs(text: string)
    requires Alternatives(text).Some?
    ensures Compile(text) == Some(AltOf(Alternatives(text).value))
  {
  }

  lemma LooseRuleCompiles()
    ensures Alternatives("a|b") == Some(LOOSE)
  {
    var s1 := Open([], Frame([], Cat(Empty, Lit('a'))), Plain);
    var s2 := Open([], Frame([Cat(Empty, Lit('a'))], Empty), Plain);
    assert "a|b"[1..] == "|b" && "|b"[1..] == "b" && "b"[1..] == "";
    assert Read(START, 'a') == s1 && Read(s1, '|') == s2;
    assert ReadAll(s2, "b") == ReadAll(Read(s2, 'b'), "");
    assert ReadAll(s1, "|b") == ReadAll(s2, "b");
    assert [Cat(Empty, Lit('a'))] + [Cat(Empty, Lit('b'))] == [Cat(Empty, Lit('a')), Cat(Empty, Lit('b'))];
    assert Read(s2, 'b') == Open([], Frame([Cat(Empty, Lit('a'))], Cat(Empty, Lit('b'))), Plain);
    assert ReadAll(START, "a|b") == ReadAll(s1, "|b");
    assert ReadAll(START, "a|b") == Open([], Frame([Cat(Empty, Lit('a'))], Cat(Empty, Lit('b'))), Plain);
  }

  // ---------------------------------------------------------------- the rule for everything

  lemma {:induction false} DotsMatch(s: string, i: nat)
    requires i <= |s| && '\n' !in s
    ensures Match(Star(Dot), s, i, |s|)
    decreases |s| - i
  {
    if i < |s| {
      DotsMatch(s, i + 1);
      assert Match(Dot, s, i, i + 1) && Match(Star(Dot), s, i + 1, |s|);
    }
  }

  const DOTS: seq<Regex> := [Cat(Empty, Star(Dot))]

  lemma DotsCompile()
    ensures Alternatives(".*") == Some(DOTS)
  {
    var s := Read(START, '.');
    assert ".*"[1..] == "*" && "*"[1..] == "";
    assert ReadAll(START, ".*") == ReadAll(s, "*");
    assert ReadAll(s, "*") == ReadAll(Read(s, '*'), "");
    assert [] + DOTS == DOTS;
  }

  lemma DotsBody()
    ensures Body(".*") == ".*" && TiesOf(".*") == Ties(true, true)
  {
    assert Lower(".*") == ".*";
    assert Core(".*") == ".*";
  }

  /** ".*" accepts every local part of one line. */
  lemma CatchAll(user: string)
    requires '\n' !in user
    ensures Verdict(".*", user) == Some(true)
  {
    hide Verdict, Tied, Alternatives, Match, Body, TiesOf;
    DotsCompile();
    DotsBody();
    CheckExact(".*", user);
    DotsMatch(user, 0);
    assert Match(DOTS[0], user, 0, |user|) by { BehindEmpty(Star(Dot), user); }
    SomewhereTied(DOTS, Ties(true, true), user, 0, 0, |user|);
  }

  lemma BehindEmpty(r: Regex, s: string)
    requires Match(r, s, 0, |s|)
    ensures Match(Cat(Empty, r), s, 0, |s|)
  {
    assert Match(Empty, s, 0, 0);
  }

  // ---------------------------------------------------------------- rules without inner anchors

  predicate AnchorFree(r: Regex) {
    match r
    case Begin => false
    case End => false
    case Cat(a, b) => AnchorFree(a) && AnchorFree(b)
    case Alt(a, b) => AnchorFree(a) && AnchorFree(b)
    case Star(a) => AnchorFree(a)
    case _ => true
  }

  /** Without anchors inside, a match depends on the matched characters alone. */
  lemma {:induction false} MatchMoves(r: Regex, s: string, i: nat, j: nat, t: string, p: nat)
    requires i <= j <= |s| && p + (j - i) <= |t| && AnchorFree(r)
    requires s[i..j] == t[p..p + (j - i)]
    ensures Match(r, s, i, j) <==> Match(r, t, p, p + (j - i))
    decreases r, j - i
  {
    match r
    case Lit(_) => SameCharacters(s, i, j, t, p);
    case Dot => SameCharacters(s, i, j, t, p);
    case Cat(a, b) =>
      forall k | i <= k <= j
        ensures Match(a, s, i, k) <==> Match(a, t, p, p + k - i)
        ensures Match(b, s, k, j) <==> Match(b, t, p + k - i, p + (j - i))
      {
        SameParts(s, i, k, j, t, p);
        MatchMoves(a, s, i, k, t, p);
        MatchMoves(b, s, k, j, t, p + k - i);
      }
      assert forall l | p <= l <= p + (j - i) ::
        Match(a, t, p, l) && Match(b, t, l, p + (j - i)) ==> Match(a, s, i, i + l - p) && Match(b, s, i + l - p, j);
    case Alt(a, b) =>
      MatchMoves(a, s, i, j, t, p);
      MatchMoves(b, s, i, j, t, p);
    case Star(a) =>
      forall k | i < k <= j
        ensures Match(a, s, i, k) <==> Match(a, t, p, p + k - i)
        ensures Match(r, s, k, j) <==> Match(r, t, p + k - i, p + (j - i))
      {
        SameParts(s, i, k, j, t, p);
        MatchMoves(a, s, i, k, t, p);
        MatchMoves(r, s, k, j, t, p + k - i);
      }
      assert forall l | p < l <= p + (j - i) ::
        Match(a, t, p, l) && Match(r, t, l, p + (j - i)) ==> Match(a, s, i, i + l - p) && Match(r, s, i + l - p, j);
    case Empty =>
  }

  lemma SameCharacters(s: string, i: nat, j: nat, t: string, p: nat)
    requires i <= j <= |s| && p + (j - i) <= |t| && s[i..j] == t[p..p + (j - i)]
    ensures forall k :: i <= k < j ==> s[k] == t[p + k - i]
  {
    assert forall k :: i <= k < j ==> s[k] == s[i..j][k - i] && t[p + k - i] == t[p..p + (j - i)][k - i];
  }

  lemma SameParts(s: string, i: nat, k: nat, j: nat, t: string, p: nat)
    requires i <= k <= j <= |s| && p + (j - i) <= |t| && s[i..j] == t[p..p + (j - i)]
    ensures s[i..k] == t[p..p + (k - i)] && s[k..j] == t[p + k - i..p + k - i + (j - k)]
  {
    SameCharacters(s, i, j, t, p);
  }

  /** An alternative matches, as a text of its own, a part that the outer anchors leave to it. */
  predicate PartAt(a: seq<Regex>, ties: Ties, user: string, k: nat, i: nat, j: nat)
    requires k < |a| && i <= j <= |user|
  {
    Whole(a[k], user[i..j]) && (k == 0 && ties.begin ==> i == 0) && (k == |a| - 1 && ties.end ==> j == |user|)
  }

  /** Without anchors inside its body, what a rule accepts is a matter of the parts that its
      alternatives match as texts of their own. */
  lemma CheckByParts(rule: string, user: string)
    requires Alternatives(Body(rule)).Some? && forall r :: r in Alternatives(Body(rule)).value ==> AnchorFree(r)
    ensures var a, ties := Alternatives(Body(rule)).value, TiesOf(rule);
            Verdict(rule, user) ==
            Some(exists k, i, j | 0 <= k < |a| && 0 <= i <= j <= |user| :: PartAt(a, ties, user, k, i, j))
  {
    hide Match, Alternatives, Verdict, Body, TiesOf;
    CheckExact(rule, user);
    var a, ties := Alternatives(Body(rule)).value, TiesOf(rule);
    forall k, i, j | 0 <= k < |a| && 0 <= i <= j <= |user|
      ensures PartAt(a, ties, user, k, i, j) <==> TiedAt(a, ties, user, k, i, j)
    {
      var part := user[i..j];
      assert part[0..j - i] == part;
      MatchMoves(a[k], user, i, j, part, 0);
    }
    assert Tied(a, ties, user) <==>
           exists k, i, j | 0 <= k < |a| && 0 <= i <= j <= |user| :: TiedAt(a, ties, user, k, i, j);
  }
}
