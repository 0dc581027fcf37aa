/** The syntax of rules against its meaning: an expression written out as a rule is read back as that
    expression, and matches exactly what it says. */
module Syntax {
  import opened Text
  import opened Rule

  // ---------------------------------------------------------------- repetition

  /** The part from i to j falls into n consecutive parts that each match. */
  ghost predicate Pieces(x: Regex, s: string, i: nat, j: nat, n: nat)
    requires i <= j <= |s|
    decreases n
  {
    if n == 0 then i == j else exists k | i <= k <= j :: Match(x, s, i, k) && Pieces(x, s, k, j, n - 1)
  }

  /** How often an operator lets its item stand. */
  predicate Allows(c: char, n: nat) {
    c == '*' || (c == '+' && n >= 1) || (c == '?' && n <= 1)
  }

  lemma {:induction false} StarPieces(x: Regex, s: string, i: nat, j: nat) returns (n: nat)
    requires i <= j <= |s| && Match(Star(x), s, i, j)
    ensures Pieces(x, s, i, j, n)
    decreases j - i
  {
    if i == j {
      n := 0;
    } else {
      var k :| i < k <= j && Match(x, s, i, k) && Match(Star(x), s, k, j);
      var rest := StarPieces(x, s, k, j);
      n := rest + 1;
    }
  }

  lemma {:induction false} PiecesStar(x: Regex, s: string, i: nat, j: nat, n: nat)
    requires i <= j <= |s| && Pieces(x, s, i, j, n)
    ensures Match(Star(x), s, i, j)
    decreases n
  {
    if n > 0 {
      var k :| i <= k <= j && Match(x, s, i, k) && Pieces(x, s, k, j, n - 1);
      PiecesStar(x, s, k, j, n - 1);
    }
  }

  /** '*' any number of times, '+' at least once, '?' at most once. */
  lemma RepeatMatches(c: char, x: Regex, s: string, i: nat, j: nat)
    requires IsOperator(c) && i <= j <= |s|
    ensures Match(Repeat(c, x), s, i, j) <==> exists n: nat :: Allows(c, n) && Pieces(x, s, i, j, n)
  {
    if Match(Repeat(c, x), s, i, j) {
      var n := RepeatPieces(c, x, s, i, j);
    }
    if n: nat :| Allows(c, n) && Pieces(x, s, i, j, n) {
      PiecesRepeat(c, x, s, i, j, n);
    }
  }

  lemma RepeatPieces(c: char, x: Regex, s: string, i: nat, j: nat) returns (n: nat)
    requires IsOperator(c) && i <= j <= |s| && Match(Repeat(c, x), s, i, j)
    ensures Allows(c, n) && Pieces(x, s, i, j, n)
  {
    if c == '*' {
      n := StarPieces(x, s, i, j);
    } else if c == '+' {
      var k :| i <= k <= j && Match(x, s, i, k) && Match(Star(x), s, k, j);
      var rest := StarPieces(x, s, k, j);
      n := rest + 1;
    } else if Match(x, s, i, j) {
      n := 1;
      assert Pieces(x, s, j, j, 0);
    } else {
      n := 0;
    }
  }

  lemma PiecesRepeat(c: char, x: Regex, s: string, i: nat, j: nat, n: nat)
    requires IsOperator(c) && i <= j <= |s| && Allows(c, n) && Pieces(x, s, i, j, n)
    ensures Match(Repeat(c, x), s, i, j)
  {
    if c == '*' {
      PiecesStar(x, s, i, j, n);
    } else if n > 0 {
      var k :| i <= k <= j && Match(x, s, i, k) && Pieces(x, s, k, j, n - 1);
      PiecesStar(x, s, k, j, n - 1);
    }
  }

  // ---------------------------------------------------------------- expressions

  /** What a user may mean by a rule. */
  datatype Expr =
    | Char(c: char)
    | Escaped(c: char)
    | Any
    | Start
    | Stop
    | Both(first: Expr, second: Expr)
    | Either(one: Expr, other: Expr)
    | Times(op: char, greedy: bool, body: Expr)

  predicate WellFormed(e: Expr) {
    match e
    case Both(a, b) => WellFormed(a) && WellFormed(b)
    case Either(a, b) => WellFormed(a) && WellFormed(b)
    case Times(op, _, a) => op in "*+?" && WellFormed(a)
    case Escaped(c) => c as int < 128 && !IsDigitOrLetter(c)
    case _ => true
  }

  /** What has a meaning of its own, and does not stand for itself unless a backslash goes before it. */
  const SPECIAL: string := "\\.+*?()|[{^$"

  predicate IsDigitOrLetter(c: char) {
    '0' <= c <= '9' || 'A' <= c <= 'Z' || 'a' <= c <= 'z'
  }

  /** How it is written: special characters, and others if one likes, behind a backslash, alternatives and
      repetitions in groups, and a '?' behind an operator that is to try the fewest first. */
  function Written(e: Expr): string {
    match e
    case Char(c) => if c in SPECIAL then "\\" + [c] else [c]
    case Escaped(c) => "\\" + [c]
    case Any => "."
    case Start => "^"
    case Stop => "$"
    case Both(a, b) => Written(a) + Written(b)
    case Either(a, b) => "(" + (Written(a) + ("|" + (Written(b) + ")")))
    case Times(op, greedy, a) => "(" + (Written(a) + (")" + Operator(op, greedy)))
  }

  function Operator(op: char, greedy: bool): string {
    if greedy then [op] else [op, '?']
  }

  /** What it says of the part from i to j of a text. */
  ghost predicate Says(e: Expr, s: string, i: nat, j: nat)
    requires i <= j <= |s|
    decreases e, 0
  {
    match e
    case Char(c) => s[i..j] == [c]
    case Escaped(c) => s[i..j] == [c]
    case Any => j == i + 1 && s[i] != '\n'
    case Start => i == j == 0
    case Stop => i == j == |s|
    case Both(a, b) => exists k | i <= k <= j :: Says(a, s, i, k) && Says(b, s, k, j)
    case Either(a, b) => Says(a, s, i, j) || Says(b, s, i, j)
    case Times(op, _, a) => exists n: nat :: Allows(op, n) && SaysTimes(a, s, i, j, n)
  }

  ghost predicate SaysTimes(e: Expr, s: string, i: nat, j: nat, n: nat)
    requires i <= j <= |s|
    decreases e, n + 1
  {
    if n == 0 then i == j else exists k | i <= k <= j :: Says(e, s, i, k) && SaysTimes(e, s, k, j, n - 1)
  }

  // ---------------------------------------------------------------- reading back

  /** The sequence that is being read once the expression has been read behind it. */
  function Onto(cat: Regex, e: Expr): Regex
    requires WellFormed(e)
    decreases e
  {
    match e
    case Char(c) => Cat(cat, Lit(c))
    case Escaped(c) => Cat(cat, Lit(c))
    case Any => Cat(cat, Dot)
    case Start => Cat(cat, Begin)
    case Stop => Cat(cat, End)
    case Both(a, b) => Onto(Onto(cat, a), b)
    case Either(a, b) => Cat(cat, Alt(Onto(Empty, a), Onto(Empty, b)))
    case Times(op, _, a) => Cat(cat, Repeat(op, Onto(Empty, a)))
  }

  function ModeAfter(e: Expr): Mode {
    match e
    case Both(_, b) => ModeAfter(b)
    case Times(_, greedy, _) => if greedy then Repeated else Settled
    case _ => Plain
  }

  function After(s: State, e: Expr): State
    requires s.Open? && WellFormed(e)
  {
    Open(s.outer, s.top.(cat := Onto(s.top.cat, e)), ModeAfter(e))
  }

  lemma {:induction false} NeverEscaping(e: Expr)
    ensures ModeAfter(e) != Escaping
  {
    if e.Both? {
      NeverEscaping(e.second);
    }
  }

  lemma ReadCharacter(s: State, c: char)
    requires s.Open? && s.mode != Escaping
    ensures ReadAll(s, Written(Char(c))) == After(s, Char(c))
  {
    if c in SPECIAL {
      ReadEscaped(s, c);
    } else {
      ReadOne(s, c);
    }
  }

  lemma ReadEscaped(s: State, c: char)
    requires s.Open? && s.mode != Escaping && WellFormed(Escaped(c))
    ensures ReadAll(s, Written(Escaped(c))) == After(s, Escaped(c))
  {
    var t := Read(s, '\\');
    assert ("\\" + [c])[1..] == [c] && [c][1..] == "";
    assert ReadAll(s, "\\" + [c]) == ReadAll(t, [c]);
    assert ReadAll(t, [c]) == ReadAll(Read(t, c), "");
  }

  lemma ReadOne(s: State, c: char)
    ensures ReadAll(s, [c]) == Read(s, c)
  {
    assert [c][1..] == "";
    assert ReadAll(s, [c]) == ReadAll(Read(s, c), "");
  }

  lemma ReadThen(s: State, c: char, rest: string)
    ensures ReadAll(s, [c] + rest) == ReadAll(Read(s, c), rest)
  {
    assert ([c] + rest)[1..] == rest;
  }

  /** Written out and read, an expression adds itself to the sequence and closes all that it opens. */
  lemma {:induction false} ReadsBack(s: State, e: Expr)
    requires s.Open? && s.mode != Escaping && WellFormed(e)
    ensures ReadAll(s, Written(e)) == After(s, e)
    decreases e
  {
    hide Read, AltOf;
    match e
    case Char(c) => ReadCharacter(s, c);
    case Escaped(c) => ReadEscaped(s, c);
    case Any => ReadSign(s, '.');
    case Start => ReadSign(s, '^');
    case Stop => ReadSign(s, '$');
    case Both(a, b) =>
      ReadAllConcat(s, Written(a), Written(b));
      ReadsBack(s, a);
      NeverEscaping(a);
      ReadsBack(After(s, a), b);
    case Either(a, b) =>
      NeverEscaping(a);
      NeverEscaping(b);
      var open := Open(s.outer + [s.top], Frame([], Empty), Plain);
      ReadsBack(open, a);
      var bar := Open(s.outer + [s.top], Frame([Onto(Empty, a)], Empty), Plain);
      ReadsBack(bar, b);
      ReadGroup(s, open, Written(a) + ("|" + (Written(b) + ")")));
      ReadAllConcat(open, Written(a), "|" + (Written(b) + ")"));
      ReadBar(s, a, Written(b) + ")");
      ReadAllConcat(bar, Written(b), ")");
      ReadClose(s, After(bar, b));
      TwoAlternatives(Onto(Empty, a), Onto(Empty, b));
    case Times(op, greedy, a) =>
      NeverEscaping(a);
      var open := Open(s.outer + [s.top], Frame([], Empty), Plain);
      ReadsBack(open, a);
      ReadGroup(s, open, Written(a) + (")" + Operator(op, greedy)));
      ReadAllConcat(open, Written(a), ")" + Operator(op, greedy));
      ReadThen(After(open, a), ')', Operator(op, greedy));
      ReadClose(s, After(open, a));
      OneAlternative(Onto(Empty, a));
      ReadOperator(s, Onto(Empty, a), op, greedy);
  }

  lemma ReadSign(s: State, c: char)
    requires s.Open? && s.mode != Escaping && c in ".^$"
    ensures ReadAll(s, [c]) == Append(s, if c == '.' then Dot else if c == '^' then Begin else End)
  {
    ReadOne(s, c);
  }

  lemma ReadGroup(s: State, open: State, rest: string)
    requires s.Open? && s.mode != Escaping && open == Open(s.outer + [s.top], Frame([], Empty), Plain)
    ensures ReadAll(s, "(" + rest) == ReadAll(open, rest)
  {
    ReadThen(s, '(', rest);
  }

  lemma ReadBar(s: State, a: Expr, rest: string)
    requires s.Open? && WellFormed(a) && ModeAfter(a) != Escaping
    ensures var open := Open(s.outer + [s.top], Frame([], Empty), Plain);
            ReadAll(After(open, a), "|" + rest) ==
            ReadAll(Open(s.outer + [s.top], Frame([Onto(Empty, a)], Empty), Plain), rest)
  {
    var open := Open(s.outer + [s.top], Frame([], Empty), Plain);
    ReadThen(After(open, a), '|', rest);
    assert [] + [Onto(Empty, a)] == [Onto(Empty, a)];
  }

  lemma ReadClose(s: State, t: State)
    requires s.Open? && t.Open? && t.mode != Escaping && t.outer == s.outer + [s.top]
    ensures Read(t, ')') == Append(s, AltOf(t.top.alts + [t.top.cat]))
    ensures ReadAll(t, ")") == Append(s, AltOf(t.top.alts + [t.top.cat]))
  {
    hide AltOf;
    ReadOne(t, ')');
    assert t.outer[..|t.outer| - 1] == s.outer;
  }

  lemma ReadOperator(s: State, x: Regex, op: char, greedy: bool)
    requires s.Open? && IsOperator(op)
    ensures ReadAll(Append(s, x), Operator(op, greedy)) ==
            Open(s.outer, s.top.(cat := Cat(s.top.cat, Repeat(op, x))), if greedy then Repeated else Settled)
  {
    var t := Append(s, x);
    if greedy {
      ReadOne(t, op);
    } else {
      assert [op, '?'] == [op] + "?";
      ReadThen(t, op, "?");
      ReadOne(Read(t, op), '?');
    }
  }

  lemma OneAlternative(x: Regex)
    ensures AltOf([] + [x]) == x
  {
    assert [] + [x] == [x];
  }

  lemma TwoAlternatives(x: Regex, y: Regex)
    ensures AltOf([x] + [y]) == Alt(x, y)
  {
    assert ([x] + [y])[1..] == [y];
  }

  // ---------------------------------------------------------------- the meaning

  ghost predicate Meets(cat: Regex, e: Expr, s: string, i: nat, k: nat, j: nat)
    requires i <= k <= j <= |s|
  {
    Match(cat, s, i, k) && Says(e, s, k, j)
  }

  /** What was read before matches the first part, and the rest is as the expression says. */
  ghost predicate Onward(cat: Regex, e: Expr, s: string, i: nat, j: nat)
    requires i <= j <= |s|
  {
    exists k | i <= k <= j :: Meets(cat, e, s, i, k, j)
  }

  lemma {:induction false} OntoMatches(cat: Regex, e: Expr, s: string, i: nat, j: nat)
    requires i <= j <= |s| && WellFormed(e)
    ensures Match(Onto(cat, e), s, i, j) <==> Onward(cat, e, s, i, j)
    decreases e, 1
  {
    if e.Both? {
      hide Match, Says, Onward;
      OntoMatches(Onto(cat, e.first), e.second, s, i, j);
      forall k | i <= k <= j
        ensures Match(Onto(cat, e.first), s, i, k) <==> Onward(cat, e.first, s, i, k)
      {
        OntoMatches(cat, e.first, s, i, k);
      }
      BothRegroup(cat, Onto(cat, e.first), e.first, e.second, s, i, j);
    } else {
      hide Match, Says, Onward;
      forall k | i <= k <= j
        ensures Match(ItemOf(e), s, k, j) <==> Says(e, s, k, j)
      {
        ItemMatches(e, s, k, j);
      }
      ThenMatches(cat, ItemOf(e), e, s, i, j);
    }
  }

  /** What an expression that is no sequence adds to the sequence being read. */
  function ItemOf(e: Expr): (x: Regex)
    requires WellFormed(e) && !e.Both?
    ensures forall cat: Regex :: Onto(cat, e) == Cat(cat, x)
  {
    match e
    case Char(c) => Lit(c)
    case Escaped(c) => Lit(c)
    case Any => Dot
    case Start => Begin
    case Stop => End
    case Either(a, b) => Alt(Onto(Empty, a), Onto(Empty, b))
    case Times(op, _, a) => Repeat(op, Onto(Empty, a))
  }

  lemma {:induction false} ItemMatches(e: Expr, s: string, i: nat, j: nat)
    requires i <= j <= |s| && WellFormed(e) && !e.Both?
    ensures Match(ItemOf(e), s, i, j) <==> Says(e, s, i, j)
    decreases e, 0
  {
    match e
    case Either(a, b) =>
      AloneMatches(a, s, i, j);
      AloneMatches(b, s, i, j);
    case Times(op, _, a) => TimesMatches(op, a, s, i, j);
    case _ =>
  }

  lemma CatSplits(a: Regex, b: Regex, s: string, i: nat, j: nat) returns (k: nat)
    requires i <= j <= |s| && Match(Cat(a, b), s, i, j)
    ensures i <= k <= j && Match(a, s, i, k) && Match(b, s, k, j)
  {
    k :| i <= k <= j && Match(a, s, i, k) && Match(b, s, k, j);
  }

  lemma CatJoins(a: Regex, b: Regex, s: string, i: nat, k: nat, j: nat)
    requires i <= k <= j <= |s| && Match(a, s, i, k) && Match(b, s, k, j)
    ensures Match(Cat(a, b), s, i, j)
  {
  }

  lemma BothSplits(a: Expr, b: Expr, s: string, i: nat, j: nat) returns (k: nat)
    requires i <= j <= |s| && Says(Both(a, b), s, i, j)
    ensures i <= k <= j && Says(a, s, i, k) && Says(b, s, k, j)
  {
    k :| i <= k <= j && Says(a, s, i, k) && Says(b, s, k, j);
  }

  lemma BothJoins(a: Expr, b: Expr, s: string, i: nat, k: nat, j: nat)
    requires i <= k <= j <= |s| && Says(a, s, i, k) && Says(b, s, k, j)
    ensures Says(Both(a, b), s, i, j)
  {
  }

  lemma ThenMatches(cat: Regex, x: Regex, e: Expr, s: string, i: nat, j: nat)
    requires i <= j <= |s|
    requires forall k | i <= k <= j :: Match(x, s, k, j) <==> Says(e, s, k, j)
    ensures Match(Cat(cat, x), s, i, j) <==> Onward(cat, e, s, i, j)
  {
    hide Says, Match;
    if Match(Cat(cat, x), s, i, j) {
      var k := CatSplits(cat, x, s, i, j);
      assert Meets(cat, e, s, i, k, j);
    }
    if Onward(cat, e, s, i, j) {
      var k :| i <= k <= j && Meets(cat, e, s, i, k, j);
      assert Match(x, s, k, j);
      CatJoins(cat, x, s, i, k, j);
    }
  }

  lemma BothRegroup(cat: Regex, mid: Regex, a: Expr, b: Expr, s: string, i: nat, j: nat)
    requires i <= j <= |s|
    requires forall k | i <= k <= j :: Match(mid, s, i, k) <==> Onward(cat, a, s, i, k)
    ensures Onward(mid, b, s, i, j) <==> Onward(cat, Both(a, b), s, i, j)
  {
    hide Says, Match;
    if Onward(mid, b, s, i, j) {
      var k :| i <= k <= j && Meets(mid, b, s, i, k, j);
      assert Onward(cat, a, s, i, k);
      OnwardJoins(cat, a, b, s, i, k, j);
    }
    if Onward(cat, Both(a, b), s, i, j) {
      var k := OnwardSplits(cat, a, b, s, i, j);
      assert Meets(mid, b, s, i, k, j);
    }
  }

  lemma OnwardJoins(cat: Regex, a: Expr, b: Expr, s: string, i: nat, k: nat, j: nat)
    requires i <= k <= j <= |s| && Onward(cat, a, s, i, k) && Says(b, s, k, j)
    ensures Onward(cat, Both(a, b), s, i, j)
  {
    hide Says, Match;
    var l :| i <= l <= k && Meets(cat, a, s, i, l, k);
    BothJoins(a, b, s, l, k, j);
    assert Meets(cat, Both(a, b), s, i, l, j);
  }

  lemma OnwardSplits(cat: Regex, a: Expr, b: Expr, s: string, i: nat, j: nat) returns (k: nat)
    requires i <= j <= |s| && Onward(cat, Both(a, b), s, i, j)
    ensures i <= k <= j && Onward(cat, a, s, i, k) && Says(b, s, k, j)
  {
    hide Says, Match;
    var l :| i <= l <= j && Meets(cat, Both(a, b), s, i, l, j);
    k := BothSplits(a, b, s, l, j);
    assert Meets(cat, a, s, i, l, k);
  }

  /** An expression on its own. */
  lemma {:induction false} AloneMatches(e: Expr, s: string, i: nat, j: nat)
    requires i <= j <= |s| && WellFormed(e)
    ensures Match(Onto(Empty, e), s, i, j) <==> Says(e, s, i, j)
    decreases e, 2
  {
    hide Says;
    OntoMatches(Empty, e, s, i, j);
    assert Meets(Empty, e, s, i, i, j) <==> Says(e, s, i, j);
  }

  lemma {:induction false} TimesMatches(op: char, a: Expr, s: string, i: nat, j: nat)
    requires i <= j <= |s| && WellFormed(a) && IsOperator(op)
    ensures Match(Repeat(op, Onto(Empty, a)), s, i, j) <==> exists n: nat :: Allows(op, n) && SaysTimes(a, s, i, j, n)
    decreases a, 4
  {
    RepeatMatches(op, Onto(Empty, a), s, i, j);
    forall n: nat
      ensures Pieces(Onto(Empty, a), s, i, j, n) <==> SaysTimes(a, s, i, j, n)
    {
      PiecesSay(a, s, i, j, n);
    }
  }

  lemma {:induction false} PiecesSay(a: Expr, s: string, i: nat, j: nat, n: nat)
    requires i <= j <= |s| && WellFormed(a)
    ensures Pieces(Onto(Empty, a), s, i, j, n) <==> SaysTimes(a, s, i, j, n)
    decreases a, 3, n
  {
    if n > 0 {
      forall k | i <= k <= j
        ensures Match(Onto(Empty, a), s, i, k) <==> Says(a, s, i, k)
        ensures Pieces(Onto(Empty, a), s, k, j, n - 1) <==> SaysTimes(a, s, k, j, n - 1)
      {
        AloneMatches(a, s, i, k);
        PiecesSay(a, s, k, j, n - 1);
      }
    }
  }

  /** Every expression, written out, compiles, and matches exactly what it says. */
  lemma WrittenMeans(e: Expr, s: string, i: nat, j: nat)
    requires WellFormed(e) && i <= j <= |s|
    ensures Alternatives(Written(e)).Some? && |Alternatives(Written(e)).value| == 1
    ensures Match(Compile(Written(e)).value, s, i, j) <==> Says(e, s, i, j)
  {
    hide Match, Says, ReadAll;
    ReadsBack(START, e);
    NeverEscaping(e);
    AloneMatches(e, s, i, j);
    assert [] + [Onto(Empty, e)] == [Onto(Empty, e)];
  }

  /** As a rule in small letters it accepts the local parts it describes as a whole, unless it ends in
      an escaped '$'. */
  lemma WrittenRule(e: Expr, user: string)
    requires WellFormed(e) && Lower(Written(e)) == Written(e) && !FreeFront(Written(e)) && !FreeEnd(Written(e))
    ensures Verdict(Written(e), user) == Some(Says(e, user, 0, |user|))
  {
    hide Match, Says, Verdict, Alternatives, FreeFront, FreeEnd, Written, WellFormed, Lower;
    WrittenMeans(e, user, 0, |user|);
    CheckIsFullMatch(Written(e), user);
  }

  // ---------------------------------------------------------------- what does not compile

  lemma {:induction false} StaysOpen(s: State, e: Expr, rest: string)
    requires s.Open? && s.mode != Escaping && WellFormed(e)
    ensures ReadAll(s, Written(e) + rest) == ReadAll(After(s, e), rest)
  {
    ReadAllConcat(s, Written(e), rest);
    ReadsBack(s, e);
  }

  /** A parenthesis too many, or one too few. */
  lemma Unbalanced(e: Expr)
    requires WellFormed(e)
    ensures Alternatives(Written(e) + ")").None? && Alternatives("(" + Written(e)).None?
  {
    NeverEscaping(e);
    StaysOpen(START, e, ")");
    ReadOne(After(START, e), ')');
    var open := Open([START.top], Frame([], Empty), Plain);
    assert START.outer + [START.top] == [START.top];
    ReadGroup(START, open, Written(e));
    ReadsBack(open, e);
  }

  /** An operator on an operator, unless it is the one '?' that makes it lazy; and an operator on nothing. */
  lemma Doubled(e: Expr, op: char, greedy: bool, second: char)
    requires WellFormed(e) && op in "*+?" && second in "*+?" && (second == '?' ==> !greedy)
    ensures Alternatives(Written(Times(op, greedy, e)) + [second]).None?
    ensures Alternatives([second] + Written(e)).None? && Alternatives(Written(e) + ("|" + [second])).None?
  {
    hide Repeat, Written, Alternatives;
    TwiceFails(e, op, greedy, second);
    StartFails([second] + Written(e));
    BarFails(e, second);
  }

  lemma TwiceFails(e: Expr, op: char, greedy: bool, second: char)
    requires WellFormed(e) && op in "*+?" && second in "*+?" && (second == '?' ==> !greedy)
    ensures Alternatives(Written(Times(op, greedy, e)) + [second]).None?
  {
    hide Repeat, Written, Onto;
    NeverEscaping(e);
    StaysOpen(START, Times(op, greedy, e), [second]);
    ReadOne(After(START, Times(op, greedy, e)), second);
  }

  lemma BarFails(e: Expr, second: char)
    requires WellFormed(e) && second in "*+?"
    ensures Alternatives(Written(e) + ("|" + [second])).None?
  {
    hide Repeat, Written, Onto;
    NeverEscaping(e);
    StaysOpen(START, e, "|" + [second]);
    ReadThen(After(START, e), '|', [second]);
    ReadOne(Read(After(START, e), '|'), second);
  }

  /** What the model leaves out: a class, a counted repetition, and a backslash before a letter or digit,
      or at the end. */
  lemma LeftOut(e: Expr, c: char, rest: string)
    requires WellFormed(e)
    ensures c == '[' || c == '{' ==> Alternatives(Written(e) + ([c] + rest)).None?
    ensures IsDigitOrLetter(c) ==> Alternatives(Written(e) + ("\\" + ([c] + rest))).None?
    ensures Alternatives(Written(e) + "\\").None?
  {
    hide ReadAll, After, Written, Alternatives;
    NeverEscaping(e);
    if c == '[' || c == '{' {
      BadBehind(e, c, rest);
    }
    BadEscape(e, c, rest);
  }

  lemma BadBehind(e: Expr, c: char, rest: string)
    requires WellFormed(e) && (c == '[' || c == '{')
    ensures Alternatives(Written(e) + ([c] + rest)).None?
  {
    hide Written;
    NeverEscaping(e);
    StaysOpen(START, e, [c] + rest);
    ReadThen(After(START, e), c, rest);
    StaysBad(rest);
  }

  lemma BadEscape(e: Expr, c: char, rest: string)
    requires WellFormed(e)
    ensures IsDigitOrLetter(c) ==> Alternatives(Written(e) + ("\\" + ([c] + rest))).None?
    ensures Alternatives(Written(e) + "\\").None?
  {
    hide Written, Onto;
    NeverEscaping(e);
    var s := After(START, e);
    StaysOpen(START, e, "\\" + ([c] + rest));
    ReadThen(s, '\\', [c] + rest);
    ReadThen(Read(s, '\\'), c, rest);
    StaysBad(rest);
    StaysOpen(START, e, "\\");
    ReadOne(s, '\\');
  }
}
