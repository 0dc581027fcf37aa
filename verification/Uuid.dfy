/** Session identifiers and their text form (section 3 of RFC 4122), as the return
    path prints and parses them. */
module Uuid {
  import opened Text

  type Nibble = n: int | 0 <= n < 16

  /** Sixteen octets, kept as thirty-two hexadecimal digits. */
  type Uuid = u: seq<Nibble> | |u| == 32 witness seq(32, _ => 0)

  /** `uuid.Nil`. */
  predicate IsNil(u: Uuid) {
    forall i :: 0 <= i < 32 ==> u[i] == 0
  }

  const DIGITS: string := "0123456789abcdef"

  function Digit(n: Nibble): char {
    DIGITS[n]
  }

  function Value(c: char): Option<Nibble> {
    if '0' <= c <= '9' then Some((c - '0') as int)
    else if 'a' <= c <= 'f' then Some((c - 'a') as int + 10)
    else if 'A' <= c <= 'F' then Some((c - 'A') as int + 10)
    else None
  }

  lemma ValueOfDigit(n: Nibble)
    ensures Value(Digit(n)) == Some(n)
    ensures Digit(n) !in "@=" && Digit(n) != '-'
  {
    var c := Digit(n);
    assert n < 10 ==> c == '0' + n as char;
    assert n >= 10 ==> c == 'a' + (n - 10) as char;
  }

  /** The dashes stand before the digits 8, 12, 16 and 20. */
  predicate DashAt(k: nat) {
    k == 8 || k == 13 || k == 18 || k == 23
  }

  /** How many dashes stand before position k of the text. */
  function DashesBefore(k: nat): nat {
    if k <= 8 then 0 else if k <= 13 then 1 else if k <= 18 then 2 else if k <= 23 then 3 else 4
  }

  function Print(u: Uuid): (s: string)
    ensures |s| == 36
  {
    seq(36, k requires 0 <= k < 36 => if DashAt(k) then '-' else Digit(u[k - DashesBefore(k)]))
  }

  function Position(i: nat): (k: nat)
    requires i < 32
    ensures k < 36 && !DashAt(k) && k - DashesBefore(k) == i
  {
    if i < 8 then i else if i < 12 then i + 1 else if i < 16 then i + 2 else if i < 20 then i + 3 else i + 4
  }

  /** The dashed form of `uuid.Parse`. */
  function ParseDashed(s: string): Option<Uuid>
    requires |s| == 36
  {
    if s[8] != '-' || s[13] != '-' || s[18] != '-' || s[23] != '-' then None
    else if exists i :: 0 <= i < 32 && Value(s[Position(i)]) == None then None
    else Some(seq(32, i requires 0 <= i < 32 => Value(s[Position(i)]).value))
  }

  /** `uuid.Parse`: dashed, dashed in braces, dashed with a URN prefix, or bare digits. */
  function Parse(s: string): Option<Uuid> {
    if |s| == 36 then ParseDashed(s)
    else if |s| == 45 then (if Lower(s[..9]) != "urn:uuid:" then None else ParseDashed(s[9..]))
    else if |s| == 38 then ParseDashed(s[1..37])
    else if |s| == 32 then
      if exists i :: 0 <= i < 32 && Value(s[i]) == None then None
      else Some(seq(32, i requires 0 <= i < 32 => Value(s[i]).value))
    else None
  }

  /** A printed id is its thirty-two digits in five groups: 8, 4, 4, 4 and 12 of them. */
  lemma PrintedForm(u: Uuid)
    ensures var digits := seq(32, i requires 0 <= i < 32 => DIGITS[u[i]]);
            Print(u) == digits[..8] + "-" + digits[8..12] + "-" + digits[12..16] + "-" + digits[16..20] + "-" +
                        digits[20..]
  {
  }

  lemma RoundTrip(u: Uuid)
    ensures Parse(Print(u)) == Some(u)
  {
    var s := Print(u);
    forall i | 0 <= i < 32
      ensures Value(s[Position(i)]) == Some(u[i])
    {
      ValueOfDigit(u[i]);
    }
    assert ParseDashed(s).Some?;
    assert ParseDashed(s).value == u;
  }

  /** The other forms that are read: in braces, behind a URN prefix in any case, and bare digits. A
      text of any other length is none. */
  lemma OtherForms(u: Uuid, brace: char, unbrace: char, prefix: string)
    requires Lower(prefix) == "urn:uuid:"
    ensures Parse([brace] + Print(u) + [unbrace]) == Some(u)
    ensures Parse(prefix + Print(u)) == Some(u)
    ensures Parse(seq(32, i requires 0 <= i < 32 => DIGITS[u[i]])) == Some(u)
    ensures forall s :: Parse(s).Some? ==> |s| in {32, 36, 38, 45}
  {
    hide Print, ParseDashed, Value, Lower;
    var p := Print(u);
    DashedRoundTrip(u);
    assert ([brace] + p + [unbrace])[1..37] == p;
    assert |prefix| == 9 && (prefix + p)[..9] == prefix && (prefix + p)[9..] == p;
    BareDigits(u);
  }

  lemma DashedRoundTrip(u: Uuid)
    ensures ParseDashed(Print(u)) == Some(u)
  {
    RoundTrip(u);
  }

  lemma BareDigits(u: Uuid)
    ensures Parse(seq(32, i requires 0 <= i < 32 => DIGITS[u[i]])) == Some(u)
  {
    var bare := seq(32, i requires 0 <= i < 32 => DIGITS[u[i]]);
    forall i | 0 <= i < 32
      ensures Value(bare[i]) == Some(u[i])
    {
      ValueOfDigit(u[i]);
    }
    hide Value;
    assert Parse(bare).value == u;
  }

  /** Digits are read in either case. */
  lemma EitherCase(c: char)
    ensures Value(LowerChar(c)) == Value(c)
  {
  }

  lemma PrintedCharacters(u: Uuid)
    ensures '@' !in Print(u) && '=' !in Print(u)
  {
    var s := Print(u);
    forall k | 0 <= k < 36
      ensures s[k] != '@' && s[k] != '='
    {
      if !DashAt(k) {
        ValueOfDigit(u[k - DashesBefore(k)]);
      }
    }
  }
}
