/** The text form of a chat message, `id|message`, as the handler prints it and the chat manager
    parses it back. */
module ChatCodec {
  import opened Options

  datatype Chat = Chat(playerId: int, message: string)

  const INT64_MIN := -0x8000_0000_0000_0000
  const INT64_MAX := 0x7FFF_FFFF_FFFF_FFFF
  const TWO_64 := 0x1_0000_0000_0000_0000

  predicate IsInt64(n: int) { INT64_MIN <= n <= INT64_MAX }

  /** A session's unsigned player id as the handler's signed variable sees it. */
  function ToInt64(id: nat): int
    requires id < TWO_64
  {
    if id <= INT64_MAX then id else id - TWO_64
  }

  // ---------------------------------------------------------------- printing

  function DigitChar(d: nat): char
    requires d < 10
  {
    '0' + d as char
  }

  function Digits(n: nat): string {
    if n < 10 then [DigitChar(n)] else Digits(n / 10) + [DigitChar(n % 10)]
  }

  function ToString(n: int): string { if n < 0 then "-" + Digits(-n) else Digits(n) }

  function Print(c: Chat): string { ToString(c.playerId) + "|" + c.message }

  // ---------------------------------------------------------------- parsing

  predicate IsDigit(c: char) { '0' <= c <= '9' }
  predicate IsSpace(c: char) { c == ' ' || '\t' <= c <= '\r' }

  function SkipSpaces(s: string): string {
    if s != "" && IsSpace(s[0]) then SkipSpaces(s[1..]) else s
  }

  /** The number of digits a text starts with. */
  function DigitCount(s: string): (k: nat)
    ensures k <= |s|
  {
    if s != "" && IsDigit(s[0]) then 1 + DigitCount(s[1..]) else 0
  }

  predicate AllDigits(s: string) { forall c :: c in s ==> IsDigit(c) }

  function Value(s: string): nat
    requires AllDigits(s)
  {
    if s == "" then 0
    else
      var last := s[|s| - 1];
      assert last in s;
      10 * Value(s[..|s| - 1]) + (last - '0') as nat
  }

  lemma {:induction false} DigitCountDigits(s: string)
    ensures AllDigits(s[..DigitCount(s)])
  {
    if s != "" && IsDigit(s[0]) {
      DigitCountDigits(s[1..]);
      assert s[..DigitCount(s)] == [s[0]] + s[1..][..DigitCount(s[1..])];
    }
  }

  /** `stoll`: optional white space, optional sign, at least one digit, anything after it ignored; none
      when there is no digit or the number does not fit 64 bits. */
  function ParseNumber(s: string): Option<int> {
    var t := SkipSpaces(s);
    var signed := t != "" && (t[0] == '-' || t[0] == '+');
    var u := if signed then t[1..] else t;
    var k := DigitCount(u);
    DigitCountDigits(u);
    var n: int := if signed && t[0] == '-' then 0 - Value(u[..k]) else Value(u[..k]);
    if k == 0 || !IsInt64(n) then None else Some(n)
  }

  /** Index of the first bar, or the length if there is none. */
  function FindBar(s: string): (i: nat)
    ensures i <= |s| && (forall k :: 0 <= k < i ==> s[k] != '|') && (i < |s| ==> s[i] == '|')
  {
    if s == "" || s[0] == '|' then 0 else 1 + FindBar(s[1..])
  }

  function Parse(s: string): Option<Chat> {
    var i := FindBar(s);
    if i == |s| then None
    else
      match ParseNumber(s[..i])
      case None => None
      case Some(n) => Some(Chat(n, s[i + 1..]))
  }

  // ---------------------------------------------------------------- round trip

  lemma {:induction false} DigitsAreDigits(n: nat)
    ensures Digits(n) != "" && AllDigits(Digits(n))
  {
    if n >= 10 { DigitsAreDigits(n / 10); }
  }

  lemma {:induction false} DigitsValue(n: nat)
    ensures AllDigits(Digits(n)) && Value(Digits(n)) == n
  {
    DigitsAreDigits(n);
    var s := Digits(n);
    if n >= 10 {
      DigitsValue(n / 10);
      assert s[..|s| - 1] == Digits(n / 10);
    } else {
      assert s[..0] == "";
    }
  }

  lemma {:induction false} DigitCountAll(s: string)
    requires AllDigits(s)
    ensures DigitCount(s) == |s|
  {
    if s != "" {
      assert s[0] in s;
      DigitCountAll(s[1..]);
    }
  }

  /** A printed number parses back to itself. */
  lemma NumberRoundTrip(n: int)
    requires IsInt64(n)
    ensures ParseNumber(ToString(n)) == Some(n)
  {
    var m := if n < 0 then -n else n;
    var s, ds := ToString(n), Digits(m);
    DigitsValue(m);
    DigitsAreDigits(m);
    DigitCountAll(ds);
    assert ds[0] in ds;
    assert SkipSpaces(s) == s;
    assert ds[..|ds|] == ds;
    if n < 0 { assert s[1..] == ds; }
  }

  lemma {:induction false} NoLeadingZero(n: nat)
    ensures Digits(n) != "" && (Digits(n)[0] == '0' ==> n == 0 && Digits(n) == "0")
  {
    if n >= 10 { NoLeadingZero(n / 10); }
  }

  /** A printed number is a minus sign if it is negative, and then its decimal digits without leading zeros. */
  lemma PrintedForm(n: int)
    ensures var s := ToString(n);
            var digits := if n < 0 then s[1..] else s;
            && s != "" && (n < 0 ==> s[0] == '-')
            && AllDigits(digits) && digits != "" && (digits[0] == '0' ==> digits == "0")
            && Value(digits) == if n < 0 then -n else n
  {
    var m := if n < 0 then -n else n;
    NoLeadingZero(m);
    DigitsValue(m);
    assert n < 0 ==> ToString(n)[1..] == Digits(m);
  }

  lemma NoBarInNumber(n: int)
    ensures forall c :: c in ToString(n) ==> c != '|'
  {
    DigitsAreDigits(if n < 0 then -n else n);
  }

  /** Every signed 64-bit id and every message, bars and all, come back as printed. */
  lemma RoundTrip(c: Chat)
    requires IsInt64(c.playerId)
    ensures Parse(Print(c)) == Some(c)
  {
    var s, number := Print(c), ToString(c.playerId);
    NoBarInNumber(c.playerId);
    NumberRoundTrip(c.playerId);
    assert s[|number|] == '|';
    assert forall k :: 0 <= k < |number| ==> s[k] == number[k] && number[k] in number;
    assert FindBar(s) == |number|;
    assert s[..|number|] == number;
    assert s[|number| + 1..] == c.message;
  }

  /** The same for the unsigned id of a session, which the handler reads as a signed number: the id that comes
      back is the session's modulo 2^64, and the session's own if that fits 63 bits. */
  lemma SessionRoundTrip(id: nat, message: string)
    requires id < TWO_64
    ensures var r := Parse(Print(Chat(ToInt64(id), message)));
            && r.Some? && r.value.message == message && IsInt64(r.value.playerId)
            && r.value.playerId % 0x1_0000_0000_0000_0000 == id
            && (id < 0x8000_0000_0000_0000 ==> r.value.playerId == id)
  {
    RoundTrip(Chat(ToInt64(id), message));
  }

  // ---------------------------------------------------------------- what the parser takes and refuses

  predicate AllSpaces(s: string) { forall c :: c in s ==> c in " \t\n\r" || c == 0xB as char || c == 0xC as char }

  lemma {:induction false} SkipsSpaces(spaces: string, s: string)
    requires AllSpaces(spaces) && (s == "" || !IsSpace(s[0]))
    ensures SkipSpaces(spaces + s) == s
  {
    if spaces == "" {
      assert spaces + s == s;
    } else {
      assert spaces[0] in spaces;
      assert (spaces + s)[1..] == spaces[1..] + s;
      SkipsSpaces(spaces[1..], s);
    }
  }

  lemma {:induction false} CountsDigits(digits: string, rest: string)
    requires AllDigits(digits) && (rest == "" || !('0' <= rest[0] <= '9'))
    ensures DigitCount(digits + rest) == |digits|
  {
    if digits == "" {
      assert digits + rest == rest;
    } else {
      assert digits[0] in digits;
      assert (digits + rest)[1..] == digits[1..] + rest;
      CountsDigits(digits[1..], rest);
    }
  }

  /** A number is read past white space and one sign, as far as its digits go; what follows is ignored. It is
      refused when there is no digit or it does not fit 64 bits. */
  lemma NumberForm(spaces: string, sign: string, digits: string, rest: string)
    requires AllSpaces(spaces) && (sign == "" || sign == "-" || sign == "+") && AllDigits(digits)
    requires rest == "" || !('0' <= rest[0] <= '9')
    requires digits == "" && sign == "" ==> rest == "" || (rest[0] != '-' && rest[0] != '+' && !IsSpace(rest[0]))
    ensures var n := if sign == "-" then -(Value(digits) as int) else Value(digits);
            ParseNumber(spaces + sign + digits + rest) ==
            if digits == "" || n < -0x8000_0000_0000_0000 || n > 0x7FFF_FFFF_FFFF_FFFF then None else Some(n)
  {
    var t := sign + digits + rest;
    assert spaces + sign + digits + rest == spaces + t;
    if sign == "" && digits != "" { assert digits[0] in digits && t[0] == digits[0]; }
    SkipsSpaces(spaces, t);
    NoSpace(t);
    SignedDigits(sign, digits, rest);
  }

  lemma NoSpace(t: string)
    requires t == "" || !IsSpace(t[0])
    ensures SkipSpaces(t) == t
  {}

  lemma DigitsTaken(digits: string, rest: string)
    requires AllDigits(digits) && (rest == "" || !('0' <= rest[0] <= '9'))
    ensures DigitCount(digits + rest) == |digits| && (digits + rest)[..|digits|] == digits
  {
    CountsDigits(digits, rest);
  }

  lemma SignedDigits(sign: string, digits: string, rest: string)
    requires (sign == "" || sign == "-" || sign == "+") && AllDigits(digits) && (rest == "" || !('0' <= rest[0] <= '9'))
    requires digits == "" && sign == "" ==> rest == "" || (rest[0] != '-' && rest[0] != '+' && !IsSpace(rest[0]))
    ensures var n := if sign == "-" then -(Value(digits) as int) else Value(digits);
            ParseNumber(sign + digits + rest) == if digits == "" || !IsInt64(n) then None else Some(n)
  {
    DigitsTaken(digits, rest);
    if sign == "" {
      assert sign + digits + rest == digits + rest;
      UnsignedDigits(digits, rest);
    } else {
      WithSign(sign, digits, rest);
    }
  }

  lemma UnsignedDigits(digits: string, rest: string)
    requires AllDigits(digits) && DigitCount(digits + rest) == |digits| && (digits + rest)[..|digits|] == digits
    requires digits == "" ==> rest == "" || (rest[0] != '-' && rest[0] != '+' && !IsSpace(rest[0]))
    ensures ParseNumber(digits + rest) == if digits == "" || !IsInt64(Value(digits)) then None else Some(Value(digits))
  {
    if digits != "" { assert digits[0] in digits && (digits + rest)[0] == digits[0]; } else { assert digits + rest == rest; }
    NoSpace(digits + rest);
  }

  lemma WithSign(sign: string, digits: string, rest: string)
    requires (sign == "-" || sign == "+") && AllDigits(digits)
    requires DigitCount(digits + rest) == |digits| && (digits + rest)[..|digits|] == digits
    ensures var n := if sign == "-" then -(Value(digits) as int) else Value(digits);
            ParseNumber(sign + digits + rest) == if digits == "" || !IsInt64(n) then None else Some(n)
  {
    var t := sign + digits + rest;
    assert t[0] == sign[0] && t[1..] == digits + rest;
    NoSpace(t);
  }

  /** A text is refused exactly when it has no bar or no number before the first one. */
  lemma RefusedIff(s: string)
    ensures Parse(s).None? <==> '|' !in s || exists i :: 0 <= i < |s| && s[i] == '|' && '|' !in s[..i] && ParseNumber(s[..i]).None?
  {
    var i := FindBar(s);
    if i == |s| {
      assert '|' !in s;
    } else {
      assert '|' !in s[..i];
      forall j | i < j <= |s| ensures '|' in s[..j] { assert s[..j][i] == '|'; }
    }
  }

  /** Different messages print differently. */
  lemma PrintInjective(c: Chat, d: Chat)
    requires IsInt64(c.playerId) && IsInt64(d.playerId) && Print(c) == Print(d)
    ensures c == d
  {
    RoundTrip(c);
    RoundTrip(d);
  }
}
