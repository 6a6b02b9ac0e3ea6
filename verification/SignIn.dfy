/**
 The sign-in message: printing it, parsing it back, and the nonce format.
 */
module SignIn {
  import opened Domain

  const PREFIX := "Sign in to bns.zone at "
  const MIDDLE := " with nonce "
  const MAX_TIME_DRIFT: int := 300
  const I64_MIN: int := -0x8000_0000_0000_0000
  const I64_MAX: int := 0x7fff_ffff_ffff_ffff

  datatype Parsed = Parsed(timestamp: int, nonce: string)

  // ---------- decimal integers ----------

  predicate IsDigit(c: char) {
    '0' <= c <= '9'
  }

  function DigitChar(d: nat): char
    requires d < 10
  {
    ['0', '1', '2', '3', '4', '5', '6', '7', '8', '9'][d]
  }

  function DigitsOf(n: nat): string {
    if n < 10 then [DigitChar(n)] else DigitsOf(n / 10) + [DigitChar(n % 10)]
  }

  // `{}` of an integer.
  function Print(n: int): string {
    if n < 0 then ['-'] + DigitsOf(-n) else DigitsOf(n)
  }

  function Digits(s: string): Option<nat> {
    if s == "" then Some(0)
    else
      var rest := Digits(s[..|s| - 1]);
      var c := s[|s| - 1];
      if rest.Some? && IsDigit(c) then Some(10 * rest.value + (c as int - '0' as int)) else None
  }

  function InI64(n: int): Option<int> {
    if I64_MIN <= n <= I64_MAX then Some(n) else None
  }

  // `parse::<i64>`: an optional sign, then at least one digit, within range.
  function ParseI64(s: string): Option<int> {
    if s == "" then None
    else
      var signed := s[0] == '-' || s[0] == '+';
      var body := if signed then s[1..] else s;
      if body == "" || Digits(body).None? then None
      else
        var n: int := Digits(body).value;
        InI64(if s[0] == '-' then -n else n)
  }

  // ---------- splitting ----------

  predicate StartsWith(s: string, prefix: string) {
    |prefix| <= |s| && s[..|prefix|] == prefix
  }

  // splitn(2, separator): the parts around its first occurrence.
  function SplitFirst(s: string, separator: string): Option<(string, string)>
    requires separator != ""
  {
    if StartsWith(s, separator) then Some(("", s[|separator|..]))
    else if s == "" then None
    else
      match SplitFirst(s[1..], separator)
      case Some((a, b)) => Some(([s[0]] + a, b))
      case None => None
  }

  // ---------- the message ----------

  function Generate(timestamp: int, nonce: string): string {
    PREFIX + Print(timestamp) + MIDDLE + nonce
  }

  function Parse(message: string): Result<Parsed> {
    var _ :- Need(StartsWith(message, PREFIX), BadRequest);
    var parts := SplitFirst(message[|PREFIX|..], MIDDLE);
    var _ :- Need(parts.Some?, BadRequest);
    var timestamp := ParseI64(parts.value.0);
    var _ :- Need(timestamp.Some?, BadRequest);
    Success(Parsed(timestamp.value, parts.value.1))
  }

  predicate NonceChar(c: char) {
    IsDigit(c) || 'a' <= c <= 'z' || 'A' <= c <= 'Z' || c == '-'
  }

  function ValidateNonce(nonce: string): Result<()> {
    Need(8 <= |nonce| <= 64 && forall i :: 0 <= i < |nonce| ==> NonceChar(nonce[i]), BadRequest)
  }

  // i64 arithmetic of a release build: the difference wraps around, and the
  // smallest value is its own absolute value.
  function WrapI64(n: int): int {
    (n - I64_MIN) % 0x1_0000_0000_0000_0000 + I64_MIN
  }

  function AbsI64(n: int): int {
    if n == I64_MIN then I64_MIN else if n < 0 then -n else n
  }

  // The checks on a message before its signature: form, nonce, clock drift.
  function Check(message: string, now: int): Result<Parsed> {
    var p :- Parse(message);
    var _ :- ValidateNonce(p.nonce);
    var _ :- Need(AbsI64(WrapI64(now - p.timestamp)) <= MAX_TIME_DRIFT, Unauthorized);
    Success(p)
  }

  // ---------- round trip ----------

  lemma {:induction false} DigitsOfFacts(n: nat)
    ensures DigitsOf(n) != "" && Digits(DigitsOf(n)) == Some(n)
    ensures forall c :: c in DigitsOf(n) ==> IsDigit(c)
  {
    var s := DigitsOf(n);
    if n < 10 {
      assert s[..0] == "" && s[0] == DigitChar(n);
    } else {
      DigitsOfFacts(n / 10);
      assert s[..|s| - 1] == DigitsOf(n / 10) && s[|s| - 1] == DigitChar(n % 10);
    }
  }

  lemma ParseDigits(n: nat)
    requires n <= I64_MAX
    ensures ParseI64(DigitsOf(n)) == Some(n) && ' ' !in DigitsOf(n)
  {
    DigitsOfFacts(n);
    var s := DigitsOf(n);
    assert s[0] in s && IsDigit(s[0]);
  }

  lemma ParseNegated(n: nat)
    requires 0 - n >= I64_MIN
    ensures ParseI64(['-'] + DigitsOf(n)) == Some(0 - n) && ' ' !in ['-'] + DigitsOf(n)
  {
    DigitsOfFacts(n);
    var s := ['-'] + DigitsOf(n);
    assert s[0] == '-' && s[1..] == DigitsOf(n);
  }

  lemma PrintFacts(n: int)
    requires I64_MIN <= n <= I64_MAX
    ensures ParseI64(Print(n)) == Some(n) && ' ' !in Print(n)
  {
    if n < 0 { ParseNegated(-n); } else { ParseDigits(n); }
  }

  // A separator that starts with a blank cannot begin inside text without one.
  lemma {:induction false} SplitAfter(a: string, separator: string, b: string)
    requires separator != "" && separator[0] == ' '
    requires ' ' !in a
    ensures SplitFirst(a + separator + b, separator) == Some((a, b))
  {
    var s := a + separator + b;
    if a == "" {
      assert s == separator + b;
      assert s[..|separator|] == separator && s[|separator|..] == b;
    } else {
      assert a == [a[0]] + a[1..];
      assert s[0] == a[0] && a[0] in a;
      assert !StartsWith(s, separator);
      assert s[1..] == a[1..] + separator + b;
      SplitAfter(a[1..], separator, b);
    }
  }

  lemma AfterPrefix(a: string, b: string, c: string, d: string)
    ensures (a + b + c + d)[..|a|] == a && (a + b + c + d)[|a|..] == b + c + d
  {
    assert a + b + c + d == a + (b + c + d);
  }

  // Every i64 timestamp and every nonce text, even one that contains the
  // separator itself, comes back from the generated message.
  lemma SignInRoundTrip(timestamp: int, nonce: string)
    requires I64_MIN <= timestamp <= I64_MAX
    ensures Parse(Generate(timestamp, nonce)) == Success(Parsed(timestamp, nonce))
  {
    var message := Generate(timestamp, nonce);
    PrintFacts(timestamp);
    SplitAfter(Print(timestamp), MIDDLE, nonce);
    AfterPrefix(PREFIX, Print(timestamp), MIDDLE, nonce);
  }

  // A difference within i64 is small exactly when it looks small, except the
  // one that wraps to the smallest value.
  lemma DriftAccepted(now: int, timestamp: int)
    requires 0 <= now <= I64_MAX / 2 && I64_MIN <= timestamp <= I64_MAX
    ensures AbsI64(WrapI64(now - timestamp)) <= MAX_TIME_DRIFT <==>
      -MAX_TIME_DRIFT <= now - timestamp <= MAX_TIME_DRIFT || now - timestamp == -I64_MIN
  {
  }

  // A generated message passes the checks if and only if its nonce is 8 to 64
  // letters, digits or hyphens and its timestamp is close to the clock, or
  // exactly 2^63 seconds behind it.
  lemma GeneratedAcceptedIff(timestamp: int, nonce: string, now: int)
    requires I64_MIN <= timestamp <= I64_MAX && 0 <= now <= I64_MAX / 2
    ensures Check(Generate(timestamp, nonce), now).Success? <==>
      && 8 <= |nonce| <= 64 && (forall c :: c in nonce ==> NonceChar(c))
      && (timestamp - MAX_TIME_DRIFT <= now <= timestamp + MAX_TIME_DRIFT || now - timestamp == -I64_MIN)
  {
    SignInRoundTrip(timestamp, nonce);
    DriftAccepted(now, timestamp);
    NonceIff(nonce);
  }

  lemma NonceIff(nonce: string)
    ensures ValidateNonce(nonce).Success? <==> 8 <= |nonce| <= 64 && forall c :: c in nonce ==> NonceChar(c)
  {
    if forall i :: 0 <= i < |nonce| ==> NonceChar(nonce[i]) {
      assert forall c :: c in nonce ==> NonceChar(c);
    } else {
      var i :| 0 <= i < |nonce| && !NonceChar(nonce[i]);
      assert nonce[i] in nonce;
    }
  }

  lemma {:induction false} SplitFacts(s: string, separator: string)
    requires separator != "" && SplitFirst(s, separator).Some?
    ensures s == SplitFirst(s, separator).value.0 + separator + SplitFirst(s, separator).value.1
  {
    if StartsWith(s, separator) {
      assert s == [] + s[..|separator|] + s[|separator|..];
    } else {
      var c, tail := s[0], s[1..];
      SplitFacts(tail, separator);
      var (a, b) := SplitFirst(tail, separator).value;
      assert SplitFirst(s, separator) == Some(([c] + a, b));
      Prepend(c, tail, a, separator, b);
      assert s == [c] + tail;
    }
  }

  lemma Prepend(c: char, tail: string, a: string, separator: string, b: string)
    requires tail == a + separator + b
    ensures [c] + tail == ([c] + a) + separator + b
  {
  }

  // An accepted message is the prefix, a text that reads as the timestamp, the
  // separator and the nonce; it is the generated message if and only if that
  // text is the timestamp's own decimal form.
  lemma ParseInverts(message: string)
    requires Parse(message).Success?
    ensures
      var p := Parse(message).value;
      && exists text ::
           && message == PREFIX + text + MIDDLE + p.nonce
           && ParseI64(text) == Some(p.timestamp)
           && (Generate(p.timestamp, p.nonce) == message <==> text == Print(p.timestamp))
  {
    var p := Parse(message).value;
    var rest := message[|PREFIX|..];
    var text := SplitFirst(rest, MIDDLE).value.0;
    SplitFacts(rest, MIDDLE);
    assert message == PREFIX + text + MIDDLE + p.nonce;
    SameText(PREFIX, text, Print(p.timestamp), MIDDLE, p.nonce);
  }

  lemma SameText(a: string, x: string, y: string, b: string, c: string)
    ensures a + x + b + c == a + y + b + c <==> x == y
  {
    assert a + x + b + c == a + x + (b + c);
    assert a + y + b + c == a + y + (b + c);
    SameMiddle(a, x, y, b + c);
  }

  lemma SameMiddle(a: string, x: string, y: string, b: string)
    ensures a + x + b == a + y + b ==> x == y
  {
    if a + x + b == a + y + b {
      assert |x| == |y|;
      assert (a + x + b)[|a|..|a| + |x|] == x;
      assert (a + y + b)[|a|..|a| + |y|] == y;
    }
  }

  // ---------- what the parser reads ----------

  // The value of a text of digits, leading zeros included.
  lemma {:induction false} DigitsAre(s: string)
    ensures Digits(s).Some? <==> forall i :: 0 <= i < |s| ==> '0' <= s[i] <= '9'
    ensures Digits(s).Some? && s != "" ==>
      Digits(s).value == 10 * Digits(s[..|s| - 1]).GetOr(0) + (s[|s| - 1] as int - '0' as int)
  {
    if s != "" {
      var rest := s[..|s| - 1];
      DigitsAre(rest);
      forall i | 0 <= i < |rest| ensures rest[i] == s[i] {
      }
    }
  }

  ghost predicate DigitText(s: string) {
    s != "" && forall i :: 0 <= i < |s| ==> '0' <= s[i] <= '9'
  }

  // A text reads as a timestamp exactly when it is an optional sign and digits
  // whose value, with the sign, fits 64 bits.
  lemma ParseI64Iff(s: string, n: int)
    ensures ParseI64(s) == Some(n) <==>
      I64_MIN <= n <= I64_MAX &&
      ((DigitText(s) && n == Digits(s).GetOr(0))
       || (s != "" && s[0] == '+' && DigitText(s[1..]) && n == Digits(s[1..]).GetOr(0))
       || (s != "" && s[0] == '-' && DigitText(s[1..]) && n == 0 - Digits(s[1..]).GetOr(0)))
  {
    DigitsAre(s);
    if s != "" { DigitsAre(s[1..]); }
  }

  // The split is at the first separator; there is none if and only if the text
  // holds none.
  lemma {:induction false} SplitIsFirst(s: string, separator: string, k: nat)
    requires separator != ""
    ensures SplitFirst(s, separator).Some? && k < |SplitFirst(s, separator).value.0| ==>
      k <= |s| && !StartsWith(s[k..], separator)
    ensures SplitFirst(s, separator).None? && k <= |s| ==> !StartsWith(s[k..], separator)
  {
    if !StartsWith(s, separator) && s != "" {
      if k > 0 {
        SplitIsFirst(s[1..], separator, k - 1);
        if k <= |s| { assert s[1..][k - 1..] == s[k..]; }
      } else {
        assert s[0..] == s;
      }
    }
    if k == 0 { assert s[0..] == s; }
  }

  // A message that is the prefix, a text without the separator that reads as a
  // timestamp, the separator and a nonce is read as that.
  lemma ParseIff(message: string, p: Parsed)
    ensures Parse(message) == Success(p) <==>
      exists text ::
        && message == PREFIX + text + MIDDLE + p.nonce
        && ParseI64(text) == Some(p.timestamp) && ' ' !in text
  {
    if Parse(message) == Success(p) {
      var rest := message[|PREFIX|..];
      var text := SplitFirst(rest, MIDDLE).value.0;
      SplitFacts(rest, MIDDLE);
      assert message == PREFIX + text + MIDDLE + p.nonce;
      NoBlank(text);
    }
    if text :| message == PREFIX + text + MIDDLE + p.nonce && ParseI64(text) == Some(p.timestamp) && ' ' !in text {
      AfterPrefix(PREFIX, text, MIDDLE, p.nonce);
      SplitAfter(text, MIDDLE, p.nonce);
    }
  }

  lemma NoBlank(text: string)
    requires ParseI64(text).Some?
    ensures ' ' !in text
  {
    ParseI64Iff(text, ParseI64(text).value);
    forall i | 0 <= i < |text| ensures text[i] != ' ' {
      if i > 0 { assert text[1..][i - 1] == text[i]; }
    }
  }

  ghost predicate GoodNonce(nonce: string) {
    && 8 <= |nonce| <= 64
    && forall i :: 0 <= i < |nonce| ==>
         '0' <= nonce[i] <= '9' || 'a' <= nonce[i] <= 'z' || 'A' <= nonce[i] <= 'Z' || nonce[i] == '-'
  }

  // The message consists of a text that reads as a timestamp close to the clock,
  // or exactly 2^63 seconds behind it, and a good nonce.
  ghost predicate Signs(message: string, text: string, nonce: string, now: int) {
    && message == PREFIX + text + MIDDLE + nonce && ' ' !in text && GoodNonce(nonce)
    && ParseI64(text).Some?
    && (-300 <= now - ParseI64(text).value <= 300 || now - ParseI64(text).value == -I64_MIN)
  }

  // Exactly which messages pass the checks before the signature.
  lemma AcceptedIff(message: string, now: int)
    requires 0 <= now <= I64_MAX / 2
    ensures Check(message, now).Success? <==> exists text, nonce :: Signs(message, text, nonce, now)
  {
    if Check(message, now).Success? {
      var p := Parse(message).value;
      ParseIff(message, p);
      var text :| message == PREFIX + text + MIDDLE + p.nonce && ParseI64(text) == Some(p.timestamp) && ' ' !in text;
      ParseI64Iff(text, p.timestamp);
      DriftAccepted(now, p.timestamp);
      assert Signs(message, text, p.nonce, now);
    }
    if text, nonce :| Signs(message, text, nonce, now) {
      ParseI64Iff(text, ParseI64(text).value);
      ParseIff(message, Parsed(ParseI64(text).value, nonce));
      DriftAccepted(now, ParseI64(text).value);
    }
  }
}
