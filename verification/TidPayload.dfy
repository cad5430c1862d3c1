/** The payload of spdlog.cpp that carries the logging thread's id in front of a
    message, and decimal numbers. */
module TidPayload {
  import opened BlockMath
  import opened JsonEscape
  import opened Words

  const PREFIX := "\U{1E}zpp_tid:"
  const SUFFIX := '\U{1F}'

  // ----- decimal numbers -----

  function Digit(d: nat): char
    requires d < 10
  {
    ('0' as int + d) as char
  }

  predicate IsDigit(c: char) { '0' <= c <= '9' }

  function DigitValue(c: char): nat
    requires IsDigit(c)
  {
    c as int - '0' as int
  }

  /** append_int */
  function Digits(n: nat): string
  {
    NumSmaller(10, n);
    (if n >= 10 then Digits(Num(10, n)) else "") + [Digit(Off(10, n))]
  }

  predicate AllDigits(s: string)
  {
    forall i | 0 <= i < |s| :: IsDigit(s[i])
  }

  function Tenfold(x: nat): nat { x + x + x + x + x + x + x + x + x + x }

  function Decimal(s: string): nat
    requires AllDigits(s)
  {
    if s == "" then 0 else Tenfold(Decimal(s[..|s| - 1])) + DigitValue(s[|s| - 1])
  }

  lemma {:induction false} TenParts(n: nat)
    ensures n == Tenfold(Num(10, n)) + Off(10, n)
  {
    if n >= 10 { TenParts(n - 10); }
  }

  lemma DecimalSnoc(s: string, c: char)
    requires AllDigits(s) && IsDigit(c)
    ensures AllDigits(s + [c]) && Decimal(s + [c]) == Tenfold(Decimal(s)) + DigitValue(c)
  {
    assert (s + [c])[..|s|] == s;
  }

  lemma DigitIsDigit(d: nat)
    requires d < 10
    ensures IsDigit(Digit(d)) && DigitValue(Digit(d)) == d
  {}

  lemma {:induction false} DigitsRoundTrip(n: nat)
    ensures |Digits(n)| > 0 && AllDigits(Digits(n)) && Decimal(Digits(n)) == n
  {
    TenParts(n);
    NumSmaller(10, n);
    DigitIsDigit(Off(10, n));
    if n >= 10 {
      DigitsRoundTrip(Num(10, n));
      DecimalSnoc(Digits(Num(10, n)), Digit(Off(10, n)));
    } else {
      DecimalSnoc("", Digit(n));
    }
  }

  /** No leading zeros. */
  lemma {:induction false} DigitsAreShortest(n: nat)
    ensures |Digits(n)| > 0 && (Digits(n)[0] == '0' ==> n == 0 && |Digits(n)| == 1)
  {
    NumSmaller(10, n);
    if n >= 10 {
      DigitsAreShortest(Num(10, n));
      NumPositive(n);
    }
  }

  lemma NumPositive(n: nat)
    requires n >= 10
    ensures Num(10, n) > 0
  {}

  /** So they are the one decimal numeral of n without leading zeros. */
  lemma {:induction false} DigitsAreUnique(s: string, n: nat)
    requires |s| > 0 && AllDigits(s) && Decimal(s) == n && (s[0] == '0' ==> |s| == 1)
    ensures s == Digits(n)
    decreases |s|
  {
    var d, rest := DigitValue(s[|s| - 1]), s[..|s| - 1];
    LastDigit(Decimal(rest), d);
    assert s == rest + [Digit(d)];
    if |rest| > 0 {
      DecimalPositive(rest);
      DigitsAreUnique(rest, Decimal(rest));
      NumSmaller(10, n);
    }
  }

  lemma {:induction false} LastDigit(m: nat, d: nat)
    requires d < 10
    ensures Num(10, Tenfold(m) + d) == m && Off(10, Tenfold(m) + d) == d
  {
    if m > 0 { LastDigit(m - 1, d); }
  }

  lemma {:induction false} DecimalPositive(s: string)
    requires |s| > 0 && AllDigits(s) && s[0] != '0'
    ensures Decimal(s) > 0
  {
    if |s| > 1 { DecimalPositive(s[..|s| - 1]); }
  }

  /** How many digits s starts with. */
  function Run(s: string): (r: nat)
    ensures r <= |s| && forall i | 0 <= i < r :: IsDigit(s[i])
    ensures r < |s| ==> !IsDigit(s[r])
  {
    if s == "" || !IsDigit(s[0]) then 0 else 1 + Run(s[1..])
  }

  lemma {:induction false} RunOf(digits: string, rest: string)
    requires AllDigits(digits)
    requires rest == "" || !IsDigit(rest[0])
    ensures Run(digits + rest) == |digits|
  {
    if digits == "" {
      assert digits + rest == rest;
    } else {
      RunOf(digits[1..], rest);
      assert (digits + rest)[1..] == digits[1..] + rest;
    }
  }

  // ----- the thread-id payload -----

  /** What append_zpp_log_payload writes. */
  function Payload(id: nat, message: string): string
  {
    PREFIX + Digits(id) + [SUFFIX] + message
  }

  /** The payload as read: prefix, digits, suffix, message; the number is taken in
      size_t arithmetic. */
  function ReadPayload(s: string): Option<(nat, string)>
  {
    if !(PREFIX <= s) then None
    else
      var rest := s[|PREFIX|..];
      var n := Run(rest);
      if n == 0 || n >= |rest| || rest[n] != SUFFIX then None
      else Some((Word(Decimal(rest[..n])), rest[n + 1..]))
  }

  method AppendZppLogPayload(id: nat, msg: string, payload: MemoryBuffer)
    modifies payload
    ensures payload.data == old(payload.data) + Payload(id, msg)
  {
    payload.AppendStringView(PREFIX);
    payload.AppendStringView(Digits(id));
    payload.PushBack(SUFFIX);
    payload.AppendStringView(msg);
  }

  lemma WordDigit(a: nat, d: nat)
    ensures Word(Tenfold(Word(a)) + d) == Word(Tenfold(a) + d)
  {
    var k := WordParts(a);
    TenTurns(k);
    WordShift(Tenfold(Word(a)) + d, Tenfold(k));
  }

  lemma {:induction false} TenTurns(k: nat)
    ensures Turns(Tenfold(k)) == Tenfold(Turns(k))
  {
    if k > 0 {
      TenTurns(k - 1);
      TurnsAdd(3, 2);
      TurnsAdd(5, 5);
      TurnsAdd(Tenfold(k - 1), 10);
    }
  }

  lemma {:induction false} RunIs(s: string, n: nat)
    requires n <= |s| && AllDigits(s[..n]) && (n < |s| ==> !IsDigit(s[n]))
    ensures Run(s) == n
  {
    RunOf(s[..n], s[n..]);
    assert s[..n] + s[n..] == s;
  }

  /** What one turn of the reader's loop does to the number read so far. */
  lemma OneMoreDigit(rest: string, n: nat, id: nat)
    requires n < |rest| && AllDigits(rest[..n]) && IsDigit(rest[n]) && id == Word(Decimal(rest[..n]))
    ensures AllDigits(rest[..n + 1]) && Word(Tenfold(id) + DigitValue(rest[n])) == Word(Decimal(rest[..n + 1]))
  {
    assert rest[..n + 1] == rest[..n] + [rest[n]];
    WordDigit(Decimal(rest[..n]), DigitValue(rest[n]));
    DecimalSnoc(rest[..n], rest[n]);
  }

  /** read_zpp_tid_payload */
  method ReadZppTidPayload(payload: string) returns (r: Option<(nat, string)>)
    ensures r == ReadPayload(payload)
  {
    if |payload| <= |PREFIX| || payload[..|PREFIX|] != PREFIX {
      assert PREFIX <= payload ==> Run(payload[|PREFIX|..]) == 0;
      return None;
    }
    ghost var rest := payload[|PREFIX|..];
    var pos := |PREFIX|;
    var id := 0;
    var hasDigit := false;
    while pos < |payload| && IsDigit(payload[pos])
      invariant |PREFIX| <= pos <= |payload|
      invariant AllDigits(rest[..pos - |PREFIX|])
      invariant id == Word(Decimal(rest[..pos - |PREFIX|])) && (hasDigit <==> pos > |PREFIX|)
    {
      hasDigit := true;
      OneMoreDigit(rest, pos - |PREFIX|, id);
      id := Word(Tenfold(id) + DigitValue(payload[pos]));
      pos := pos + 1;
    }
    RunIs(rest, pos - |PREFIX|);
    if !hasDigit || pos >= |payload| || payload[pos] != SUFFIX {
      return None;
    }
    assert payload[pos + 1..] == rest[pos - |PREFIX| + 1..];
    r := Some((id, payload[pos + 1..]));
  }

  /** What the reader accepts: prefix, digits, suffix, message. */
  ghost predicate AcceptedAs(s: string, digits: string, message: string)
  {
    |digits| > 0 && AllDigits(digits) && s == PREFIX + digits + [SUFFIX] + message
  }

  lemma AcceptedReads(s: string, digits: string, message: string)
    requires AcceptedAs(s, digits, message)
    ensures ReadPayload(s) == Some((Word(Decimal(digits)), message))
  {
    var rest := digits + ([SUFFIX] + message);
    assert s == PREFIX + rest && s[|PREFIX|..] == rest;
    RunOf(digits, [SUFFIX] + message);
    assert rest[..|digits|] == digits && rest[|digits| + 1..] == message;
  }

  /** It accepts nothing else. */
  lemma AcceptsOnlyPayloads(s: string)
    ensures ReadPayload(s).Some? <==> exists digits: string, message: string :: AcceptedAs(s, digits, message)
  {
    if ReadPayload(s).Some? {
      var rest := s[|PREFIX|..];
      var n := Run(rest);
      assert rest == rest[..n] + [SUFFIX] + rest[n + 1..];
      assert AcceptedAs(s, rest[..n], rest[n + 1..]);
    }
    forall digits: string, message: string | AcceptedAs(s, digits, message) ensures ReadPayload(s).Some? {
      AcceptedReads(s, digits, message);
    }
  }

  lemma AcceptedInRange(s: string, digits: string, message: string)
    requires AcceptedAs(s, digits, message) && Decimal(digits) < WORD
    ensures ReadPayload(s) == Some((Decimal(digits), message))
  {
    AcceptedReads(s, digits, message);
  }

  /** The reader inverts the writer for every thread id of a size_t and every
      message, also one that itself starts with the prefix or with digits. */
  lemma PayloadRoundTrip(id: nat, message: string)
    requires id < WORD
    ensures ReadPayload(Payload(id, message)) == Some((id, message))
  {
    DigitsRoundTrip(id);
    AcceptedInRange(Payload(id, message), Digits(id), message);
  }
}
