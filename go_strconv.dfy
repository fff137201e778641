/** Go's decimal integer text: `%d` formatting and `strconv.ParseInt(s, 10, 64)`,
    including the leading sign, the left-to-right digit scan, and the clamping
    to the int64 range that ParseInt applies on overflow. */
module GoStrconv {
  import opened GoInts

  predicate IsDigit(c: char) {
    '0' <= c <= '9'
  }

  predicate AllDigits(s: string) {
    forall i :: 0 <= i < |s| ==> IsDigit(s[i])
  }

  function DigitValue(c: char): (d: nat)
    requires IsDigit(c)
    ensures d < 10
  {
    c as int - '0' as int
  }

  function DigitChar(d: nat): (c: char)
    requires d < 10
    ensures IsDigit(c) && DigitValue(c) == d
  {
    (d + '0' as int) as char
  }

  /** Decimal digits of `n`, most significant first, without leading zeros. */
  function NatToDecimal(n: nat): (s: string)
    ensures 1 <= |s| && AllDigits(s)
    ensures |s| > 1 ==> s[0] != '0'
    decreases n
  {
    if n < 10 then [DigitChar(n)]
    else NatToDecimal(n / 10) + [DigitChar(n % 10)]
  }

  /** Go's `%d` rendering of a signed integer. */
  function FormatInt(x: int): (s: string)
    ensures 1 <= |s|
    ensures s[0] == '-' <==> x < 0
    ensures x >= 0 ==> AllDigits(s)
    ensures x < 0 ==> AllDigits(s[1..])
  {
    if x < 0 then "-" + NatToDecimal(-x) else NatToDecimal(x)
  }

  /** Outcome of Go's unsigned base-10 scan (strconv.ParseUint's loop). */
  datatype Scan = SyntaxError | RangeError | Parsed(n: nat)

  /** The scan continues from the value `acc` already read: each character must be
      a digit (else a syntax error, reported at once), and a digit that would take
      the value past 2^64 - 1 stops the scan with a range error, whatever follows. */
  function ScanUint(s: string, acc: nat): (r: Scan)
    requires acc <= MAX_UINT64
    ensures r.Parsed? ==> acc <= r.n <= MAX_UINT64
    ensures r.Parsed? ==> AllDigits(s)
    ensures r == SyntaxError ==> !AllDigits(s)
  {
    if s == [] then Parsed(acc)
    else if !IsDigit(s[0]) then SyntaxError
    else if acc * 10 + DigitValue(s[0]) > MAX_UINT64 then RangeError
    else ScanUint(s[1..], acc * 10 + DigitValue(s[0]))
  }

  /** `strconv.ParseInt(s, 10, 64)` with its error discarded, as `v, _ := ...`
      does: a syntax error gives 0, an out-of-range value gives the nearest
      int64 bound. */
  function ParseInt(s: string): (r: Int64)
    ensures s == [] ==> r == 0
    ensures (s == "+" || s == "-") ==> r == 0
  {
    if s == [] then 0
    else
      var neg := s[0] == '-';
      var body := if s[0] == '+' || s[0] == '-' then s[1..] else s;
      if body == [] then 0
      else
        match ScanUint(body, 0)
        case SyntaxError => 0
        case RangeError => if neg then MIN_INT64 else MAX_INT64
        case Parsed(n) =>
          if !neg && n >= TWO_63 then MAX_INT64
          else if neg && n > TWO_63 then MIN_INT64
          else if neg then -(n as int)
          else n
  }

  /** Scanning a concatenation is scanning its second part from where the first left off. */
  lemma {:induction false} ScanUintAppend(a: string, b: string, acc: nat)
    requires acc <= MAX_UINT64
    requires ScanUint(a, acc).Parsed?
    ensures ScanUint(a + b, acc) == ScanUint(b, ScanUint(a, acc).n)
  {
    if a != [] {
      var next := acc * 10 + DigitValue(a[0]);
      assert ScanUint(a, acc) == ScanUint(a[1..], next);
      assert (a + b)[0] == a[0];
      assert (a + b)[1..] == a[1..] + b;
      assert ScanUint(a + b, acc) == ScanUint(a[1..] + b, next);
      ScanUintAppend(a[1..], b, next);
    } else {
      assert a + b == b;
    }
  }

  /** The unsigned scan reads back what NatToDecimal writes. */
  lemma {:induction false} ScanNatToDecimal(n: nat)
    requires n <= MAX_UINT64
    ensures ScanUint(NatToDecimal(n), 0) == Parsed(n)
    decreases n
  {
    if n >= 10 {
      ScanNatToDecimal(n / 10);
      var d := DigitChar(n % 10);
      ScanUintAppend(NatToDecimal(n / 10), [d], 0);
      assert ScanUint([d], n / 10) == ScanUint([], n) by {
        assert [d][1..] == [];
      }
    }
  }

  /** Round trip: every int64 survives `%d` followed by ParseInt. */
  lemma ParseFormatRoundTrip(x: Int64)
    ensures ParseInt(FormatInt(x)) == x
  {
    if x < 0 {
      var m: nat := -(x as int);
      ScanNatToDecimal(m);
      assert FormatInt(x)[1..] == NatToDecimal(m);
    } else {
      ScanNatToDecimal(x);
    }
  }

  lemma Pow10NineteenFitsUint64()
    ensures Pow(10, 19) < MAX_UINT64
  {
    assert Pow(10, 10) == 10_000_000_000;
  }

  /** A value of at most 19 decimal digits fits in a uint64. */
  lemma ShortValueFits(x: nat, k: nat)
    requires k <= 19 && x < Pow(10, k)
    ensures x <= MAX_UINT64
  {
    PowMonotonic(10, k, 19);
    assert Pow(10, 19) < MAX_UINT64 by {
      Pow10NineteenFitsUint64();
    }
  }

  /** A scan that has read fewer than 10^k so far, with at most 19 - k characters
      left, never overflows: it fails exactly when some character is not a digit. */
  lemma {:induction false} ShortScanNeverOverflows(s: string, acc: nat, k: nat)
    requires acc < Pow(10, k) && k + |s| <= 19
    requires acc <= MAX_UINT64
    ensures ScanUint(s, acc) != RangeError
    ensures ScanUint(s, acc) == SyntaxError <==> !AllDigits(s)
    decreases |s|
  {
    if s != [] && IsDigit(s[0]) {
      var next := acc * 10 + DigitValue(s[0]);
      assert next < Pow(10, k + 1);
      ShortValueFits(next, k + 1);
      assert ScanUint(s, acc) == ScanUint(s[1..], next);
      ShortScanNeverOverflows(s[1..], next, k + 1);
    }
  }

  /** Text that is not a signed run of decimal digits parses to 0 when it is
      short enough (at most 19 characters) for the scan not to overflow first. */
  lemma MalformedShortTextParsesToZero(s: string)
    requires |s| <= 19
    requires !IsDecimalText(s)
    ensures ParseInt(s) == 0
  {
    if s != [] {
      var body := if s[0] == '+' || s[0] == '-' then s[1..] else s;
      if body != [] {
        ShortScanNeverOverflows(body, 0, 0);
      }
    }
  }

  /** An optional sign followed by at least one decimal digit. */
  predicate IsDecimalText(s: string) {
    if s != [] && (s[0] == '+' || s[0] == '-') then 1 < |s| && AllDigits(s[1..])
    else s != [] && AllDigits(s)
  }
}
