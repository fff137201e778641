/** main.go's LED handling: `convertLedStatus`, the IDENT/FAIL decode of the
    LED bit-field in `getDiskInfo`, and the `setFailLed` dispatch. */
module Leds {
  import opened GoInts

  const IDENT_OFFSET: nat := 1
  const FAIL_OFFSET: nat := 4
  /** The raw bit-field value that means the LED status cannot be read. */
  const LED_UNAVAILABLE: nat := 1

  /** Go's `bitField >> offset` on an unsigned value: the bits below `offset`
      are dropped and nothing above is masked off, so the result counts the
      whole multiples of 2^offset the bit-field holds. */
  function ShiftRight(bitField: nat, offset: nat): (r: int)
    ensures r >= 0
    ensures r * Pow(2, offset) <= bitField < (r + 1) * Pow(2, offset)
  {
    bitField / Pow(2, offset)
  }

  /** `convertLedStatus`: the shifted value 1 reads "ON", 2 reads "OFF", and every
      other value (4 included) reads "UNKNOWN"; the returned error is always nil. */
  function ConvertLedStatus(bitField: nat, offset: nat): (r: (string, GoError))
    ensures r.1 == Nil
    ensures r.0 == "ON" <==> ShiftRight(bitField, offset) == 1
    ensures r.0 == "OFF" <==> ShiftRight(bitField, offset) == 2
    ensures r.0 == "UNKNOWN" <==> ShiftRight(bitField, offset) != 1 && ShiftRight(bitField, offset) != 2
  {
    var ledState := ShiftRight(bitField, offset);
    var ledText :=
      if ledState == 1 then "ON"
      else if ledState == 2 then "OFF"
      else if ledState == 4 then "UNKNOWN"
      else "UNKNOWN";
    (ledText, Nil)
  }

  /** The IDENT and FAIL texts `getDiskInfo` stores for a raw bit-field: both
      read "Unavailable" exactly for the sentinel bit-field 1; every other
      bit-field gives each LED one of "ON", "OFF", "UNKNOWN", as
      `convertLedStatus` decodes it at that LED's offset. */
  function LedTexts(ledStatus: nat): (r: (string, string))
    ensures r.0 == "Unavailable" <==> ledStatus == LED_UNAVAILABLE
    ensures r.1 == "Unavailable" <==> ledStatus == LED_UNAVAILABLE
    ensures ledStatus != LED_UNAVAILABLE ==>
      && r.0 in {"ON", "OFF", "UNKNOWN"} && r.1 in {"ON", "OFF", "UNKNOWN"}
      && r.0 == ConvertLedStatus(ledStatus, IDENT_OFFSET).0
      && r.1 == ConvertLedStatus(ledStatus, FAIL_OFFSET).0
  {
    if ledStatus == LED_UNAVAILABLE then ("Unavailable", "Unavailable")
    else (ConvertLedStatus(ledStatus, IDENT_OFFSET).0, ConvertLedStatus(ledStatus, FAIL_OFFSET).0)
  }

  /** There is no sub-field mask: once any bit two or more places above the
      offset is set, the shifted value is at least 4 and the LED reads "UNKNOWN". */
  lemma HigherBitGivesUnknown(bitField: nat, offset: nat)
    requires bitField >= Pow(2, offset + 2)
    ensures ConvertLedStatus(bitField, offset).0 == "UNKNOWN"
  {
    assert Pow(2, offset + 2) == 4 * Pow(2, offset);
    DivAtLeast(bitField, Pow(2, offset), 4);
  }

  lemma DivAtLeast(a: nat, d: nat, k: nat)
    requires d > 0 && a >= k * d
    ensures a / d >= k
  {
    var q, r := a / d, a % d;
    assert a == q * d + r;
    if q < k {
      assert q * d <= (k - 1) * d by {
        MulMonotonic(q, k - 1, d);
      }
    }
  }

  /** IDENT reads "ON" only for bit-fields 2 and 3, "OFF" only for 4 and 5. */
  lemma IdentDecodedRange(ledStatus: nat)
    requires ledStatus != LED_UNAVAILABLE
    ensures LedTexts(ledStatus).0 == "ON" <==> 2 <= ledStatus < 4
    ensures LedTexts(ledStatus).0 == "OFF" <==> 4 <= ledStatus < 6
  {
  }

  /** FAIL reads "ON" only for bit-fields 16 to 31, "OFF" only for 32 to 47. */
  lemma FailDecodedRange(ledStatus: nat)
    requires ledStatus != LED_UNAVAILABLE
    ensures LedTexts(ledStatus).1 == "ON" <==> 16 <= ledStatus < 32
    ensures LedTexts(ledStatus).1 == "OFF" <==> 32 <= ledStatus < 48
  {
    assert Pow(2, FAIL_OFFSET) == 16;
  }

  /** A consequence of the missing mask: the two LEDs are never both decoded to a
      definite state; whenever one reads "ON" or "OFF" the other reads "UNKNOWN". */
  lemma AtMostOneLedDecoded(ledStatus: nat)
    requires ledStatus != LED_UNAVAILABLE
    ensures LedTexts(ledStatus).0 == "UNKNOWN" || LedTexts(ledStatus).1 == "UNKNOWN"
  {
    IdentDecodedRange(ledStatus);
    FailDecodedRange(ledStatus);
  }

  /** The fault-LED setter of the storage library that `setFailLed` invoked. */
  datatype LedCall = FaultLedOn(devPath: string) | FaultLedOff(devPath: string)

  /** What `setFailLed` did: the setters it invoked, in order, and what it returned. */
  datatype LedDispatch = LedDispatch(calls: seq<LedCall>, err: GoError)

  /** `setFailLed(devPath, state)`; `setter` stands for the storage library and
      gives the error each setter call reports. "on" invokes only FaultLedOn,
      "off" only FaultLedOff, each on `devPath`, and the setter's error is returned
      unchanged; any other state invokes nothing and returns nil. */
  function SetFailLed(devPath: string, state: string, setter: LedCall -> GoError): (r: LedDispatch)
    ensures r.calls == (if state == "on" then [FaultLedOn(devPath)]
                        else if state == "off" then [FaultLedOff(devPath)]
                        else [])
    ensures r.err == (if r.calls == [] then Nil else setter(r.calls[0]))
  {
    if state == "on" then
      var call := FaultLedOn(devPath);
      LedDispatch([call], setter(call))
    else if state == "off" then
      var call := FaultLedOff(devPath);
      LedDispatch([call], setter(call))
    else
      LedDispatch([], Nil)
  }

  /** The outcome depends on the storage library only through the one call made:
      two libraries that agree on that call give the same dispatch. */
  lemma SetFailLedDependsOnlyOnItsCall(devPath: string, state: string, s1: LedCall -> GoError, s2: LedCall -> GoError)
    requires state == "on" ==> s1(FaultLedOn(devPath)) == s2(FaultLedOn(devPath))
    requires state == "off" ==> s1(FaultLedOff(devPath)) == s2(FaultLedOff(devPath))
    ensures SetFailLed(devPath, state, s1) == SetFailLed(devPath, state, s2)
  {
  }
}
