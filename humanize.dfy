/** main.go's `bytesToHuman`: choose the binary unit for a byte count. */
module Humanize {
  import opened GoInts
  import opened GoStrconv

  const UNIT: int := 1024
  const UNIT_PREFIXES: string := "KMGTPE"

  /** What `bytesToHuman` prints: below one KiB the exact count "<b> B"; otherwise
      the quotient `bytes / div` rendered with one decimal and the unit
      `<prefix>iB`, where `div` is 1024^(exp+1) and `prefix` is "KMGTPE"[exp]. */
  datatype HumanSize =
    | Exact(text: string)
    | Scaled(bytes: Int64, div: Int64, exp: nat, prefix: char)

  /** Any count below 1024, negative ones included, is printed exactly in bytes;
      any other count is scaled by the largest power 1024^(exp+1) not above it,
      so that the integer quotient `b / div` lies in [1, 1024), and that power
      is at most 1024^6, so the prefix index never leaves "KMGTPE". */
  method BytesToHuman(b: Int64) returns (h: HumanSize)
    ensures b < UNIT ==> h == Exact(FormatInt(b) + " B")
    ensures b >= UNIT ==> h.Scaled? && h.bytes == b
    ensures h.Scaled? ==>
      && h.exp < |UNIT_PREFIXES|
      && h.prefix == UNIT_PREFIXES[h.exp]
      && h.div == Pow(UNIT, h.exp + 1)
      && h.div <= b < h.div * UNIT
      && 1 <= b / h.div < UNIT
  {
    if b < UNIT {
      return Exact(FormatInt(b) + " B");
    }
    var div: Int64, exp: nat := UNIT, 0;
    var n := b / UNIT;
    while n >= UNIT
      invariant div == Pow(UNIT, exp + 1)
      invariant exp < |UNIT_PREFIXES|
      invariant div > 0
      invariant 1 <= n && n == b / div && div <= b
    {
      QuotientOfQuotient(b, div);
      QuotientBracket(b, div);
      assert div * UNIT <= div * n by {
        MulMonotonic(UNIT, n, div);
      }
      // 1024^7 exceeds every int64, so a seventh unit is never reached
      assert exp + 1 < |UNIT_PREFIXES| by {
        assert Pow(UNIT, 6) == 0x1000_0000_0000_0000;
      }
      div := div * UNIT;
      exp := exp + 1;
      n := n / UNIT;
    }
    QuotientBracket(b, div);
    assert div * (n + 1) <= div * UNIT by {
      MulMonotonic(n + 1, UNIT, div);
    }
    h := Scaled(b, div, exp, UNIT_PREFIXES[exp]);
  }

  /** Dividing by `div` and then by 1024 is dividing by `div * 1024`. */
  lemma QuotientOfQuotient(b: nat, div: nat)
    requires div > 0
    ensures b / div / UNIT == b / (div * UNIT)
  {
    var q, r := b / div, b % div;
    var q2, r2 := q / UNIT, q % UNIT;
    assert q == q2 * UNIT + r2;
    assert b == q * div + r;
    assert q * div == q2 * (div * UNIT) + r2 * div by {
      assert (q2 * UNIT + r2) * div == q2 * UNIT * div + r2 * div;
    }
    assert r2 * div <= (UNIT - 1) * div by {
      MulMonotonic(r2, UNIT - 1, div);
    }
    DivUnique(b, div * UNIT, q2, r2 * div + r);
  }

  /** `div` times the quotient stays within `div` below `b`. */
  lemma QuotientBracket(b: nat, div: nat)
    requires div > 0
    ensures div * (b / div) <= b < div * (b / div + 1)
  {
  }
}
