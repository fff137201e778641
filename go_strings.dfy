/** Go's `strings.Split` and `strings.Join` for a one-character separator. */
module GoStrings {

  /** `strings.Split(s, string(sep))`: the pieces of `s` between occurrences of
      `sep`, in order; text without `sep` (including "") is one piece. */
  function Split(s: string, sep: char): (parts: seq<string>)
    ensures |parts| >= 1
    ensures forall i :: 0 <= i < |parts| ==> sep !in parts[i]
  {
    if s == [] then [""]
    else
      var rest := Split(s[1..], sep);
      if s[0] == sep then [""] + rest
      else [[s[0]] + rest[0]] + rest[1..]
  }

  /** `strings.Join(parts, string(sep))`. */
  function Join(parts: seq<string>, sep: char): string
    requires |parts| >= 1
  {
    if |parts| == 1 then parts[0]
    else parts[0] + [sep] + Join(parts[1..], sep)
  }

  /** Joining the pieces back with the separator gives the original text. */
  lemma {:induction false} SplitJoinRoundTrip(s: string, sep: char)
    ensures Join(Split(s, sep), sep) == s
  {
    if s != [] {
      var rest := Split(s[1..], sep);
      SplitJoinRoundTrip(s[1..], sep);
      if s[0] == sep {
        assert ([""] + rest)[1..] == rest;
      } else {
        var parts := [[s[0]] + rest[0]] + rest[1..];
        if |rest| > 1 {
          assert parts[1..] == rest[1..];
        }
      }
    }
  }

  /** `s` splits into a single piece exactly when it holds no separator, and
      that piece is `s` itself. */
  lemma {:induction false} SplitSinglePiece(s: string, sep: char)
    ensures |Split(s, sep)| == 1 <==> sep !in s
    ensures |Split(s, sep)| == 1 ==> Split(s, sep)[0] == s
  {
    if s != [] {
      SplitSinglePiece(s[1..], sep);
      assert s == [s[0]] + s[1..];
    }
  }

  /** The last piece is the text after the last separator: a suffix of `s`,
      preceded by `sep` whenever there are at least two pieces. */
  lemma {:induction false} SplitLastPiece(s: string, sep: char)
    ensures var parts := Split(s, sep);
      var last := parts[|parts| - 1];
      && |last| <= |s|
      && s[|s| - |last|..] == last
      && (|parts| >= 2 ==> |last| < |s| && s[|s| - |last| - 1] == sep)
  {
    if s != [] {
      var tail := s[1..];
      var rest := Split(tail, sep);
      SplitLastPiece(tail, sep);
      SplitSinglePiece(tail, sep);
      var last := rest[|rest| - 1];
      assert s[|s| - |last|..] == tail[|tail| - |last|..];
      if s[0] == sep {
        assert Split(s, sep) == [""] + rest;
      } else {
        assert Split(s, sep) == [[s[0]] + rest[0]] + rest[1..];
        if |rest| == 1 {
          assert s == [s[0]] + tail;
        }
      }
    }
  }
}
