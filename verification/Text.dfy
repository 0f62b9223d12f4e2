/** Go strings as byte strings: strings.TrimSpace, and what encoding/json does to
    a string on its way to disk and back. */
module Text {
  import opened ByteStrings

  // ---------- strings.TrimSpace ----------

  /** The n bytes of s at i encode one code point with the White_Space property. */
  predicate SpaceAt(s: Bytes, i: nat, n: nat) {
    i + n <= |s| &&
    match n
    case 1 => 9 <= s[i] <= 13 || s[i] == 32
    case 2 => s[i] == 0xC2 && (s[i + 1] == 0x85 || s[i + 1] == 0xA0)
    case 3 =>
      || (s[i] == 0xE1 && s[i + 1] == 0x9A && s[i + 2] == 0x80)
      || (s[i] == 0xE2 && s[i + 1] == 0x80
          && (0x80 <= s[i + 2] <= 0x8A || s[i + 2] == 0xA8 || s[i + 2] == 0xA9 || s[i + 2] == 0xAF))
      || (s[i] == 0xE2 && s[i + 1] == 0x81 && s[i + 2] == 0x9F)
      || (s[i] == 0xE3 && s[i + 1] == 0x80 && s[i + 2] == 0x80)
    case _ => false
  }

  /** Length of the space that starts at i, or 0. */
  function LeadingSpace(s: Bytes, i: nat): nat {
    if SpaceAt(s, i, 1) then 1 else if SpaceAt(s, i, 2) then 2 else if SpaceAt(s, i, 3) then 3 else 0
  }

  /** Length of the space that ends at j and starts no earlier than i, or 0. */
  function TrailingSpace(s: Bytes, i: nat, j: nat): nat {
    if i + 1 <= j && SpaceAt(s, j - 1, 1) then 1
    else if i + 2 <= j && SpaceAt(s, j - 2, 2) then 2
    else if i + 3 <= j && SpaceAt(s, j - 3, 3) then 3
    else 0
  }

  function SkipSpace(s: Bytes, i: nat): (k: nat)
    requires i <= |s|
    ensures i <= k <= |s|
    decreases |s| - i
  {
    var n := LeadingSpace(s, i);
    if n == 0 then i else SkipSpace(s, i + n)
  }

  function DropSpace(s: Bytes, i: nat, j: nat): (k: nat)
    requires i <= j
    ensures i <= k <= j
    decreases j
  {
    var n := TrailingSpace(s, i, j);
    if n == 0 then j else DropSpace(s, i, j - n)
  }

  function TrimSpace(s: Bytes): Bytes {
    var i := SkipSpace(s, 0);
    s[i..DropSpace(s, i, |s|)]
  }

  lemma {:induction false} SkipEnds(s: Bytes, i: nat)
    requires i <= |s|
    ensures LeadingSpace(s, SkipSpace(s, i)) == 0
    decreases |s| - i
  {
    if LeadingSpace(s, i) > 0 {
      SkipEnds(s, i + LeadingSpace(s, i));
    }
  }

  lemma {:induction false} DropEnds(s: Bytes, i: nat, j: nat)
    requires i <= j
    ensures TrailingSpace(s, i, DropSpace(s, i, j)) == 0
    decreases j
  {
    if TrailingSpace(s, i, j) > 0 {
      DropEnds(s, i, j - TrailingSpace(s, i, j));
    }
  }

  /** Trimming a trimmed string changes nothing, so the store and its backend
      agree on the key although both of them trim. */
  lemma TrimSpaceIdempotent(s: Bytes)
    ensures TrimSpace(TrimSpace(s)) == TrimSpace(s)
  {
    var i := SkipSpace(s, 0);
    var j := DropSpace(s, i, |s|);
    var t := s[i..j];
    SkipEnds(s, 0);
    DropEnds(s, i, |s|);
    SpacesOfSlice(s, i, j);
    assert SkipSpace(t, 0) == 0 && DropSpace(t, 0, |t|) == |t|;
  }

  lemma SpacesOfSlice(s: Bytes, i: nat, j: nat)
    requires i <= j <= |s| && LeadingSpace(s, i) == 0 && TrailingSpace(s, i, j) == 0
    ensures LeadingSpace(s[i..j], 0) == 0 && TrailingSpace(s[i..j], 0, j - i) == 0
  {
    assert forall k :: 0 <= k < j - i ==> s[i..j][k] == s[i + k];
  }

  lemma {:induction false} DropKeepsNonSpace(s: Bytes, i: nat, j: nat)
    requires i < j && LeadingSpace(s, i) == 0
    ensures DropSpace(s, i, j) > i
    decreases j
  {
    var n := TrailingSpace(s, i, j);
    if n > 0 {
      assert j - n != i;
      DropKeepsNonSpace(s, i, j - n);
    }
  }

  /** A string is blank exactly when skipping space reaches its end. */
  lemma BlankIff(s: Bytes)
    ensures TrimSpace(s) == [] <==> SkipSpace(s, 0) == |s|
  {
    var i := SkipSpace(s, 0);
    SkipEnds(s, 0);
    if i < |s| {
      DropKeepsNonSpace(s, i, |s|);
    }
  }

  // ---------- encoding/json on strings ----------

  predicate Continuation(b: byte) { 0x80 <= b <= 0xBF }

  /** Length of the well-formed UTF-8 sequence that s starts with, or 0 where the
      decoder reports a one-byte error. */
  function RuneLength(s: Bytes): (n: nat)
    ensures n <= |s| && n <= 4
  {
    if s == [] then 0
    else if s[0] < 0x80 then 1
    else if |s| >= 2 && 0xC2 <= s[0] <= 0xDF && Continuation(s[1]) then 2
    else if |s| >= 3 && 0xE0 <= s[0] <= 0xEF && Continuation(s[1]) && Continuation(s[2])
         && (s[0] == 0xE0 ==> s[1] >= 0xA0) && (s[0] == 0xED ==> s[1] <= 0x9F) then 3
    else if |s| >= 4 && 0xF0 <= s[0] <= 0xF4 && Continuation(s[1]) && Continuation(s[2]) && Continuation(s[3])
         && (s[0] == 0xF0 ==> s[1] >= 0x90) && (s[0] == 0xF4 ==> s[1] <= 0x8F) then 4
    else 0
  }

  predicate ValidUtf8(s: Bytes)
    decreases |s|
  {
    s == [] || (RuneLength(s) > 0 && ValidUtf8(s[RuneLength(s)..]))
  }

  /** UTF-8 encoding of U+FFFD. */
  const REPLACEMENT: Bytes := [0xEF, 0xBF, 0xBD]

  /** A string after json.Marshal and json.Unmarshal: each byte that starts no
      well-formed sequence comes back as U+FFFD. */
  function JsonRoundTrip(s: Bytes): (r: Bytes)
    ensures |r| >= |s|
    decreases |s|
  {
    if s == [] then []
    else
      var n := RuneLength(s);
      if n == 0 then REPLACEMENT + JsonRoundTrip(s[1..]) else s[..n] + JsonRoundTrip(s[n..])
  }

  /** JSON is lossless on exactly the valid UTF-8 strings. */
  lemma {:induction false} JsonLosslessIffValid(s: Bytes)
    ensures JsonRoundTrip(s) == s <==> ValidUtf8(s)
    ensures !ValidUtf8(s) ==> |JsonRoundTrip(s)| > |s|
    decreases |s|
  {
    if s != [] && RuneLength(s) > 0 {
      var n := RuneLength(s);
      JsonLosslessIffValid(s[n..]);
      assert s == s[..n] + s[n..];
      assert JsonRoundTrip(s) == s[..n] + JsonRoundTrip(s[n..]);
    }
  }

  lemma {:induction false} AsciiIsValid(s: Bytes)
    requires forall i :: 0 <= i < |s| ==> s[i] < 0x80
    ensures ValidUtf8(s)
    decreases |s|
  {
    if s != [] {
      AsciiIsValid(s[1..]);
    }
  }

  lemma RuneLengthOfExtension(s: Bytes, t: Bytes)
    requires RuneLength(s) > 0 && IsPrefix(s[..RuneLength(s)], t)
    ensures RuneLength(t) == RuneLength(s)
  {
    var n := RuneLength(s);
    forall i | 0 <= i < n ensures t[i] == s[i] {
      assert t[i] == t[..n][i] == s[..n][i];
    }
  }

  lemma {:induction false} SkipShifts(s: Bytes, n: nat, i: nat)
    requires n + i <= |s|
    ensures SkipSpace(s, n + i) == n + SkipSpace(s[n..], i)
    decreases |s| - i
  {
    assert forall k :: 0 <= k < |s| - n ==> s[n..][k] == s[n + k];
    assert LeadingSpace(s, n + i) == LeadingSpace(s[n..], i);
    if LeadingSpace(s, n + i) > 0 {
      SkipShifts(s, n, i + LeadingSpace(s, n + i));
    }
  }

  lemma SpaceIsRune(s: Bytes)
    requires LeadingSpace(s, 0) > 0
    ensures RuneLength(s) == LeadingSpace(s, 0)
  {
  }

  lemma {:induction false} JsonKeepsBlank(s: Bytes)
    requires SkipSpace(JsonRoundTrip(s), 0) == |JsonRoundTrip(s)|
    ensures SkipSpace(s, 0) == |s|
    decreases |s|
  {
    if s != [] {
      var r, n := JsonRoundTrip(s), RuneLength(s);
      SpaceIsRune(r);
      if n == 0 {
        assert false;
      } else {
        RuneLengthOfExtension(s, r);
        assert r[n..] == JsonRoundTrip(s[n..]);
        assert forall k :: 0 <= k < n ==> r[k] == s[k];
        assert LeadingSpace(s, 0) == n;
        SkipShifts(r, n, 0);
        SkipShifts(s, n, 0);
        JsonKeepsBlank(s[n..]);
      }
    }
  }

  /** A name that is not blank does not become blank on disk. */
  lemma JsonKeepsNonBlank(s: Bytes)
    requires TrimSpace(s) != []
    ensures TrimSpace(JsonRoundTrip(s)) != []
  {
    BlankIff(s);
    BlankIff(JsonRoundTrip(s));
    if TrimSpace(JsonRoundTrip(s)) == [] {
      JsonKeepsBlank(s);
    }
  }
}
