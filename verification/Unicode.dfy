/** What trimming and JSON mean in terms of Unicode code points: strings are encoded
    from numbers here, and nothing below refers to how they are scanned. */
module Unicode {
  import opened ByteStrings
  import opened Text

  type CodePoint = c: int | 0 <= c < 0x11_0000

  /** UTF-8, section 3 of RFC 3629. */
  function Utf8(c: CodePoint): (s: Bytes)
    ensures 1 <= |s| <= 4
  {
    if c < 0x80 then [c]
    else if c < 0x800 then [0xC0 + c / 64, 0x80 + c % 64]
    else if c < 0x1_0000 then [0xE0 + c / 4096, 0x80 + c / 64 % 64, 0x80 + c % 64]
    else [0xF0 + c / 0x4_0000, 0x80 + c / 4096 % 64, 0x80 + c / 64 % 64, 0x80 + c % 64]
  }

  function Encode(cs: seq<CodePoint>): Bytes {
    if cs == [] then [] else Utf8(cs[0]) + Encode(cs[1..])
  }

  /** The code points with the White_Space property. */
  predicate IsWhiteSpace(c: CodePoint) {
    || 9 <= c <= 13 || c == 0x20 || c == 0x85 || c == 0xA0 || c == 0x1680 || 0x2000 <= c <= 0x200A
    || c == 0x2028 || c == 0x2029 || c == 0x202F || c == 0x205F || c == 0x3000
  }

  ghost predicate AllWhite(cs: seq<CodePoint>) {
    forall i :: 0 <= i < |cs| ==> IsWhiteSpace(cs[i])
  }

  /** Nothing but white space. */
  ghost predicate Blank(s: Bytes) {
    exists cs: seq<CodePoint> :: AllWhite(cs) && Encode(cs) == s
  }

  ghost predicate StartsWithSpace(s: Bytes) {
    exists c: CodePoint :: IsWhiteSpace(c) && IsPrefix(Utf8(c), s)
  }

  predicate IsSuffix(p: Bytes, s: Bytes) {
    |p| <= |s| && s[|s| - |p|..] == p
  }

  ghost predicate EndsWithSpace(s: Bytes) {
    exists c: CodePoint :: IsWhiteSpace(c) && IsSuffix(Utf8(c), s)
  }

  lemma {:induction false} EncodeConcat(cs: seq<CodePoint>, ds: seq<CodePoint>)
    ensures Encode(cs + ds) == Encode(cs) + Encode(ds)
  {
    if cs == [] {
      assert cs + ds == ds;
    } else {
      assert (cs + ds)[1..] == cs[1..] + ds;
      EncodeConcat(cs[1..], ds);
    }
  }

  lemma EncodeOne(c: CodePoint)
    ensures Encode([c]) == Utf8(c)
  {
    assert [c][1..] == [];
  }

  // ---------- The scanner's tests ----------

  /** The n bytes at i are a white-space code point exactly when the scanner says so. */
  lemma SpaceAtIff(s: Bytes, i: nat, c: CodePoint)
    requires i + |Utf8(c)| <= |s| && s[i..i + |Utf8(c)|] == Utf8(c)
    ensures SpaceAt(s, i, |Utf8(c)|) <==> IsWhiteSpace(c)
  {
    var n := |Utf8(c)|;
    assert forall k :: 0 <= k < n ==> s[i + k] == Utf8(c)[k];
  }

  lemma SpaceOf(s: Bytes, i: nat, n: nat) returns (c: CodePoint)
    requires SpaceAt(s, i, n)
    ensures i + n <= |s| && IsWhiteSpace(c) && s[i..i + n] == Utf8(c)
  {
    var a: int := s[i];
    if n == 1 {
      c := a;
    } else {
      var b: int := s[i + 1];
      if n == 2 {
        c := (a - 0xC0) * 64 + (b - 0x80);
      } else {
        var d: int := s[i + 2];
        c := (a - 0xE0) * 4096 + (b - 0x80) * 64 + (d - 0x80);
      }
    }
  }

  lemma OneLength(s: Bytes, i: nat, m: nat, n: nat)
    requires SpaceAt(s, i, m) && SpaceAt(s, i, n)
    ensures m == n
  {
  }

  lemma LeadingIs(s: Bytes, i: nat, c: CodePoint)
    requires IsWhiteSpace(c) && i + |Utf8(c)| <= |s| && s[i..i + |Utf8(c)|] == Utf8(c)
    ensures LeadingSpace(s, i) == |Utf8(c)|
  {
    SpaceAtIff(s, i, c);
    WhiteIsShort(c);
    hide SpaceAt;
    var n := LeadingSpace(s, i);
    OneLength(s, i, n, |Utf8(c)|);
  }

  lemma WhiteIsShort(c: CodePoint)
    requires IsWhiteSpace(c)
    ensures |Utf8(c)| <= 3
  {
  }

  lemma TrailingIs(s: Bytes, i: nat, j: nat, c: CodePoint)
    requires IsWhiteSpace(c) && i + |Utf8(c)| <= j <= |s| && s[j - |Utf8(c)|..j] == Utf8(c)
    ensures TrailingSpace(s, i, j) == |Utf8(c)|
  {
    var n := |Utf8(c)|;
    SpaceAtIff(s, j - n, c);
    WhiteIsShort(c);
    assert forall k :: 0 <= k < n ==> s[j - n + k] == Utf8(c)[k];
  }

  lemma LeadingIff(s: Bytes, i: nat)
    requires i <= |s|
    ensures LeadingSpace(s, i) > 0 <==> StartsWithSpace(s[i..])
  {
    var n := LeadingSpace(s, i);
    if n > 0 {
      var c := SpaceOf(s, i, n);
      assert s[i..][..n] == s[i..i + n];
      assert IsPrefix(Utf8(c), s[i..]);
    }
    if StartsWithSpace(s[i..]) {
      var c: CodePoint :| IsWhiteSpace(c) && IsPrefix(Utf8(c), s[i..]);
      assert s[i..][..|Utf8(c)|] == s[i..i + |Utf8(c)|];
      LeadingIs(s, i, c);
    }
  }

  lemma TrailingIff(s: Bytes, i: nat, j: nat)
    requires i <= j <= |s|
    ensures TrailingSpace(s, i, j) > 0 <==> EndsWithSpace(s[i..j])
  {
    var t, n := s[i..j], TrailingSpace(s, i, j);
    if n > 0 {
      var c := SpaceOf(s, j - n, n);
      assert t[|t| - n..] == s[j - n..j];
      assert IsSuffix(Utf8(c), t);
    }
    if EndsWithSpace(t) {
      var c: CodePoint :| IsWhiteSpace(c) && IsSuffix(Utf8(c), t);
      assert t[|t| - |Utf8(c)|..] == s[j - |Utf8(c)|..j];
      TrailingIs(s, i, j, c);
    }
  }

  // ---------- strings.TrimSpace ----------

  lemma {:induction false} SkippedIsWhite(s: Bytes, i: nat) returns (cs: seq<CodePoint>)
    requires i <= |s|
    ensures AllWhite(cs) && Encode(cs) == s[i..SkipSpace(s, i)]
    decreases |s| - i
  {
    hide IsWhiteSpace, SpaceAt, Utf8;
    var n := LeadingSpace(s, i);
    if n == 0 {
      cs := [];
    } else {
      var c := SpaceOf(s, i, n);
      var rest := SkippedIsWhite(s, i + n);
      cs := [c] + rest;
      assert cs[1..] == rest;
      assert s[i..SkipSpace(s, i)] == s[i..i + n] + s[i + n..SkipSpace(s, i)];
    }
  }

  lemma {:induction false} DroppedIsWhite(s: Bytes, i: nat, j: nat) returns (cs: seq<CodePoint>)
    requires i <= j <= |s|
    ensures AllWhite(cs) && Encode(cs) == s[DropSpace(s, i, j)..j]
    decreases j
  {
    hide IsWhiteSpace, SpaceAt, Utf8;
    var n := TrailingSpace(s, i, j);
    if n == 0 {
      cs := [];
    } else {
      var c := SpaceOf(s, j - n, n);
      var front := DroppedIsWhite(s, i, j - n);
      cs := front + [c];
      EncodeConcat(front, [c]);
      EncodeOne(c);
      assert s[DropSpace(s, i, j)..j] == s[DropSpace(s, i, j)..j - n] + s[j - n..j];
    }
  }

  lemma {:induction false} SkipsWhite(cs: seq<CodePoint>, rest: Bytes)
    requires AllWhite(cs)
    ensures SkipSpace(Encode(cs) + rest, 0) == |Encode(cs)| + SkipSpace(rest, 0)
  {
    hide IsWhiteSpace, SpaceAt, Utf8;
    var s := Encode(cs) + rest;
    if cs == [] {
      assert s == rest;
    } else {
      var u := Utf8(cs[0]);
      assert s == u + (Encode(cs[1..]) + rest);
      assert s[0..|u|] == u && s[|u|..] == Encode(cs[1..]) + rest;
      LeadingIs(s, 0, cs[0]);
      SkipShifts(s, |u|, 0);
      SkipsWhite(cs[1..], rest);
    }
  }

  lemma {:induction false} DropsWhite(front: Bytes, cs: seq<CodePoint>, tail: Bytes, i: nat)
    requires AllWhite(cs) && i <= |front|
    ensures DropSpace(front + Encode(cs) + tail, i, |front| + |Encode(cs)|) == DropSpace(front + Encode(cs) + tail, i, |front|)
    decreases |cs|
  {
    hide IsWhiteSpace, SpaceAt, Utf8;
    if cs != [] {
      var init, c := cs[..|cs| - 1], cs[|cs| - 1];
      assert cs == init + [c];
      EncodeConcat(init, [c]);
      EncodeOne(c);
      var s, j := front + Encode(cs) + tail, |front| + |Encode(cs)|;
      assert s == front + Encode(init) + (Utf8(c) + tail);
      assert s[j - |Utf8(c)|..j] == Utf8(c);
      TrailingIs(s, i, j, c);
      DropsWhite(front, init, Utf8(c) + tail, i);
    }
  }

  /** Trimming takes white space off both ends, and all of it. */
  lemma TrimSplits(s: Bytes) returns (l: Bytes, r: Bytes)
    ensures s == l + TrimSpace(s) + r && Blank(l) && Blank(r)
    ensures !StartsWithSpace(TrimSpace(s)) && !EndsWithSpace(TrimSpace(s))
  {
    hide IsWhiteSpace, SpaceAt, Utf8;
    var i := SkipSpace(s, 0);
    var j := DropSpace(s, i, |s|);
    var before := SkippedIsWhite(s, 0);
    var after := DroppedIsWhite(s, i, |s|);
    assert AllWhite(before) && AllWhite(after);
    l, r := s[..i], s[j..];
    assert Encode(before) == l && Encode(after) == r;
    SkipEnds(s, 0);
    DropEnds(s, i, |s|);
    SpacesOfSlice(s, i, j);
    var t := s[i..j];
    LeadingIff(t, 0);
    TrailingIff(s, i, j);
    assert t[0..] == t;
  }

  lemma NotStraddling(c: CodePoint, t: Bytes, cs: seq<CodePoint>)
    requires t != [] && !IsPrefix(Utf8(c), t)
    ensures !IsPrefix(Utf8(c), t + Encode(cs))
  {
    hide Utf8;
    var u, s := Utf8(c), t + Encode(cs);
    if |u| <= |t| {
      assert s[..|u|] == t[..|u|];
    } else if IsPrefix(u, s) {
      assert s[|t|] == s[..|u|][|t|] == u[|t|];
      assert s[|t|] == Encode(cs)[0] == Utf8(cs[0])[0];
      LaterByte(c, |t|);
      FirstByte(cs[0]);
    }
  }

  /** Nothing straddles the end of the text and the white space behind it. */
  lemma NoStraddling(t: Bytes, r: Bytes)
    requires t != [] && !StartsWithSpace(t) && Blank(r)
    ensures !StartsWithSpace(t + r)
  {
    hide Utf8, IsWhiteSpace, IsPrefix;
    var cs: seq<CodePoint> :| AllWhite(cs) && Encode(cs) == r;
    forall c: CodePoint | IsWhiteSpace(c) ensures !IsPrefix(Utf8(c), t + r) {
      NotStraddling(c, t, cs);
    }
  }

  lemma LaterByte(c: CodePoint, k: nat)
    requires 0 < k < |Utf8(c)|
    ensures 0x80 <= Utf8(c)[k] < 0xC0
  {
  }

  lemma FirstByte(c: CodePoint)
    ensures !(0x80 <= Utf8(c)[0] < 0xC0)
  {
  }

  lemma TrimNothing(before: seq<CodePoint>, after: seq<CodePoint>)
    requires AllWhite(before) && AllWhite(after)
    ensures TrimSpace(Encode(before) + Encode(after)) == []
  {
    hide AllWhite, SpaceAt, Encode;
    var s, r := Encode(before) + Encode(after), Encode(after);
    SkipsWhite(before, r);
    assert r == r + [];
    SkipsWhite(after, []);
    assert SkipSpace(s, 0) == |s|;
  }

  lemma TrimText(before: seq<CodePoint>, t: Bytes, after: seq<CodePoint>)
    requires AllWhite(before) && AllWhite(after) && t != [] && !StartsWithSpace(t) && !EndsWithSpace(t)
    requires !StartsWithSpace(t + Encode(after))
    ensures TrimSpace(Encode(before) + t + Encode(after)) == t
  {
    hide AllWhite, SpaceAt, Encode, StartsWithSpace, EndsWithSpace, SkipSpace, DropSpace, LeadingSpace, TrailingSpace;
    var l, r := Encode(before), Encode(after);
    var s := l + t + r;
    assert s == l + (t + r);
    SkipsWhite(before, t + r);
    assert (t + r)[0..] == t + r;
    LeadingIff(t + r, 0);
    SkipStays(t + r);
    assert s == (l + t) + r + [];
    DropsWhite(l + t, after, [], |l|);
    assert s[|l|..|l + t|] == t;
    TrailingIff(s, |l|, |l + t|);
    DropStays(s, |l|, |l + t|);
  }

  lemma SkipStays(s: Bytes)
    requires LeadingSpace(s, 0) == 0
    ensures SkipSpace(s, 0) == 0
  {
  }

  lemma DropStays(s: Bytes, i: nat, j: nat)
    requires i <= j && TrailingSpace(s, i, j) == 0
    ensures DropSpace(s, i, j) == j
  {
  }

  /** White space on either side, of any kind and length, is removed, and nothing of the
      text is. */
  lemma TrimRemoves(l: Bytes, t: Bytes, r: Bytes)
    requires Blank(l) && Blank(r) && !StartsWithSpace(t) && !EndsWithSpace(t)
    ensures TrimSpace(l + t + r) == t
  {
    hide AllWhite, SpaceAt, StartsWithSpace, EndsWithSpace, TrimSpace;
    var before: seq<CodePoint> :| AllWhite(before) && Encode(before) == l;
    var after: seq<CodePoint> :| AllWhite(after) && Encode(after) == r;
    hide Encode;
    if t == [] {
      assert l + t + r == l + r;
      TrimNothing(before, after);
    } else {
      NoStraddling(t, r);
      TrimText(before, t, after);
    }
  }

  /** A string trims to nothing exactly when it is blank. */
  lemma BlankTrims(s: Bytes)
    ensures TrimSpace(s) == [] <==> Blank(s)
  {
    hide SpaceAt, TrimSpace, Blank, StartsWithSpace, EndsWithSpace;
    if Blank(s) {
      assert [] + [] + s == s;
      NothingIsBlank();
      EmptyHasNoSpace();
      TrimRemoves([], [], s);
    } else {
      var l, r := TrimSplits(s);
      if TrimSpace(s) == [] {
        assert s == l + r;
        BlankConcat(l, r);
      }
    }
  }

  lemma NothingIsBlank()
    ensures Blank([])
  {
    assert Encode([]) == [];
  }

  lemma EmptyHasNoSpace()
    ensures !StartsWithSpace([]) && !EndsWithSpace([])
  {
  }

  lemma BlankConcat(l: Bytes, r: Bytes)
    requires Blank(l) && Blank(r)
    ensures Blank(l + r)
  {
    hide IsWhiteSpace;
    var cs: seq<CodePoint> :| AllWhite(cs) && Encode(cs) == l;
    var ds: seq<CodePoint> :| AllWhite(ds) && Encode(ds) == r;
    EncodeConcat(cs, ds);
    assert AllWhite(cs + ds);
  }

  // ---------- encoding/json on strings ----------

  /** A code point that is no surrogate. */
  predicate IsScalar(c: CodePoint) {
    !(0xD800 <= c < 0xE000)
  }

  ghost predicate AllScalar(cs: seq<CodePoint>) {
    forall i :: 0 <= i < |cs| ==> IsScalar(cs[i])
  }

  ghost predicate StartsWithRune(s: Bytes) {
    exists c: CodePoint :: IsScalar(c) && IsPrefix(Utf8(c), s)
  }

  lemma RuneOfEncoding(c: CodePoint, s: Bytes)
    requires IsScalar(c) && IsPrefix(Utf8(c), s)
    ensures RuneLength(s) == |Utf8(c)|
  {
    var u := Utf8(c);
    assert forall k :: 0 <= k < |u| ==> s[k] == s[..|u|][k] == u[k];
    EncodingShape(c);
    hide Utf8;
  }

  /** The ranges of the bytes of an encoding, as the decoder tests them. */
  lemma EncodingShape(c: CodePoint)
    requires IsScalar(c)
    ensures var u := Utf8(c);
      && (|u| == 1 ==> u[0] < 0x80)
      && (|u| == 2 ==> 0xC2 <= u[0] <= 0xDF)
      && (|u| == 3 ==> 0xE0 <= u[0] <= 0xEF && (u[0] == 0xE0 ==> u[1] >= 0xA0) && (u[0] == 0xED ==> u[1] <= 0x9F))
      && (|u| == 4 ==> 0xF0 <= u[0] <= 0xF4 && (u[0] == 0xF0 ==> u[1] >= 0x90) && (u[0] == 0xF4 ==> u[1] <= 0x8F))
      && (forall k :: 0 < k < |u| ==> Continuation(u[k]))
  {
  }

  lemma Two(a: int, b: int) returns (c: CodePoint)
    requires 0xC2 <= a <= 0xDF && 0x80 <= b <= 0xBF
    ensures IsScalar(c) && Utf8(c) == [a, b]
  {
    c := (a - 0xC0) * 64 + (b - 0x80);
  }

  lemma Three(a: int, b: int, d: int) returns (c: CodePoint)
    requires 0xE0 <= a <= 0xEF && 0x80 <= b <= 0xBF && 0x80 <= d <= 0xBF
    requires (a == 0xE0 ==> b >= 0xA0) && (a == 0xED ==> b <= 0x9F)
    ensures IsScalar(c) && Utf8(c) == [a, b, d]
  {
    c := (a - 0xE0) * 4096 + (b - 0x80) * 64 + (d - 0x80);
    assert c / 64 == (a - 0xE0) * 64 + (b - 0x80);
  }

  lemma Four(a: int, b: int, d: int, e: int) returns (c: CodePoint)
    requires 0xF0 <= a <= 0xF4 && 0x80 <= b <= 0xBF && 0x80 <= d <= 0xBF && 0x80 <= e <= 0xBF
    requires (a == 0xF0 ==> b >= 0x90) && (a == 0xF4 ==> b <= 0x8F)
    ensures IsScalar(c) && Utf8(c) == [a, b, d, e]
  {
    c := (a - 0xF0) * 0x4_0000 + (b - 0x80) * 4096 + (d - 0x80) * 64 + (e - 0x80);
    assert c / 64 == (a - 0xF0) * 4096 + (b - 0x80) * 64 + (d - 0x80);
    assert c / 4096 == (a - 0xF0) * 64 + (b - 0x80);
  }

  lemma EncodingOfRune(s: Bytes) returns (c: CodePoint)
    requires RuneLength(s) > 0
    ensures IsScalar(c) && Utf8(c) == s[..RuneLength(s)]
  {
    var n := RuneLength(s);
    if n == 1 {
      c := s[0];
    } else {
      hide Utf8;
      if n == 2 {
        c := Two(s[0], s[1]);
      } else if n == 3 {
        c := Three(s[0], s[1], s[2]);
      } else {
        c := Four(s[0], s[1], s[2], s[3]);
      }
    }
  }

  /** Valid UTF-8 is exactly what encodes a sequence of scalar values. */
  lemma {:induction false} ValidUtf8Iff(s: Bytes)
    ensures ValidUtf8(s) <==> exists cs: seq<CodePoint> :: AllScalar(cs) && Encode(cs) == s
    decreases |s|
  {
    hide Utf8, RuneLength, IsScalar;
    if s == [] {
      assert AllScalar([]) && Encode([]) == s;
    } else {
      if ValidUtf8(s) {
        var n := RuneLength(s);
        var c := EncodingOfRune(s);
        ValidUtf8Iff(s[n..]);
        var cs: seq<CodePoint> :| AllScalar(cs) && Encode(cs) == s[n..];
        assert ([c] + cs)[1..] == cs;
        assert s == s[..n] + s[n..];
        assert AllScalar([c] + cs) && Encode([c] + cs) == s;
      }
      if cs: seq<CodePoint> :| AllScalar(cs) && Encode(cs) == s {
        var u := Utf8(cs[0]);
        assert s[..|u|] == u && s[|u|..] == Encode(cs[1..]);
        RuneOfEncoding(cs[0], s);
        ValidUtf8Iff(s[|u|..]);
        assert AllScalar(cs[1..]);
      }
    }
  }

  /** JSON keeps every encoded scalar value. */
  lemma JsonKeepsRune(c: CodePoint, rest: Bytes)
    requires IsScalar(c)
    ensures JsonRoundTrip(Utf8(c) + rest) == Utf8(c) + JsonRoundTrip(rest)
  {
    hide Utf8, RuneLength;
    var s, n := Utf8(c) + rest, |Utf8(c)|;
    assert s[..n] == Utf8(c) && s[n..] == rest;
    RuneOfEncoding(c, s);
  }

  /** And puts U+FFFD in place of one byte wherever none is encoded. */
  lemma JsonReplacesByte(s: Bytes)
    requires s != [] && !StartsWithRune(s)
    ensures JsonRoundTrip(s) == Utf8(0xFFFD) + JsonRoundTrip(s[1..])
  {
    hide RuneLength, Utf8;
    if RuneLength(s) > 0 {
      var c := EncodingOfRune(s);
    }
    ReplacementIs();
  }

  lemma ReplacementIs()
    ensures Utf8(0xFFFD) == REPLACEMENT
  {
  }
}
