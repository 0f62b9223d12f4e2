/** lib/hmacsecret ListDevices: filter the connected authenticators, move the Windows
    WebAuthn broker to the front in place, renumber. */
module Devices {
  import opened ByteStrings
  import Text
  import opened Unicode

  type int16 = x: int | -0x8000 <= x < 0x8000

  /** libfido2's DeviceLocation. */
  datatype Location = Location(path: Bytes, product: Bytes, manufacturer: Bytes, productID: int16, vendorID: int16)

  datatype DeviceInfo = DeviceInfo(
    index: nat, path: Bytes, product: Bytes, manufacturer: Bytes, productID: int16, vendorID: int16, windowsHello: bool)

  /** The build target and ListOptions.ExcludeWindowsWebAuthn. */
  datatype Options = Options(windows: bool, excludeWebAuthn: bool)

  datatype ListError = DeviceSearch | NoDevice | NoSelectableDevice

  datatype Listing = Devices(devices: seq<DeviceInfo>) | Failed(error: ListError)

  const HELLO_PATH: Bytes := Ascii("windows://hello")

  function Lower(b: byte): byte {
    if 65 <= b <= 90 then b + 32 else b
  }

  /** strings.EqualFold against a lower-case ASCII pattern. Two runes outside ASCII fold
      into it: U+017F to s and U+212A to k. */
  predicate FoldsTo(s: Bytes, pattern: Bytes)
    decreases |pattern|
  {
    if pattern == [] then s == []
    else
      || (s != [] && Lower(s[0]) == pattern[0] && FoldsTo(s[1..], pattern[1..]))
      || (pattern[0] == 115 && IsPrefix([0xC5, 0xBF], s) && FoldsTo(s[2..], pattern[1..]))
      || (pattern[0] == 107 && IsPrefix([0xE2, 0x84, 0xAA], s) && FoldsTo(s[3..], pattern[1..]))
  }

  predicate IsHello(path: Bytes, o: Options) {
    o.windows && FoldsTo(Text.TrimSpace(path), HELLO_PATH)
  }

  predicate IsAllowed(l: Location, o: Options) {
    !(IsHello(l.path, o) && o.excludeWebAuthn)
  }

  function Describe(l: Location, index: nat, o: Options): DeviceInfo {
    DeviceInfo(index, l.path, l.product, l.manufacturer, l.productID, l.vendorID, IsHello(l.path, o))
  }

  /** The locations left by the platform filter, in order. */
  function Allowed(ls: seq<Location>, o: Options): (r: seq<Location>)
    ensures |r| <= |ls|
  {
    if ls == [] then []
    else Allowed(ls[..|ls| - 1], o) + if IsAllowed(ls[|ls| - 1], o) then [ls[|ls| - 1]] else []
  }

  /** Position of the first entry that is the broker, or the length. */
  function FirstHello(ls: seq<Location>, o: Options): (p: nat)
    ensures p <= |ls|
    ensures forall i :: 0 <= i < p ==> !IsHello(ls[i].path, o)
    ensures p < |ls| ==> IsHello(ls[p].path, o)
  {
    if ls == [] || IsHello(ls[0].path, o) then 0 else 1 + FirstHello(ls[1..], o)
  }

  /** Where position k of the list comes from, when entry p is moved to the front. */
  function Origin(k: nat, p: nat, n: nat): nat {
    if p == n || k > p then k else if k == 0 then p else k - 1
  }

  /** ds lists als with its first broker entry at the front, the others in their order,
      numbered by position. */
  ghost predicate Lists(ds: seq<DeviceInfo>, als: seq<Location>, o: Options) {
    && |ds| == |als|
    && forall k :: 0 <= k < |ds| ==> ds[k] == Describe(als[Origin(k, FirstHello(als, o), |als|)], k, o)
  }

  /** Filter, move to front, renumber. */
  method ListDevices(search: seq<Location>, searchFailed: bool, o: Options) returns (r: Listing)
    ensures searchFailed <==> r == Failed(DeviceSearch)
    ensures !searchFailed && search == [] <==> r == Failed(NoDevice)
    ensures !searchFailed && search != [] && Allowed(search, o) == [] <==> r == Failed(NoSelectableDevice)
    ensures r.Devices? ==> Lists(r.devices, Allowed(search, o), o)
  {
    hide IsHello, IsAllowed, FirstHello, Origin;
    if searchFailed {
      return Failed(DeviceSearch);
    }
    if |search| == 0 {
      return Failed(NoDevice);
    }
    var out := new DeviceInfo[|search|](_ => Describe(search[0], 0, o));
    var n := 0;
    for i := 0 to |search|
      invariant n == |Allowed(search[..i], o)|
      invariant forall k :: 0 <= k < n ==> out[k] == Describe(Allowed(search[..i], o)[k], k, o)
    {
      assert search[..i + 1][..i] == search[..i];
      if !IsAllowed(search[i], o) {
        continue;
      }
      out[n] := Describe(search[i], n, o);
      n := n + 1;
    }
    assert search[..|search|] == search;
    if n == 0 {
      return Failed(NoSelectableDevice);
    }
    PreferHello(out, n, Allowed(search, o), o);
    Renumber(out, n);
    return Devices(out[..n]);
  }

  /** The in-place part: find the broker, shift everything before it up by one with an
      overlapping copy, and put it at the front. */
  method PreferHello(out: array<DeviceInfo>, n: nat, ghost als: seq<Location>, o: Options)
    requires n == |als| <= out.Length
    requires forall k :: 0 <= k < n ==> out[k] == Describe(als[k], k, o)
    modifies out
    ensures forall k :: 0 <= k < n ==>
      out[k] == Describe(als[Origin(k, FirstHello(als, o), n)], Origin(k, FirstHello(als, o), n), o)
    ensures forall k :: n <= k < out.Length ==> out[k] == old(out[k])
  {
    hide IsHello, FirstHello;
    var i := 0;
    while i < n
      invariant 0 <= i <= n
      invariant out[..] == old(out[..])
      invariant forall k :: 0 <= k < i ==> !IsHello(als[k].path, o)
    {
      if !out[i].windowsHello {
        i := i + 1;
        continue;
      }
      FirstHelloIs(als, i, o);
      if i > 0 {
        var hello := out[i];
        forall k | 0 <= k < i {
          out[k + 1] := out[k];
        }
        out[0] := hello;
      }
      break;
    }
    if i == n {
      FirstHelloIs(als, i, o);
    }
  }

  lemma FirstHelloIs(als: seq<Location>, i: nat, o: Options)
    requires i <= |als| && forall k :: 0 <= k < i ==> !IsHello(als[k].path, o)
    requires i < |als| ==> IsHello(als[i].path, o)
    ensures FirstHello(als, o) == i
  {
    hide IsHello, FirstHello;
    var p := FirstHello(als, o);
  }

  method Renumber(out: array<DeviceInfo>, n: nat)
    requires n <= out.Length
    modifies out
    ensures forall k :: 0 <= k < n ==> out[k] == old(out[k]).(index := k)
    ensures forall k :: n <= k < out.Length ==> out[k] == old(out[k])
  {
    for i := 0 to n
      invariant forall k :: 0 <= k < i ==> out[k] == old(out[k]).(index := k)
      invariant forall k :: i <= k < out.Length ==> out[k] == old(out[k])
    {
      out[i] := out[i].(index := i);
    }
  }

  // ---------- What the list is ----------

  function LocationOf(d: DeviceInfo): Location {
    Location(d.path, d.product, d.manufacturer, d.productID, d.vendorID)
  }

  function Locations(ds: seq<DeviceInfo>): (ls: seq<Location>)
    ensures |ls| == |ds| && forall k :: 0 <= k < |ds| ==> ls[k] == LocationOf(ds[k])
  {
    seq(|ds|, k requires 0 <= k < |ds| => LocationOf(ds[k]))
  }

  /** The broker is first when there is one, no two other entries change places, and
      the index is the position. */
  lemma ListIsOrdered(ds: seq<DeviceInfo>, als: seq<Location>, o: Options)
    requires Lists(ds, als, o)
    ensures forall k :: 0 <= k < |ds| ==> ds[k].index == k
    ensures (exists k :: 0 <= k < |ds| && ds[k].windowsHello) <==> (|ds| > 0 && ds[0].windowsHello)
    ensures var p := FirstHello(als, o);
      if p == |als| then Locations(ds) == als
      else LocationOf(ds[0]) == als[p] && Locations(ds)[1..] == als[..p] + als[p + 1..]
  {
    hide IsHello, FirstHello;
    var p, ls := FirstHello(als, o), Locations(ds);
    if p < |als| {
      assert ls[1..] == als[..p] + als[p + 1..];
    } else {
      assert ls == als;
    }
    forall k | 0 <= k < |ds| && ds[k].windowsHello ensures ds[0].windowsHello {
      assert IsHello(als[Origin(k, p, |als|)].path, o);
    }
  }

  /** Each listed device is one that was found, in all its fields, and no two are the same. */
  lemma ListShowsFields(ds: seq<DeviceInfo>, als: seq<Location>, o: Options) returns (at: seq<nat>)
    requires Lists(ds, als, o)
    ensures |at| == |ds| && forall i, j :: 0 <= i < j < |at| ==> at[i] != at[j]
    ensures forall k :: 0 <= k < |ds| ==> at[k] < |als|
    ensures forall k :: 0 <= k < |ds| ==>
      && ds[k].path == als[at[k]].path && ds[k].product == als[at[k]].product
      && ds[k].manufacturer == als[at[k]].manufacturer && ds[k].productID == als[at[k]].productID
      && ds[k].vendorID == als[at[k]].vendorID && ds[k].windowsHello == IsHello(als[at[k]].path, o)
  {
    hide IsHello, FirstHello;
    at := seq(|ds|, k requires 0 <= k < |ds| => Origin(k, FirstHello(als, o), |als|));
  }

  /** Every allowed location is listed as often as it was found, and no other is. */
  lemma ListIsPermutation(ds: seq<DeviceInfo>, als: seq<Location>, o: Options)
    requires Lists(ds, als, o)
    ensures multiset(Locations(ds)) == multiset(als)
  {
    ListIsOrdered(ds, als, o);
    var p := FirstHello(als, o);
    if p < |als| {
      RotatedIsPermutation(Locations(ds), als, p);
    }
  }

  lemma RotatedIsPermutation<T>(xs: seq<T>, ys: seq<T>, p: nat)
    requires p < |ys| && |xs| == |ys| && xs[0] == ys[p] && xs[1..] == ys[..p] + ys[p + 1..]
    ensures multiset(xs) == multiset(ys)
  {
    assert xs == [xs[0]] + xs[1..];
    assert ys == ys[..p] + ([ys[p]] + ys[p + 1..]);
  }

  /** picked is ls at the positions in at, which are ascending and exactly those allowed. */
  ghost predicate Picks(at: seq<nat>, picked: seq<Location>, ls: seq<Location>, o: Options) {
    && |at| == |picked|
    && (forall i :: 0 <= i < |at| ==> at[i] < |ls| && picked[i] == ls[at[i]])
    && (forall i, j :: 0 <= i < j < |at| ==> at[i] < at[j])
    && (forall k :: 0 <= k < |ls| ==> (IsAllowed(ls[k], o) <==> k in at))
  }

  lemma PicksOneMore(at: seq<nat>, picked: seq<Location>, ls: seq<Location>, l: Location, o: Options)
    requires Picks(at, picked, ls, o)
    ensures if IsAllowed(l, o) then Picks(at + [|ls|], picked + [l], ls + [l], o) else Picks(at, picked, ls + [l], o)
  {
    hide IsAllowed;
    var ls' := ls + [l];
    assert forall i :: 0 <= i < |at| ==> at[i] != |ls|;
    assert |ls| !in at;
    forall k | 0 <= k < |ls'| ensures IsAllowed(l, o) ==> (IsAllowed(ls'[k], o) <==> k in at + [|ls|]) {
      assert k < |ls| ==> ls'[k] == ls[k];
    }
  }

  /** The filter drops exactly the locations that are not allowed and keeps the order. */
  lemma {:induction false} FilterKeepsOrder(ls: seq<Location>, o: Options) returns (at: seq<nat>)
    ensures Picks(at, Allowed(ls, o), ls, o)
  {
    hide IsAllowed, Picks;
    if ls == [] {
      at := [];
      assert Picks([], [], [], o) by { NothingPicked(o); }
    } else {
      var init, last := ls[..|ls| - 1], ls[|ls| - 1];
      at := FilterKeepsOrder(init, o);
      PicksOneMore(at, Allowed(init, o), init, last, o);
      assert ls == init + [last];
      if IsAllowed(last, o) {
        at := at + [|ls| - 1];
      } else {
        assert Allowed(ls, o) == Allowed(init, o);
      }
    }
  }

  lemma NothingPicked(o: Options)
    ensures Picks([], [], [], o)
  {
  }

  /** Off Windows nothing is filtered or moved, whatever the option says. */
  lemma {:induction false} PlainPlatform(ls: seq<Location>, o: Options)
    requires !o.windows
    ensures Allowed(ls, o) == ls && FirstHello(ls, o) == |ls|
  {
    if ls != [] {
      PlainPlatform(ls[..|ls| - 1], o);
      assert ls == ls[..|ls| - 1] + [ls[|ls| - 1]];
    }
  }

  /** With the broker excluded none is listed, and the order stays as found. */
  lemma {:induction false} ExcludedBroker(ls: seq<Location>, o: Options)
    requires o.excludeWebAuthn
    ensures FirstHello(Allowed(ls, o), o) == |Allowed(ls, o)|
  {
    var at := FilterKeepsOrder(ls, o);
  }

  /** Without the option nothing is filtered on any platform. */
  lemma {:induction false} NothingExcluded(ls: seq<Location>, o: Options)
    requires !o.excludeWebAuthn
    ensures Allowed(ls, o) == ls
  {
    hide IsHello;
    if ls != [] {
      NothingExcluded(ls[..|ls| - 1], o);
      assert ls == ls[..|ls| - 1] + [ls[|ls| - 1]];
    }
  }

  // ---------- Which paths are the broker ----------

  /** The same letter in upper or lower case, or the same byte. */
  predicate SameButCase(b: byte, c: byte) {
    b == c || (97 <= c <= 122 && b + 32 == c)
  }

  predicate SpelledAs(s: Bytes, pattern: Bytes) {
    |s| == |pattern| && forall i :: 0 <= i < |s| ==> SameButCase(s[i], pattern[i])
  }

  /** No capitals, and none of the letters that a rune outside ASCII folds into. */
  predicate FoldsPlainly(pattern: Bytes) {
    forall i :: 0 <= i < |pattern| ==> !(65 <= pattern[i] <= 90) && pattern[i] != 115 && pattern[i] != 107
  }

  lemma {:induction false} FoldsIff(s: Bytes, pattern: Bytes)
    requires FoldsPlainly(pattern)
    ensures FoldsTo(s, pattern) <==> SpelledAs(s, pattern)
  {
    if pattern != [] && s != [] {
      FoldsIff(s[1..], pattern[1..]);
      if SpelledAs(s[1..], pattern[1..]) && SameButCase(s[0], pattern[0]) {
        assert forall i :: 0 < i < |s| ==> s[i] == s[1..][i - 1] && pattern[i] == pattern[1..][i - 1];
      }
    }
  }

  /** A pattern with one s in it: spelled in any case, or with U+017F in that place. */
  lemma {:induction false} FoldsWithLongS(s: Bytes, before: Bytes, after: Bytes)
    requires FoldsPlainly(before) && FoldsPlainly(after)
    ensures FoldsTo(s, before + [115] + after) <==>
      || SpelledAs(s, before + [115] + after)
      || (|s| == |before| + 2 + |after| && SpelledAs(s[..|before|], before)
          && s[|before|..|before| + 2] == [0xC5, 0xBF] && SpelledAs(s[|before| + 2..], after))
  {
    var pattern := before + [115] + after;
    if before == [] {
      assert pattern == [115] + after && pattern[1..] == after;
      if s != [] {
        FoldsIff(s[1..], after);
        assert SpelledAs(s, pattern) <==> SameButCase(s[0], 115) && SpelledAs(s[1..], after) by {
          SpelledOneMore(s, pattern);
        }
      }
      if IsPrefix([0xC5, 0xBF], s) {
        FoldsIff(s[2..], after);
      }
    } else {
      assert pattern[1..] == before[1..] + [115] + after;
      if s != [] {
        FoldsWithLongS(s[1..], before[1..], after);
        SpelledOneMore(s, pattern);
        if |s| == |before| + 2 + |after| {
          SpelledOneMore(s[..|before|], before);
          assert s[..|before|][1..] == s[1..][..|before| - 1];
          assert s[1..][|before| - 1..|before| + 1] == s[|before|..|before| + 2];
          assert s[1..][|before| + 1..] == s[|before| + 2..];
        }
      }
    }
  }

  lemma SpelledOneMore(s: Bytes, pattern: Bytes)
    requires s != [] && pattern != []
    ensures SpelledAs(s, pattern) <==> SameButCase(s[0], pattern[0]) && SpelledAs(s[1..], pattern[1..])
  {
    assert s == [s[0]] + s[1..] && pattern == [pattern[0]] + pattern[1..];
    if SpelledAs(s[1..], pattern[1..]) && SameButCase(s[0], pattern[0]) {
      assert forall i :: 0 < i < |s| ==> s[i] == s[1..][i - 1] && pattern[i] == pattern[1..][i - 1];
    }
  }

  /** With any white space around it, a path is the broker on Windows exactly when it
      spells windows://hello in any case, or does so with U+017F for its s; elsewhere
      none is. */
  lemma BrokerIff(l: Bytes, path: Bytes, r: Bytes, o: Options)
    requires Blank(l) && Blank(r) && !StartsWithSpace(path) && !EndsWithSpace(path)
    ensures var window, rest := [119, 105, 110, 100, 111, 119], [58, 47, 47, 104, 101, 108, 108, 111];
      IsHello(l + path + r, o) <==>
        && o.windows
        && (SpelledAs(path, window + [115] + rest)
            || (|path| == 16 && SpelledAs(path[..6], window) && path[6..8] == [0xC5, 0xBF] && SpelledAs(path[8..], rest)))
  {
    hide FoldsTo, SpelledAs, Text.TrimSpace, Blank, StartsWithSpace, EndsWithSpace, FoldsPlainly;
    TrimRemoves(l, path, r);
    var window: Bytes := [119, 105, 110, 100, 111, 119];
    var rest: Bytes := [58, 47, 47, 104, 101, 108, 108, 111];
    HelloPathSpelled();
    FoldsWithLongS(path, window, rest);
  }

  lemma HelloPathSpelled()
    ensures HELLO_PATH == [119, 105, 110, 100, 111, 119] + [115] + [58, 47, 47, 104, 101, 108, 108, 111]
    ensures FoldsPlainly([119, 105, 110, 100, 111, 119]) && FoldsPlainly([58, 47, 47, 104, 101, 108, 108, 111])
  {
  }
}
