/**
 * The helpers of utils.ts: address normalisation, query-string handling,
 * request paths and request headers.
 */
module Utils {
  import opened Wrappers
  import opened JsValues
  import opened Text
  import Constants

  // ---------------------------------------------------------------------------
  // Addresses
  // ---------------------------------------------------------------------------

  predicate StartsWithSlash(s: string) { |s| > 0 && s[0] == '/' }
  predicate EndsWithSlash(s: string) { |s| > 0 && s[|s| - 1] == '/' }

  /** Drops one leading and one trailing `/`, if present. */
  function RemoveLeadingTrailingSlash(s: string): (r: string)
    ensures |r| <= |s| <= |r| + 2
    ensures !StartsWithSlash(s) && !EndsWithSlash(s) ==> r == s
    ensures StartsWithSlash(s) ==> |r| < |s|
    ensures var lo := if StartsWithSlash(s) then 1 else 0; r == s[lo..lo + |r|]
    ensures var lo := if StartsWithSlash(s) then 1 else 0;
      |r| >= |s| - lo - 1 && (|r| == |s| - lo - 1 <==> EndsWithSlash(s[lo..]))
  {
    var tmp := if StartsWithSlash(s) then s[1..] else s;
    if EndsWithSlash(tmp) then tmp[..|tmp| - 1] else tmp
  }

  /** Wrapping a slash-free core in one slash on either side, or both, is undone exactly. */
  lemma RemoveSlashesUnwraps(core: string, lead: bool, trail: bool)
    requires !StartsWithSlash(core) && !EndsWithSlash(core)
    ensures RemoveLeadingTrailingSlash((if lead then "/" else "") + core + (if trail then "/" else "")) == core
  {
    var tail := if trail then "/" else "";
    var s := (if lead then "/" else "") + core + tail;
    if lead {
      assert s[1..] == core + tail;
    } else if core != [] {
      assert s[0] == core[0];
    }
  }

  /** A character of the scheme pattern `[a-z0-9.+-]` (case-insensitive) that `url.parse` recognises. */
  predicate IsSchemeChar(c: char) {
    ('a' <= c <= 'z') || ('A' <= c <= 'Z') || ('0' <= c <= '9') || c == '.' || c == '+' || c == '-'
  }

  /** The length of the longest prefix of scheme characters. */
  function SchemeLength(s: string): (n: nat)
    ensures n <= |s|
    ensures forall i :: 0 <= i < n ==> IsSchemeChar(s[i])
    ensures n < |s| ==> !IsSchemeChar(s[n])
  {
    if s != [] && IsSchemeChar(s[0]) then 1 + SchemeLength(s[1..]) else 0
  }

  /** The `protocol` that `url.parse` reports: the leading scheme with its colon, lower-cased, if any. */
  function ParsedProtocol(url: string): Option<string> {
    var t := Trim(url);
    var n := SchemeLength(t);
    if 0 < n < |t| && t[n] == ':' then Some(ToLower(t[..n + 1])) else None
  }

  predicate HasWebProtocol(url: string) {
    ParsedProtocol(url) == Some("http:") || ParsedProtocol(url) == Some("https:")
  }

  /** Prefixing `http://` always yields an address whose protocol is `http:`. */
  lemma HttpPrefixParses(url: string)
    ensures ParsedProtocol("http://" + url) == Some("http:")
  {
    var s := "http://" + url;
    TrimKeepsPrefix(s, "http:");
    var t := Trim(s);
    assert t[..5] == "http:";
    var n := SchemeLength(t);
    assert IsSchemeChar(t[0]) && IsSchemeChar(t[1]) && IsSchemeChar(t[2]) && IsSchemeChar(t[3]);
    assert !IsSchemeChar(t[4]);
    assert n == 4;
    assert ToLower(t[..5]) == "http:";
  }

  /** Keeps an address that already names `http:` or `https:`; prefixes `http://` otherwise. */
  function EnsureProtocol(url: string): (r: string)
    ensures HasWebProtocol(r)
    ensures HasWebProtocol(url) ==> r == url
    ensures !HasWebProtocol(url) ==> r == "http://" + url
  {
    if HasWebProtocol(url) then url
    else
      HttpPrefixParses(url);
      "http://" + url
  }

  /** Normalising twice changes nothing more than normalising once. */
  lemma EnsureProtocolIdempotent(url: string)
    ensures EnsureProtocol(EnsureProtocol(url)) == EnsureProtocol(url)
  {
  }

  /** `xs.map(next => next.trim())` */
  function TrimAll(xs: seq<string>): (r: seq<string>)
    ensures |r| == |xs|
    ensures forall i :: 0 <= i < |xs| ==> r[i] == Trim(xs[i])
  {
    seq(|xs|, i requires 0 <= i < |xs| => Trim(xs[i]))
  }

  /** `xs.filter(next => next !== '')`, keeping order. */
  function DropEmpty(xs: seq<string>): (r: seq<string>)
    ensures |r| <= |xs|
    ensures forall i :: 0 <= i < |r| ==> r[i] != ""
    ensures forall x :: x in r <==> x in xs && x != ""
    ensures (forall i :: 0 <= i < |xs| ==> xs[i] != "") ==> r == xs
    ensures |xs| == 1 ==> r == (if xs[0] == "" then [] else xs)
  {
    if xs == [] then []
    else if xs[0] == "" then DropEmpty(xs[1..])
    else [xs[0]] + DropEmpty(xs[1..])
  }

  /**
   * The filter works entry by entry and keeps order: filtering a
   * concatenation concatenates the filtered halves. With the one-entry case
   * this fixes the order and the number of copies of every kept entry.
   */
  lemma {:induction false} DropEmptyAppend(a: seq<string>, b: seq<string>)
    ensures DropEmpty(a + b) == DropEmpty(a) + DropEmpty(b)
  {
    if a != [] {
      assert (a + b)[1..] == a[1..] + b;
      DropEmptyAppend(a[1..], b);
    } else {
      assert a + b == b;
    }
  }

  /**
   * The addresses configured in the environment: the comma-separated parts of
   * `CONSUL_ADDRESS`, trimmed, empty parts dropped; `[DEFAULT_HOST]` when unset.
   */
  function DefaultAddresses(envAddress: Option<string>): (r: seq<string>)
    ensures envAddress.None? ==> r == [Constants.DefaultHost]
    ensures envAddress.Some? ==> forall i :: 0 <= i < |r| ==> r[i] != "" && Trimmed(r[i]) && ',' !in r[i]
  {
    match envAddress
    case None => [Constants.DefaultHost]
    case Some(env) =>
      var parts := Split(env, ',');
      TrimAllAvoids(parts, ',');
      DropEmpty(TrimAll(parts))
  }

  /** Trimming each part never introduces a character that no part contains. */
  lemma TrimAllAvoids(xs: seq<string>, c: char)
    requires forall i :: 0 <= i < |xs| ==> c !in xs[i]
    ensures forall x :: x in TrimAll(xs) ==> c !in x && Trimmed(x)
  {
    forall x | x in TrimAll(xs) ensures c !in x && Trimmed(x) {
      var i :| 0 <= i < |xs| && TrimAll(xs)[i] == x;
      TrimAddsNothing(xs[i], c);
    }
  }

  /** Every address is non-empty, has no surrounding white space and holds no comma. */
  predicate CleanAddresses(addrs: seq<string>) {
    addrs == [] || (addrs[0] != "" && Trimmed(addrs[0]) && ',' !in addrs[0] && CleanAddresses(addrs[1..]))
  }

  lemma {:induction false} CleanAddressesEach(addrs: seq<string>)
    requires CleanAddresses(addrs)
    ensures forall i :: 0 <= i < |addrs| ==> addrs[i] != "" && Trimmed(addrs[i]) && ',' !in addrs[i]
  {
    if addrs != [] {
      CleanAddressesEach(addrs[1..]);
      forall i | 1 <= i < |addrs| ensures addrs[i] == addrs[1..][i - 1] {}
    }
  }

  /** A list of clean addresses survives being written into the environment and read back. */
  lemma DefaultAddressesRoundTrip(addrs: seq<string>)
    requires CleanAddresses(addrs)
    ensures DefaultAddresses(Some(Join(addrs, ','))) == addrs
  {
    if addrs == [] {
      EmptyAddressList();
    } else {
      JoinedAddressesSplitBack(addrs);
      ReadCleanAddresses(Join(addrs, ','), addrs);
    }
  }

  /** An empty `CONSUL_ADDRESS` yields no address at all, not the default host. */
  lemma EmptyAddressList()
    ensures DefaultAddresses(Some("")) == []
  {
    assert Split("", ',') == [""];
    assert TrimAll([""]) == [""];
  }

  /** Joining clean addresses with commas and splitting again gives them back. */
  lemma JoinedAddressesSplitBack(addrs: seq<string>)
    requires addrs != [] && CleanAddresses(addrs)
    ensures Split(Join(addrs, ','), ',') == addrs
  {
    CleanAddressesEach(addrs);
    SplitJoin(addrs, ',');
  }

  /** An environment value whose comma-separated parts are clean addresses reads back as those parts. */
  lemma ReadCleanAddresses(env: string, addrs: seq<string>)
    requires Split(env, ',') == addrs && CleanAddresses(addrs)
    ensures DefaultAddresses(Some(env)) == addrs
  {
    CleanAddressesKept(addrs);
  }

  /**
   * Any comma-free parts written into the environment with commas between
   * them read back trimmed, with the parts that trim to nothing dropped.
   */
  lemma DefaultAddressesOfParts(parts: seq<string>)
    requires |parts| >= 1 && forall i :: 0 <= i < |parts| ==> ',' !in parts[i]
    ensures DefaultAddresses(Some(Join(parts, ','))) == DropEmpty(TrimAll(parts))
  {
    SplitJoin(parts, ',');
  }

  /**
   * White space around an address and a blank part between two addresses
   * disappear: `" a , ,b"`, for any non-space characters `a` and `b`, reads
   * as the two addresses `"a"` and `"b"`.
   */
  lemma PaddedAddressesExample(a: char, b: char)
    requires !IsSpace(a) && !IsSpace(b) && a != ',' && b != ','
    ensures DefaultAddresses(Some([' ', a, ' ', ',', ' ', ',', b])) == [[a], [b]]
  {
    var parts := PaddedParts(a, b);
    DefaultAddressesOfParts(parts);
    PaddedPartsTrimmed(a, b);
    DropEmptyMiddle([a], [b]);
  }

  /** The three parts of `" a , ,b"`, which join back to it. */
  function PaddedParts(a: char, b: char): (parts: seq<string>)
    requires a != ',' && b != ','
    ensures |parts| == 3 && forall i :: 0 <= i < 3 ==> ',' !in parts[i]
    ensures Join(parts, ',') == [' ', a, ' ', ',', ' ', ',', b]
  {
    JoinThree([' ', a, ' '], [' '], [b], ',');
    [[' ', a, ' '], [' '], [b]]
  }

  lemma PaddedPartsTrimmed(a: char, b: char)
    requires !IsSpace(a) && !IsSpace(b) && a != ',' && b != ','
    ensures TrimAll(PaddedParts(a, b)) == [[a], [], [b]]
  {
    var parts := PaddedParts(a, b);
    SpacedCharTrimmed(a);
    BlankTrimmed();
    assert Trimmed([b]);
    assert TrimAll(parts)[0] == [a] && TrimAll(parts)[1] == [] && TrimAll(parts)[2] == [b];
  }

  lemma SpacedCharTrimmed(a: char)
    requires !IsSpace(a)
    ensures Trim([' ', a, ' ']) == [a]
  {
    TrimPadded([' '], [a], [' ']);
    assert [' '] + [a] + [' '] == [' ', a, ' '];
  }

  lemma BlankTrimmed()
    ensures Trim([' ']) == []
  {
    TrimPadded([' '], [], []);
    assert [' '] + [] + [] == [' '];
  }


  /** An empty part between two addresses is dropped. */
  lemma DropEmptyMiddle(x: string, y: string)
    requires x != "" && y != ""
    ensures DropEmpty([x, [], y]) == [x, y]
  {
    assert [x, [], y][1..] == [[], y];
    assert [[], y][1..] == [y];
  }


  /** Trimming and dropping empty parts leave clean addresses as they are. */
  lemma CleanAddressesKept(addrs: seq<string>)
    requires CleanAddresses(addrs)
    ensures DropEmpty(TrimAll(addrs)) == addrs
  {
    CleanAddressesEach(addrs);
    TrimAllKeepsTrimmed(addrs);
  }

  /** Trimming already-trimmed strings changes none of them. */
  lemma TrimAllKeepsTrimmed(xs: seq<string>)
    requires forall i :: 0 <= i < |xs| ==> Trimmed(xs[i])
    ensures TrimAll(xs) == xs
  {
    var t := TrimAll(xs);
    forall i | 0 <= i < |xs| ensures t[i] == xs[i] {
      assert Trimmed(xs[i]);
    }
  }

  // ---------------------------------------------------------------------------
  // Query strings
  // ---------------------------------------------------------------------------

  /** `xs.filter(next => next.trim() !== '')`, keeping order. */
  function DropBlank(xs: seq<string>): (r: seq<string>)
    ensures |r| <= |xs|
    ensures forall x :: x in r <==> x in xs && Trim(x) != ""
    ensures |xs| == 1 ==> r == (if Trim(xs[0]) == "" then [] else xs)
  {
    if xs == [] then []
    else if Trim(xs[0]) == "" then DropBlank(xs[1..])
    else [xs[0]] + DropBlank(xs[1..])
  }

  /**
   * The filter works part by part and keeps order: filtering a
   * concatenation concatenates the filtered halves. With the one-part case
   * this fixes the order and the number of copies of every kept part.
   */
  lemma {:induction false} DropBlankAppend(a: seq<string>, b: seq<string>)
    ensures DropBlank(a + b) == DropBlank(a) + DropBlank(b)
  {
    if a != [] {
      assert (a + b)[1..] == a[1..] + b;
      assert (a + b)[0] == a[0];
      DropBlankAppend(a[1..], b);
      if Trim(a[0]) == "" {
        assert DropBlank(a + b) == DropBlank(a[1..] + b);
      } else {
        assert DropBlank(a + b) == [a[0]] + DropBlank(a[1..] + b);
      }
    } else {
      assert a + b == b;
    }
  }

  /** The second non-blank `?`-separated part of a service name, when there is one. */
  function QueryString(raw: string): Option<string> {
    var parts := DropBlank(Split(raw, '?'));
    if |parts| > 1 then Some(parts[1]) else None
  }

  /** The `&`-separated pairs of the query string; none without a query string. */
  function QueryPairs(raw: string): seq<string> {
    match QueryString(raw)
    case None => []
    case Some(q) => Split(q, '&')
  }

  /** `const [key, value] = pair.split('=')`: the key. */
  function PairKey(pair: string): string {
    Split(pair, '=')[0]
  }

  /** `const [key, value] = pair.split('=')`: the value, `undefined` without an `=`. */
  function PairValue(pair: string): Value {
    var kv := Split(pair, '=');
    if |kv| > 1 then Str(kv[1]) else Undefined
  }

  function PairKeys(pairs: seq<string>): (ks: seq<string>)
    ensures |ks| == |pairs|
    ensures forall i :: 0 <= i < |pairs| ==> ks[i] == PairKey(pairs[i])
  {
    seq(|pairs|, i requires 0 <= i < |pairs| => PairKey(pairs[i]))
  }

  /** The value that the last pair with key `k` assigns; later pairs overwrite earlier ones. */
  function LastAssigned(pairs: seq<string>, k: string): Value {
    if pairs == [] then Undefined
    else if PairKey(pairs[|pairs| - 1]) == k then PairValue(pairs[|pairs| - 1])
    else LastAssigned(pairs[..|pairs| - 1], k)
  }

  /** The object that assigning the pairs `ps` in order to a fresh object builds. */
  function AssignedPairs(ps: seq<string>): (r: Value)
    ensures r.Obj?
  {
    if ps == [] then Obj([])
    else
      var p := ps[|ps| - 1];
      SetProp(AssignedPairs(ps[..|ps| - 1]), PairKey(p), PairValue(p))
  }

  /** The object `splitQueryMap(raw)` returns. */
  function QueryMap(raw: string): (r: Value)
    ensures r.Obj?
  {
    AssignedPairs(QueryPairs(raw))
  }

  /** One more pair: `AssignedPairs` over `ps[..i + 1]` assigns `ps[i]` on the one over `ps[..i]`. */
  lemma AssignedPairsStep(ps: seq<string>, i: nat)
    requires i < |ps|
    ensures AssignedPairs(ps[..i + 1]) == SetProp(AssignedPairs(ps[..i]), PairKey(ps[i]), PairValue(ps[i]))
  {
    assert ps[..i + 1][..i] == ps[..i];
  }

  /** The `pairs.forEach` loop: assigns each pair's key and value to a fresh object, in order. */
  method AssignPairs(pairs: seq<string>) returns (result: Value)
    ensures result == AssignedPairs(pairs)
  {
    result := Obj([]);
    for i := 0 to |pairs|
      invariant result == AssignedPairs(pairs[..i])
    {
      var kv := Split(pairs[i], '=');
      var key := kv[0];
      var value := if |kv| > 1 then Str(kv[1]) else Undefined;
      AssignedPairsStep(pairs, i);
      result := SetProp(result, key, value);
    }
    assert pairs[..|pairs|] == pairs;
  }

  /**
   * Parses the query part of a service name such as `web?dc=dc1&near=_agent`
   * into an object.
   */
  method SplitQueryMap(raw: string) returns (result: Value)
    ensures result == QueryMap(raw)
  {
    var parts := DropBlank(Split(raw, '?'));
    if |parts| > 1 {
      var query := parts[1];
      var pairs := Split(query, '&');
      result := AssignPairs(pairs);
    } else {
      result := Obj([]);
    }
  }

  lemma {:induction false} AssignedPairsDistinct(ps: seq<string>)
    ensures Distinct(Keys(AssignedPairs(ps)))
  {
    if ps != [] {
      var init := ps[..|ps| - 1];
      var p := ps[|ps| - 1];
      AssignedPairsDistinct(init);
      SetPropKeepsDistinct(AssignedPairs(init), PairKey(p), PairValue(p));
    }
  }

  /** A key is present exactly when some pair names it. */
  lemma {:induction false} AssignedPairsMember(ps: seq<string>, k: string)
    ensures k in Keys(AssignedPairs(ps)) <==> k in PairKeys(ps)
  {
    if ps != [] {
      var init := ps[..|ps| - 1];
      AssignedPairsMember(init, k);
      assert PairKeys(ps) == PairKeys(init) + [PairKey(ps[|ps| - 1])];
    }
  }

  /** Each key holds the value of the last pair naming it; later pairs overwrite earlier ones. */
  lemma {:induction false} AssignedPairsProp(ps: seq<string>, k: string)
    ensures Prop(AssignedPairs(ps), k) == LastAssigned(ps, k)
  {
    if ps != [] {
      AssignedPairsProp(ps[..|ps| - 1], k);
    }
  }

  /**
   * `splitQueryMap` yields one key per distinct pair key, each once, holding the
   * value of the last pair with that key; no query string yields an empty object.
   */
  lemma QueryMapEntries(raw: string)
    ensures QueryString(raw).None? ==> QueryMap(raw) == Obj([])
    ensures Distinct(Keys(QueryMap(raw)))
    ensures forall k :: k in Keys(QueryMap(raw)) <==> k in PairKeys(QueryPairs(raw))
    ensures forall k :: Prop(QueryMap(raw), k) == LastAssigned(QueryPairs(raw), k)
  {
    AssignedPairsDistinct(QueryPairs(raw));
    forall k ensures k in Keys(QueryMap(raw)) <==> k in PairKeys(QueryPairs(raw)) {
      AssignedPairsMember(QueryPairs(raw), k);
    }
    forall k ensures Prop(QueryMap(raw), k) == LastAssigned(QueryPairs(raw), k) {
      AssignedPairsProp(QueryPairs(raw), k);
    }
  }

  /** A value that survives cleaning: not `undefined`, not `null`, not the string `'false'`. */
  predicate Kept(v: Value) {
    v != Undefined && v != Null && v != Str("false")
  }

  /** `dc || process.env[CONSUL_DC]`, with the environment read passed in as `envDc`. */
  function DcOrEnv(dc: Value, envDc: Option<string>): Value {
    if Truthy(dc) then dc
    else match envDc
      case None => Undefined
      case Some(d) => Str(d)
  }

  /** `raw.dc || process.env[CONSUL_DC]` */
  function DcDefault(raw: Value, envDc: Option<string>): Value {
    DcOrEnv(Prop(raw, "dc"), envDc)
  }

  /** The kept entries of `src` among the keys `ks`, copied in the order of `ks`. */
  function KeptEntries(src: Value, ks: seq<string>): (r: Value)
    ensures r.Obj?
  {
    if ks == [] then Obj([])
    else
      var prev := KeptEntries(src, ks[..|ks| - 1]);
      var k := ks[|ks| - 1];
      if Kept(Prop(src, k)) then SetProp(prev, k, Prop(src, k)) else prev
  }

  /** The query map `cleanQueryParams(raw)` returns, with `CONSUL_DC` given as `envDc`. */
  function CleanedQuery(raw: Value, envDc: Option<string>): (cleaned: Value)
    requires raw.Obj?
    ensures cleaned.Obj?
  {
    var updated := SetProp(raw, "dc", DcDefault(raw, envDc));
    KeptEntries(updated, Keys(updated))
  }

  /** Exactly the kept entries among the visited keys survive, without repeats. */
  lemma {:induction false} KeptEntriesDistinct(src: Value, ks: seq<string>)
    ensures Distinct(Keys(KeptEntries(src, ks)))
  {
    if ks != [] {
      var init := ks[..|ks| - 1];
      var last := ks[|ks| - 1];
      KeptEntriesDistinct(src, init);
      if Kept(Prop(src, last)) {
        SetPropKeepsDistinct(KeptEntries(src, init), last, Prop(src, last));
      }
    }
  }

  /** A key survives exactly when it was visited and its value is kept. */
  lemma {:induction false} KeptEntriesMember(src: Value, ks: seq<string>, k: string)
    ensures k in Keys(KeptEntries(src, ks)) <==> k in ks && Kept(Prop(src, k))
  {
    if ks != [] {
      var init := ks[..|ks| - 1];
      KeptEntriesMember(src, init, k);
      assert ks == init + [ks[|ks| - 1]];
    }
  }

  /** A surviving entry keeps its value. */
  lemma {:induction false} KeptEntriesProp(src: Value, ks: seq<string>, k: string)
    requires k in Keys(KeptEntries(src, ks))
    ensures Prop(KeptEntries(src, ks), k) == Prop(src, k)
  {
    if ks != [] {
      var init := ks[..|ks| - 1];
      var last := ks[|ks| - 1];
      if k != last || !Kept(Prop(src, last)) {
        KeptEntriesProp(src, init, k);
      }
    }
  }

  /** One more visited key: `KeptEntries` over `ks[..i + 1]` extends the one over `ks[..i]`. */
  lemma KeptEntriesStep(src: Value, ks: seq<string>, i: nat)
    requires i < |ks|
    ensures KeptEntries(src, ks[..i + 1])
         == (if Kept(Prop(src, ks[i])) then SetProp(KeptEntries(src, ks[..i]), ks[i], Prop(src, ks[i]))
             else KeptEntries(src, ks[..i]))
  {
    assert ks[..i + 1][..i] == ks[..i];
  }

  /**
   * `cleanQueryParams` keeps exactly the entries of the `dc`-defaulted query whose
   * value is neither `undefined`, `null` nor the string `'false'`, each key once and
   * with its value unchanged.
   */
  lemma CleanedQueryEntries(raw: Value, envDc: Option<string>)
    requires raw.Obj?
    ensures var updated := SetProp(raw, "dc", DcDefault(raw, envDc));
      && Distinct(Keys(CleanedQuery(raw, envDc)))
      && (forall k :: k in Keys(CleanedQuery(raw, envDc)) <==> k in Keys(updated) && Kept(Prop(updated, k)))
      && (forall k :: k in Keys(CleanedQuery(raw, envDc)) ==> Prop(CleanedQuery(raw, envDc), k) == Prop(updated, k))
  {
    var updated := SetProp(raw, "dc", DcDefault(raw, envDc));
    KeptEntriesDistinct(updated, Keys(updated));
    forall k ensures k in Keys(CleanedQuery(raw, envDc)) <==> k in Keys(updated) && Kept(Prop(updated, k)) {
      KeptEntriesMember(updated, Keys(updated), k);
    }
    forall k | k in Keys(CleanedQuery(raw, envDc)) ensures Prop(CleanedQuery(raw, envDc), k) == Prop(updated, k) {
      KeptEntriesProp(updated, Keys(updated), k);
    }
  }

  /**
   * Defaults `raw.dc` from the environment (writing it back into `raw`, which
   * `updatedRaw` returns), then copies exactly the entries whose value is kept.
   */
  method CleanQueryParams(raw: Value, envDc: Option<string>) returns (updatedRaw: Value, cleaned: Value)
    requires raw.Obj?
    ensures updatedRaw == SetProp(raw, "dc", DcDefault(raw, envDc))
    ensures cleaned == CleanedQuery(raw, envDc)
  {
    updatedRaw := SetProp(raw, "dc", DcDefault(raw, envDc));
    cleaned := Obj([]);
    var keys := Keys(updatedRaw);
    // `for...in` over a plain object visits its own keys, so `hasOwnProperty` always holds.
    for i := 0 to |keys|
      invariant cleaned == KeptEntries(updatedRaw, keys[..i])
    {
      var key := keys[i];
      var value := Prop(updatedRaw, key);
      KeptEntriesStep(updatedRaw, keys, i);
      if value != Undefined && value != Null && value != Str("false") {
        cleaned := SetProp(cleaned, key, value);
      }
    }
    assert keys[..|keys|] == keys;
  }

  // ---------------------------------------------------------------------------
  // Request paths
  // ---------------------------------------------------------------------------

  /** A value whose properties can be read: reading through `undefined` or `null` throws. */
  predicate Readable(v: Value) {
    v != Undefined && v != Null
  }

  /** `apiVersion/section[/subsection]/key.path` with one slash trimmed from each end. */
  function RequestToPath(req: Value): string
    requires Readable(Prop(req, "key"))
  {
    var api := TemplateString(Prop(req, "apiVersion"));
    var section := TemplateString(Prop(req, "section"));
    var keyPath := TemplateString(Prop(Prop(req, "key"), "path"));
    var sub := Prop(req, "subsection");
    var tmp :=
      if sub != Undefined then api + "/" + section + "/" + TemplateString(sub) + "/" + keyPath
      else api + "/" + section + "/" + keyPath;
    RemoveLeadingTrailingSlash(tmp)
  }

  /**
   * For a request without a subsection whose version and path are non-empty
   * and carry no stray slash at the outer ends, the path is exactly
   * `apiVersion/section/path`.
   */
  lemma RequestPathLayout(req: Value, api: string, section: string, path: string)
    requires Prop(req, "apiVersion") == Str(api) && Prop(req, "section") == Str(section)
    requires Prop(req, "subsection") == Undefined
    requires Readable(Prop(req, "key")) && Prop(Prop(req, "key"), "path") == Str(path)
    requires api != [] && api[0] != '/' && path != [] && path[|path| - 1] != '/'
    ensures RequestToPath(req) == api + "/" + section + "/" + path
  {
    var tmp := api + "/" + section + "/" + path;
    assert tmp[0] == api[0];
    assert tmp[|tmp| - 1] == path[|path| - 1];
    assert !StartsWithSlash(tmp) && !EndsWithSlash(tmp);
  }

  // ---------------------------------------------------------------------------
  // Headers
  // ---------------------------------------------------------------------------

  /**
   * The headers of a request: `host: consul`, then `X-Consul-Index` set to
   * `index + 1` when the request has an index, then `X-Consul-Token` when its
   * token is truthy.
   */
  function HeadersForRequest(req: Value): (headers: Value)
    requires req.Obj?
    ensures headers.Obj?
  {
    var initial := Obj([Field("host", Str(Constants.ConsulHostName))]);
    var index := Prop(req, "index");
    var withIndex := if index != Undefined then SetProp(initial, Constants.ConsulIndexHeader, PlusOne(index)) else initial;
    var token := Prop(req, "token");
    if Truthy(token) then SetProp(withIndex, Constants.ConsulTokenHeader, token) else withIndex
  }

  /** The header names: `host` always, the index header exactly when there is an index, the token header exactly when the token is truthy. */
  lemma HeaderNames(req: Value)
    requires req.Obj?
    ensures Keys(HeadersForRequest(req)) == HeaderNameList(Prop(req, "index") != Undefined, Truthy(Prop(req, "token")))
  {
    Constants.HeaderNamesDiffer();
    var initial := Obj([Field("host", Str(Constants.ConsulHostName))]);
    var index := Prop(req, "index");
    var withIndex := if index != Undefined then SetProp(initial, Constants.ConsulIndexHeader, PlusOne(index)) else initial;
    var indexPart := if index != Undefined then [Constants.ConsulIndexHeader] else [];
    assert Keys(withIndex) == ["host"] + indexPart by {
      assert Keys(initial) == ["host"];
    }
    assert Constants.ConsulTokenHeader !in Keys(withIndex);
  }

  /** The header names in the order they are set. */
  function HeaderNameList(hasIndex: bool, hasToken: bool): seq<string> {
    ["host"]
    + (if hasIndex then [Constants.ConsulIndexHeader] else [])
    + (if hasToken then [Constants.ConsulTokenHeader] else [])
  }

  /** Whichever headers are present, none is listed twice. */
  lemma HeaderNameListDistinct(hasIndex: bool, hasToken: bool)
    ensures Distinct(HeaderNameList(hasIndex, hasToken))
  {
    Constants.HeaderNamesDiffer();
    var ks := HeaderNameList(hasIndex, hasToken);
    if hasIndex && hasToken {
      assert ks == ["host", Constants.ConsulIndexHeader, Constants.ConsulTokenHeader];
    } else if hasIndex {
      assert ks == ["host", Constants.ConsulIndexHeader];
    } else if hasToken {
      assert ks == ["host", Constants.ConsulTokenHeader];
    }
  }

  /** No header name is repeated. */
  lemma HeaderNamesDistinct(req: Value)
    requires req.Obj?
    ensures Distinct(Keys(HeadersForRequest(req)))
  {
    HeaderNames(req);
    HeaderNameListDistinct(Prop(req, "index") != Undefined, Truthy(Prop(req, "token")));
  }

  /** The header values: the host name, the request's index plus one, and the token unchanged. */
  lemma HeaderValues(req: Value)
    requires req.Obj?
    ensures Prop(HeadersForRequest(req), "host") == Str(Constants.ConsulHostName)
    ensures Prop(req, "index") != Undefined ==>
      Prop(HeadersForRequest(req), Constants.ConsulIndexHeader) == PlusOne(Prop(req, "index"))
    ensures Truthy(Prop(req, "token")) ==>
      Prop(HeadersForRequest(req), Constants.ConsulTokenHeader) == Prop(req, "token")
  {
    Constants.HeaderNamesDiffer();
    var initial := Obj([Field("host", Str(Constants.ConsulHostName))]);
    assert Keys(initial) == ["host"];
  }
}
