/** The `TenantKeyProvider` of packages/core-secrets/src/tenant-key-provider.ts: a sliding window of key
    versions per tenant and a textual ciphertext that names its version.  Key derivation and the cipher are
    parameters; initialisation vectors, tags and bodies are their base64 texts. */
module TenantKeys {
  import opened Wrappers
  import opened Decimal

  type Key = string

  /** `seal` yields tag and body; `unseal` fails on a wrong key or a damaged part. */
  datatype Crypto = Crypto(
    derive: (string, nat) -> Key,
    seal: (Key, string, string) -> (string, string),
    unseal: (Key, string, string, string) -> Option<string>)

  datatype KeyVersion = KeyVersion(version: nat, key: Key)

  type Cache = map<string, seq<KeyVersion>>

  datatype Error = MissingPrefix | BadParts | UnknownVersion(version: nat) | CipherFailure | NoKey

  datatype Parsed = Parsed(version: nat, iv: string, tag: string, body: string)

  // ---------------------------------------------------------------- the ciphertext format

  ghost predicate ColonFree(s: string) {
    forall i :: 0 <= i < |s| ==> s[i] != ':'
  }

  function PrintCiphertext(version: nat, iv: string, tag: string, body: string): string {
    "v" + (Print(version) + (":" + (iv + (":" + (tag + (":" + body))))))
  }

  /** JavaScript's `split(":")`. */
  function Split(s: string): (parts: seq<string>)
    ensures |parts| >= 1
  {
    if s == "" then [""] else
    var rest := Split(s[1..]);
    if s[0] == ':' then [""] + rest else [[s[0]] + rest[0]] + rest[1..]
  }

  function DigitCount(s: string): (n: nat)
    ensures n <= |s| && forall i :: 0 <= i < n ==> IsDigit(s[i])
  {
    if s == "" || !IsDigit(s[0]) then 0 else 1 + DigitCount(s[1..])
  }

  /** The prefix `v`, digits and a colon, then exactly three parts. */
  function ParseCiphertext(text: string): Result<Parsed, Error> {
    if text == "" || text[0] != 'v' then Err(MissingPrefix) else
    var rest := text[1..];
    var n := DigitCount(rest);
    if n == 0 || n == |rest| || rest[n] != ':' then Err(MissingPrefix) else
    var parts := Split(rest[n + 1..]);
    if |parts| != 3 then Err(BadParts) else
    Ok(Parsed(Parse(rest[..n]), parts[0], parts[1], parts[2]))
  }

  lemma {:induction false} SplitFirst(a: string, rest: string)
    requires ColonFree(a)
    ensures Split(a + (":" + rest)) == [a] + Split(rest)
  {
    var s := a + (":" + rest);
    if a == "" {
      assert s == ":" + rest && s[1..] == rest;
    } else {
      SplitFirst(a[1..], rest);
      assert s[1..] == a[1..] + (":" + rest);
      assert [s[0]] + a[1..] == a;
    }
  }

  lemma {:induction false} SplitLast(a: string)
    requires ColonFree(a)
    ensures Split(a) == [a]
  {
    if a != "" {
      SplitLast(a[1..]);
      assert [a[0]] + a[1..] == a;
    }
  }

  lemma {:induction false} CountDigits(d: string, rest: string)
    requires AllDigits(d) && (rest == "" || !IsDigit(rest[0]))
    ensures DigitCount(d + rest) == |d|
  {
    if d == "" {
      assert d + rest == rest;
    } else {
      CountDigits(d[1..], rest);
      assert (d + rest)[1..] == d[1..] + rest;
    }
  }

  /** The prefix is read back and the parts are what follows it. */
  lemma {:induction false} PrefixRead(digits: string, parts: string)
    requires digits != "" && AllDigits(digits)
    ensures var text := "v" + (digits + (":" + parts));
      var rest := text[1..];
      && text[0] == 'v' && DigitCount(rest) == |digits| < |rest| && rest[|digits|] == ':'
      && rest[..|digits|] == digits && rest[|digits| + 1..] == parts
  {
    var rest := digits + (":" + parts);
    CountDigits(digits, ":" + parts);
    assert ("v" + rest)[1..] == rest;
  }

  lemma {:induction false} PartsRead(iv: string, tag: string, body: string)
    requires ColonFree(iv) && ColonFree(tag) && ColonFree(body)
    ensures Split(iv + (":" + (tag + (":" + body)))) == [iv, tag, body]
  {
    SplitFirst(iv, tag + (":" + body));
    SplitFirst(tag, body);
    SplitLast(body);
  }

  function Join(parts: seq<string>): string
    requires |parts| >= 1
  {
    if |parts| == 1 then parts[0] else parts[0] + (":" + Join(parts[1..]))
  }

  lemma {:induction false} JoinPrefixed(c: char, parts: seq<string>)
    requires |parts| >= 1
    ensures Join([[c] + parts[0]] + parts[1..]) == [c] + Join(parts)
  {
    var longer := [[c] + parts[0]] + parts[1..];
    assert longer[1..] == parts[1..];
    if |parts| > 1 {
      assert ([c] + parts[0]) + (":" + Join(parts[1..])) == [c] + (parts[0] + (":" + Join(parts[1..])));
    }
  }

  /** Splitting at the colons loses nothing. */
  lemma {:induction false} SplitJoins(s: string)
    ensures Join(Split(s)) == s
  {
    if s != "" {
      var rest := Split(s[1..]);
      SplitJoins(s[1..]);
      assert [s[0]] + s[1..] == s;
      if s[0] == ':' {
        assert ([""] + rest)[1..] == rest;
      } else {
        JoinPrefixed(s[0], rest);
      }
    }
  }

  lemma {:induction false} SplitColonFree(s: string, i: nat)
    requires i < |Split(s)|
    ensures ColonFree(Split(s)[i])
  {
    if s != "" {
      if s[0] == ':' {
        if i > 0 { SplitColonFree(s[1..], i - 1); }
      } else {
        SplitColonFree(s[1..], i);
      }
    }
  }

  /** A version in digits behind a "v", then three parts, separated by colons. */
  ghost predicate Shaped(text: string, digits: string, iv: string, tag: string, body: string) {
    && text == "v" + (digits + (":" + (iv + (":" + (tag + (":" + body))))))
    && digits != "" && AllDigits(digits) && ColonFree(iv) && ColonFree(tag) && ColonFree(body)
  }

  lemma {:induction false} JoinThree(parts: seq<string>)
    requires |parts| == 3
    ensures Join(parts) == parts[0] + (":" + (parts[1] + (":" + parts[2])))
  {
    var rest := parts[1..];
    assert rest[0] == parts[1] && rest[1..] == [parts[2]];
    assert Join(rest) == rest[0] + (":" + Join(rest[1..]));
  }

  /** Every text of that shape is read, whatever leading zeros its version has. */
  lemma {:induction false} ShapedIsRead(text: string, digits: string, iv: string, tag: string, body: string)
    requires Shaped(text, digits, iv, tag, body)
    ensures ParseCiphertext(text) == Ok(Parsed(Parse(digits), iv, tag, body))
  {
    PrefixRead(digits, iv + (":" + (tag + (":" + body))));
    PartsRead(iv, tag, body);
  }

  lemma {:induction false} Recompose(text: string, n: nat)
    requires text != "" && text[0] == 'v' && n < |text| - 1 && text[n + 1] == ':'
    ensures text == "v" + (text[1..][..n] + (":" + text[1..][n + 1..]))
  {
  }

  /** And nothing else is: what was read has that shape. */
  lemma {:induction false} ReadIsShaped(text: string) returns (digits: string)
    requires ParseCiphertext(text).Ok?
    ensures var p := ParseCiphertext(text).value;
      Shaped(text, digits, p.iv, p.tag, p.body) && p.version == Parse(digits)
  {
    var n := DigitCount(text[1..]);
    digits := text[1..][..n];
    var tail := text[1..][n + 1..];
    Recompose(text, n);
    SplitJoins(tail);
    JoinThree(Split(tail));
    SplitColonFree(tail, 0);
    SplitColonFree(tail, 1);
    SplitColonFree(tail, 2);
  }

  /** Printing then parsing recovers the version and the three parts. */
  lemma {:induction false} ParsePrinted(version: nat, iv: string, tag: string, body: string)
    requires ColonFree(iv) && ColonFree(tag) && ColonFree(body)
    ensures ParseCiphertext(PrintCiphertext(version, iv, tag, body)) == Ok(Parsed(version, iv, tag, body))
  {
    var parts := iv + (":" + (tag + (":" + body)));
    ParsePrint(version);
    PrefixRead(Print(version), parts);
    PartsRead(iv, tag, body);
  }

  // ---------------------------------------------------------------- versions

  datatype Op = Use(tenant: string) | Rotate(tenant: string) | ClearTenant(tenant: string) | ClearAll

  function FirstVersion(c: Crypto, tenant: string): KeyVersion {
    KeyVersion(1, c.derive(tenant, 1))
  }

  /** `getVersions`: a tenant not in the cache starts with version 1. */
  function Versions(c: Crypto, cache: Cache, tenant: string): seq<KeyVersion> {
    if tenant in cache then cache[tenant] else [FirstVersion(c, tenant)]
  }

  function Prune(versions: seq<KeyVersion>, active: nat): seq<KeyVersion> {
    if |versions| > active then versions[|versions| - active..] else versions
  }

  function NextVersion(versions: seq<KeyVersion>): nat {
    if versions == [] then 1 else versions[|versions| - 1].version + 1
  }

  function Rotated(c: Crypto, active: nat, cache: Cache, tenant: string): seq<KeyVersion> {
    var versions := Versions(c, cache, tenant);
    var next := NextVersion(versions);
    Prune(versions + [KeyVersion(next, c.derive(tenant, next))], active)
  }

  function Apply(c: Crypto, active: nat, cache: Cache, op: Op): Cache {
    match op
    case Use(t) => cache[t := Versions(c, cache, t)]
    case Rotate(t) => cache[t := Rotated(c, active, cache, t)]
    case ClearTenant(t) => cache - {t}
    case ClearAll => map[]
  }

  function Run(c: Crypto, active: nat, ops: seq<Op>): Cache {
    if ops == [] then map[] else Apply(c, active, Run(c, active, ops[..|ops| - 1]), ops[|ops| - 1])
  }

  /** How often the tenant was rotated since its keys were last cleared. */
  function Rotations(ops: seq<Op>, tenant: string): nat {
    if ops == [] then 0 else
    var front, op := Rotations(ops[..|ops| - 1], tenant), ops[|ops| - 1];
    match op
    case Use(_) => front
    case Rotate(t) => if t == tenant then front + 1 else front
    case ClearTenant(t) => if t == tenant then 0 else front
    case ClearAll => 0
  }

  /** The oldest active version after `r` rotations. */
  function Oldest(r: nat, active: nat): nat {
    if r + 2 > active + 1 then r + 2 - active else 1
  }

  /** The keys of the versions from `lo` up to but excluding `hi`. */
  function Chain(c: Crypto, tenant: string, lo: nat, hi: nat): (chain: seq<KeyVersion>)
    requires lo <= hi
    ensures |chain| == hi - lo
    ensures forall i :: 0 <= i < hi - lo ==> chain[i] == KeyVersion(lo + i, c.derive(tenant, lo + i))
  {
    seq(hi - lo, i requires 0 <= i < hi - lo => KeyVersion(lo + i, c.derive(tenant, lo + i)))
  }

  lemma {:induction false} ChainGrows(c: Crypto, tenant: string, lo: nat, hi: nat)
    requires lo <= hi
    ensures Chain(c, tenant, lo, hi) + [KeyVersion(hi, c.derive(tenant, hi))] == Chain(c, tenant, lo, hi + 1)
  {
  }

  lemma {:induction false} ChainSheds(c: Crypto, tenant: string, lo: nat, hi: nat)
    requires lo < hi
    ensures Chain(c, tenant, lo, hi)[1..] == Chain(c, tenant, lo + 1, hi)
  {
  }

  lemma {:induction false} RotatedChain(c: Crypto, active: nat, cache: Cache, tenant: string, r: nat)
    requires active >= 1 && Versions(c, cache, tenant) == Chain(c, tenant, Oldest(r, active), r + 2)
    ensures Rotated(c, active, cache, tenant) == Chain(c, tenant, Oldest(r + 1, active), r + 3)
  {
    var lo := Oldest(r, active);
    var grown := Chain(c, tenant, lo, r + 2) + [KeyVersion(r + 2, c.derive(tenant, r + 2))];
    assert NextVersion(Versions(c, cache, tenant)) == r + 2;
    assert Rotated(c, active, cache, tenant) == Prune(grown, active);
    ChainGrows(c, tenant, lo, r + 2);
    if |grown| > active {
      assert Oldest(r + 1, active) == lo + 1 && |grown| - active == 1;
      ChainSheds(c, tenant, lo, r + 3);
    }
  }

  /** After any run the active versions are consecutive, end at the current one and number at most `active`,
      whatever happens to other tenants. */
  lemma {:induction false} VersionsAreWindow(c: Crypto, active: nat, ops: seq<Op>, tenant: string)
    requires active >= 1
    ensures var r := Rotations(ops, tenant);
      Versions(c, Run(c, active, ops), tenant) == Chain(c, tenant, Oldest(r, active), r + 2)
  {
    if ops != [] {
      var front, op := ops[..|ops| - 1], ops[|ops| - 1];
      VersionsAreWindow(c, active, front, tenant);
      if op == Rotate(tenant) {
        RotatedChain(c, active, Run(c, active, front), tenant, Rotations(front, tenant));
      } else {
        OtherSteps(c, active, Run(c, active, front), op, tenant);
      }
    }
  }

  lemma {:induction false} OtherSteps(c: Crypto, active: nat, cache: Cache, op: Op, tenant: string)
    requires op != Rotate(tenant)
    ensures Versions(c, Apply(c, active, cache, op), tenant) ==
            if op == ClearTenant(tenant) || op == ClearAll then Chain(c, tenant, 1, 2) else Versions(c, cache, tenant)
  {
    assert [FirstVersion(c, tenant)] == Chain(c, tenant, 1, 2);
  }

  // ---------------------------------------------------------------- encryption and decryption

  /** Decryption undoes encryption, and base64 text has no colon. */
  ghost predicate Sound(c: Crypto) {
    forall k, iv, p ::
      && c.unseal(k, iv, c.seal(k, iv, p).0, c.seal(k, iv, p).1) == Some(p)
      && ColonFree(c.seal(k, iv, p).0) && ColonFree(c.seal(k, iv, p).1)
  }

  function Find(versions: seq<KeyVersion>, version: nat): Option<Key> {
    if versions == [] then None
    else if versions[0].version == version then Some(versions[0].key)
    else Find(versions[1..], version)
  }

  function Encrypt(c: Crypto, versions: seq<KeyVersion>, iv: string, plaintext: string): Result<string, Error> {
    if versions == [] then Err(NoKey) else
    var current := versions[|versions| - 1];
    var (tag, body) := c.seal(current.key, iv, plaintext);
    Ok(PrintCiphertext(current.version, iv, tag, body))
  }

  function Decrypt(c: Crypto, versions: seq<KeyVersion>, text: string): Result<string, Error> {
    match ParseCiphertext(text)
    case Err(e) => Err(e)
    case Ok(parsed) =>
      match Find(versions, parsed.version)
      case None => Err(UnknownVersion(parsed.version))
      case Some(key) =>
        match c.unseal(key, parsed.iv, parsed.tag, parsed.body)
        case None => Err(CipherFailure)
        case Some(plaintext) => Ok(plaintext)
  }

  lemma {:induction false} FindInChain(c: Crypto, tenant: string, lo: nat, hi: nat, version: nat)
    requires lo <= hi
    ensures Find(Chain(c, tenant, lo, hi), version) ==
            if lo <= version < hi then Some(c.derive(tenant, version)) else None
    decreases hi - lo
  {
    if lo < hi {
      assert Chain(c, tenant, lo, hi)[1..] == Chain(c, tenant, lo + 1, hi);
      FindInChain(c, tenant, lo + 1, hi, version);
    }
  }

  lemma {:induction false} SealedText(c: Crypto, tenant: string, lo: nat, v: nat, iv: string, p: string)
    requires lo <= v
    ensures var (tag, body) := c.seal(c.derive(tenant, v), iv, p);
      Encrypt(c, Chain(c, tenant, lo, v + 1), iv, p) == Ok(PrintCiphertext(v, iv, tag, body))
  {
  }

  /** A text sealed under version `v` opens under a chain of keys exactly when the chain has that version. */
  lemma {:induction false} OpensIffInChain(c: Crypto, tenant: string, v: nat, lo: nat, hi: nat, iv: string, p: string)
    requires Sound(c) && ColonFree(iv) && lo <= hi
    ensures var (tag, body) := c.seal(c.derive(tenant, v), iv, p);
      Decrypt(c, Chain(c, tenant, lo, hi), PrintCiphertext(v, iv, tag, body)) ==
      if lo <= v < hi then Ok(p) else Err(UnknownVersion(v))
  {
    var key := c.derive(tenant, v);
    var (tag, body) := c.seal(key, iv, p);
    assert c.unseal(key, iv, c.seal(key, iv, p).0, c.seal(key, iv, p).1) == Some(p);
    ParsePrinted(v, iv, tag, body);
    FindInChain(c, tenant, lo, hi, v);
  }

  lemma {:induction false} RoundTrip(c: Crypto, tenant: string, before: seq<KeyVersion>, lo: nat, v: nat,
                  after: seq<KeyVersion>, lo': nat, hi': nat, iv: string, p: string)
    requires Sound(c) && ColonFree(iv) && lo <= v && lo' <= hi'
    requires before == Chain(c, tenant, lo, v + 1) && after == Chain(c, tenant, lo', hi')
    ensures var text := Encrypt(c, before, iv, p);
      text.Ok? && Decrypt(c, after, text.value) == if lo' <= v < hi' then Ok(p) else Err(UnknownVersion(v))
  {
    SealedText(c, tenant, lo, v, iv, p);
    OpensIffInChain(c, tenant, v, lo', hi', iv, p);
  }

  /** What is decrypted after any run, for any text: it must have the printed shape, name a version of the window and
      open under that version's own key. */
  lemma {:induction false} DecryptIs(c: Crypto, active: nat, ops: seq<Op>, tenant: string, text: string)
    requires active >= 1
    ensures var r, parsed := Rotations(ops, tenant), ParseCiphertext(text);
      Decrypt(c, Versions(c, Run(c, active, ops), tenant), text) ==
      if parsed.Err? then Err(parsed.error) else
      var Parsed(v, iv, tag, body) := parsed.value;
      if !(Oldest(r, active) <= v <= r + 1) then Err(UnknownVersion(v)) else
      var plain := c.unseal(c.derive(tenant, v), iv, tag, body);
      if plain.Some? then Ok(plain.value) else Err(CipherFailure)
  {
    var r := Rotations(ops, tenant);
    VersionsAreWindow(c, active, ops, tenant);
    if ParseCiphertext(text).Ok? {
      FindInChain(c, tenant, Oldest(r, active), r + 2, ParseCiphertext(text).value.version);
    }
  }

  /** What was encrypted after `ops` decrypts after `ops + later` exactly when the version it names is still
      (or again) in the window; otherwise it is refused by version number. */
  lemma {:induction false} DecryptIffActive(c: Crypto, active: nat, ops: seq<Op>, later: seq<Op>, tenant: string,
                                            iv: string, p: string)
    requires Sound(c) && ColonFree(iv) && active >= 1
    ensures var text := Encrypt(c, Versions(c, Run(c, active, ops), tenant), iv, p);
      var v, r := Rotations(ops, tenant) + 1, Rotations(ops + later, tenant);
      && text.Ok?
      && Decrypt(c, Versions(c, Run(c, active, ops + later), tenant), text.value) ==
         if Oldest(r, active) <= v <= r + 1 then Ok(p) else Err(UnknownVersion(v))
  {
    VersionsAreWindow(c, active, ops, tenant);
    VersionsAreWindow(c, active, ops + later, tenant);
    var v, r := Rotations(ops, tenant) + 1, Rotations(ops + later, tenant);
    var before, after := Versions(c, Run(c, active, ops), tenant), Versions(c, Run(c, active, ops + later), tenant);
    assert before == Chain(c, tenant, Oldest(v - 1, active), v + 1);
    RoundTrip(c, tenant, before, Oldest(v - 1, active), v, after, Oldest(r, active), r + 2, iv, p);
  }

  ghost predicate NotCleared(ops: seq<Op>, tenant: string) {
    forall i :: 0 <= i < |ops| ==> ops[i] != ClearTenant(tenant) && ops[i] != ClearAll
  }

  lemma {:induction false} RotationsAdd(ops: seq<Op>, later: seq<Op>, tenant: string)
    requires NotCleared(later, tenant)
    ensures Rotations(ops + later, tenant) == Rotations(ops, tenant) + Rotations(later, tenant)
  {
    if later == [] {
      assert ops + later == ops;
    } else {
      RotationsAdd(ops, later[..|later| - 1], tenant);
      assert (ops + later)[..|ops + later| - 1] == ops + later[..|later| - 1];
    }
  }

  /** Without a cache clear in between: readable after fewer than `active` rotations, refused after that many. */
  lemma {:induction false} DecryptIffFewRotations(c: Crypto, active: nat, ops: seq<Op>, later: seq<Op>,
                                                  tenant: string, iv: string, p: string)
    requires Sound(c) && ColonFree(iv) && active >= 1 && NotCleared(later, tenant)
    ensures var text := Encrypt(c, Versions(c, Run(c, active, ops), tenant), iv, p);
      text.Ok? &&
      Decrypt(c, Versions(c, Run(c, active, ops + later), tenant), text.value) ==
      if Rotations(later, tenant) < active then Ok(p) else Err(UnknownVersion(Rotations(ops, tenant) + 1))
  {
    RotationsAdd(ops, later, tenant);
    DecryptIffActive(c, active, ops, later, tenant, iv, p);
  }

  // ---------------------------------------------------------------- the class

  class TenantKeyProvider {
    const crypto: Crypto
    const activeKeyVersions: nat
    var keyCache: Cache

    constructor (crypto: Crypto, activeKeyVersions: nat)
      ensures this.crypto == crypto && this.activeKeyVersions == activeKeyVersions
      ensures keyCache == Run(crypto, activeKeyVersions, [])
    {
      this.crypto, this.activeKeyVersions, keyCache := crypto, activeKeyVersions, map[];
    }

    method GetVersions(tenantId: string) returns (versions: seq<KeyVersion>)
      modifies this
      ensures versions == Versions(crypto, old(keyCache), tenantId)
      ensures keyCache == Apply(crypto, activeKeyVersions, old(keyCache), Use(tenantId))
    {
      if tenantId in keyCache {
        versions := keyCache[tenantId];
        assert keyCache == keyCache[tenantId := versions];
      } else {
        versions := [KeyVersion(1, crypto.derive(tenantId, 1))];
        keyCache := keyCache[tenantId := versions];
      }
    }

    method RotateKey(tenantId: string) returns (newVersion: KeyVersion)
      modifies this
      ensures keyCache == Apply(crypto, activeKeyVersions, old(keyCache), Rotate(tenantId))
      ensures newVersion.version == NextVersion(Versions(crypto, old(keyCache), tenantId))
      ensures newVersion.key == crypto.derive(tenantId, newVersion.version)
    {
      var versions := GetVersions(tenantId);
      var nextVersion := if |versions| > 0 then versions[|versions| - 1].version + 1 else 1;
      newVersion := KeyVersion(nextVersion, crypto.derive(tenantId, nextVersion));
      keyCache := keyCache[tenantId := versions + [newVersion]];
      PruneOldVersions(tenantId);
    }

    method PruneOldVersions(tenantId: string)
      modifies this
      ensures keyCache == if tenantId in old(keyCache)
                          then old(keyCache)[tenantId := Prune(old(keyCache)[tenantId], activeKeyVersions)]
                          else old(keyCache)
    {
      if tenantId !in keyCache { return; }
      var versions := keyCache[tenantId];
      while |versions| > activeKeyVersions
        invariant Prune(versions, activeKeyVersions) == Prune(old(keyCache)[tenantId], activeKeyVersions)
      {
        versions := versions[1..];
      }
      keyCache := keyCache[tenantId := versions];
    }

    method EncryptForTenant(tenantId: string, plaintext: string, iv: string) returns (r: Result<string, Error>)
      modifies this
      ensures r == Encrypt(crypto, Versions(crypto, old(keyCache), tenantId), iv, plaintext)
      ensures keyCache == Apply(crypto, activeKeyVersions, old(keyCache), Use(tenantId))
    {
      var versions := GetVersions(tenantId);
      if versions == [] { return Err(NoKey); }
      var version := versions[|versions| - 1];
      var (tag, encrypted) := crypto.seal(version.key, iv, plaintext);
      return Ok(PrintCiphertext(version.version, iv, tag, encrypted));
    }

    method DecryptForTenant(tenantId: string, ciphertext: string) returns (r: Result<string, Error>)
      modifies this
      ensures r == Decrypt(crypto, Versions(crypto, old(keyCache), tenantId), ciphertext)
      ensures keyCache == if ParseCiphertext(ciphertext).Ok?
                          then Apply(crypto, activeKeyVersions, old(keyCache), Use(tenantId)) else old(keyCache)
    {
      var parsed := ParseCiphertext(ciphertext);
      if parsed.Err? { return Err(parsed.error); }
      var versions := GetVersions(tenantId);
      var key := Find(versions, parsed.value.version);
      if key.None? { return Err(UnknownVersion(parsed.value.version)); }
      var plain := crypto.unseal(key.value, parsed.value.iv, parsed.value.tag, parsed.value.body);
      return if plain.None? then Err(CipherFailure) else Ok(plain.value);
    }

    method ClearTenantCache(tenantId: string)
      modifies this
      ensures keyCache == Apply(crypto, activeKeyVersions, old(keyCache), ClearTenant(tenantId))
    {
      keyCache := keyCache - {tenantId};
    }

    method ClearCache()
      modifies this
      ensures keyCache == Apply(crypto, activeKeyVersions, old(keyCache), ClearAll)
    {
      keyCache := map[];
    }
  }
}
