/**
 Building a Codex profile's key pool from stored OAuth credentials: which credentials are valid, what
 account each belongs to, the rebuild that lists one entry an account, and the merge that extends a
 pool by the profile's credentials. What an access token claims as its account is a parameter.
 */
module CodexPool {
  import opened Common
  import opened AccountPool

  datatype TokenRecord = TokenRecord(
    id: string, isCodex: bool, disabled: bool, accessToken: string, refreshToken: Option<string>,
    email: Option<string>, account: string, keyId: Option<string>, profile: Option<string>)

  /** What the access token's claims give as the account, if they decode. */
  type Claims = string -> Option<string>

  // ---------------------------------------------------------------------------
  // Strings
  // ---------------------------------------------------------------------------

  predicate IsSpace(c: char) {
    var n := c as int;
    9 <= n <= 13 || n == 32 || n == 0x85 || n == 0xA0 || n == 0x1680 || 0x2000 <= n <= 0x200A
    || n == 0x2028 || n == 0x2029 || n == 0x202F || n == 0x205F || n == 0x3000
  }

  function TrimStart(s: string): string {
    if s != [] && IsSpace(s[0]) then TrimStart(s[1..]) else s
  }

  function TrimEnd(s: string): string {
    if s != [] && IsSpace(s[|s| - 1]) then TrimEnd(s[..|s| - 1]) else s
  }

  function Trim(s: string): string {
    TrimEnd(TrimStart(s))
  }

  predicate Trimmed(s: string) {
    s != [] ==> !IsSpace(s[0]) && !IsSpace(s[|s| - 1])
  }

  function LowerChar(c: char): char {
    if 'A' <= c <= 'Z' then (c as int + 32) as char else c
  }

  function Lower(s: string): string {
    seq(|s|, i requires 0 <= i < |s| => LowerChar(s[i]))
  }

  lemma {:induction false} TrimStartDone(s: string)
    ensures TrimStart(s) != [] ==> !IsSpace(TrimStart(s)[0])
  {
    if s != [] && IsSpace(s[0]) { TrimStartDone(s[1..]); }
  }

  lemma {:induction false} TrimEndDone(s: string)
    ensures TrimEnd(s) <= s
    ensures TrimEnd(s) != [] ==> !IsSpace(TrimEnd(s)[|TrimEnd(s)| - 1])
  {
    if s != [] && IsSpace(s[|s| - 1]) { TrimEndDone(s[..|s| - 1]); }
  }

  lemma TrimIsTrimmed(s: string)
    ensures Trimmed(Trim(s))
  {
    TrimStartDone(s);
    TrimEndDone(TrimStart(s));
  }

  lemma TrimOfTrimmed(s: string)
    requires Trimmed(s)
    ensures Trim(s) == s
  {
  }

  // ---------------------------------------------------------------------------
  // Credentials
  // ---------------------------------------------------------------------------

  predicate Blank(s: string) {
    Trim(s) == []
  }

  predicate HasRefresh(r: TokenRecord) {
    r.refreshToken.Some? && !Blank(r.refreshToken.value)
  }

  predicate IsValid(r: TokenRecord) {
    && !("codex-auto-" <= r.id)
    && r.isCodex && !r.disabled
    && "eyJ" <= Trim(r.accessToken)
    && (HasRefresh(r) || (r.email.Some? && '@' in r.email.value && !("auto-" <= Trim(r.email.value))))
  }

  function AccountId(secret: string, stored: string, claims: Claims): string {
    var s := Trim(stored);
    if s != "" && s != "default" then s
    else if claims(secret).Some? && !Blank(claims(secret).value) then claims(secret).value
    else s
  }

  /** An account key to tell entries apart by; none for a missing or default account. */
  function UsableKey(account: string): Option<string> {
    var k := Lower(account);
    if k == "" || k == "default" then None else Some(k)
  }

  function ProfileOf(r: TokenRecord): string {
    if r.profile.Some? then r.profile.value else "codex"
  }

  /** The account a rebuild files a record under; none for records it skips. */
  function RecordAccount(profile: string, claims: Claims): TokenRecord -> Option<string> {
    (r: TokenRecord) =>
      if ProfileOf(r) == profile && IsValid(r) then UsableKey(AccountId(r.accessToken, r.account, claims)) else None
  }

  /** The account a merge tells pool entries apart by. */
  function EntryAccount(claims: Claims): PoolSecret -> Option<string> {
    (s: PoolSecret) => UsableKey(AccountId(s.secret, s.accountId, claims))
  }

  function Refreshable(): TokenRecord -> bool {
    (r: TokenRecord) => HasRefresh(r)
  }

  // ---------------------------------------------------------------------------
  // Rebuild
  // ---------------------------------------------------------------------------

  function RebuiltEntry(r: TokenRecord, claims: Claims): PoolSecret {
    PoolSecret(r.id, r.accessToken, !r.disabled, AccountId(r.accessToken, r.account, claims), 0)
  }

  /** `pool` lists the entries of `picks` in some order. */
  ghost predicate Listed(pool: seq<PoolSecret>, keys: seq<string>, picks: map<string, TokenRecord>, claims: Claims) {
    && Enumerates(keys, picks.Keys) && |pool| == |keys|
    && forall i :: 0 <= i < |keys| ==> keys[i] in picks && pool[i] == RebuiltEntry(picks[keys[i]], claims)
  }

  /** `r` is of account `k`, and has a refresh token if any record of that account has. */
  ghost predicate PickedFor(r: TokenRecord, k: string, records: seq<TokenRecord>, profile: string, claims: Claims) {
    var account := RecordAccount(profile, claims);
    && r in records && account(r) == Some(k)
    && (HasRefresh(r) || forall o :: o in records && account(o) == Some(k) ==> !HasRefresh(o))
  }

  /** The entry of the record picked for its account. */
  ghost predicate Explained(e: PoolSecret, records: seq<TokenRecord>, profile: string, claims: Claims) {
    exists r :: PickedFor(r, Lower(e.accountId), records, profile, claims) && e == RebuiltEntry(r, claims)
  }

  ghost predicate ListsAccount(pool: seq<PoolSecret>, k: string) {
    exists i :: 0 <= i < |pool| && Lower(pool[i].accountId) == k
  }

  ghost predicate DistinctAccounts(pool: seq<PoolSecret>) {
    forall i, j :: 0 <= i < j < |pool| ==> Lower(pool[i].accountId) != Lower(pool[j].accountId)
  }

  /** One entry for each usable account of the valid credentials, with a refresh token where there is one. */
  ghost predicate OnePerAccount(pool: seq<PoolSecret>, records: seq<TokenRecord>, profile: string, claims: Claims) {
    var account := RecordAccount(profile, claims);
    && DistinctAccounts(pool)
    && (forall r :: r in records && account(r).Some? ==> ListsAccount(pool, account(r).value))
    && (forall i :: 0 <= i < |pool| ==> Explained(pool[i], records, profile, claims))
  }

  /** A credential a pool may use: an enabled Codex login of the profile, not made up, that can be refreshed or has a real mailbox. */
  ghost predicate Good(r: TokenRecord, profile: string) {
    && r.isCodex && !r.disabled && !("codex-auto-" <= r.id) && "eyJ" <= Trim(r.accessToken)
    && (r.profile == Some(profile) || (r.profile == None && profile == "codex"))
    && (HasRefresh(r) || (r.email.Some? && '@' in r.email.value && !("auto-" <= Trim(r.email.value))))
  }

  /** Every entry of a rebuilt pool is enabled and holds the token of a good credential. */
  lemma RebuiltFromGood(pool: seq<PoolSecret>, records: seq<TokenRecord>, profile: string, claims: Claims, i: nat)
    requires OnePerAccount(pool, records, profile, claims) && i < |pool|
    ensures pool[i].enabled
    ensures exists r :: r in records && Good(r, profile) && pool[i].secret == r.accessToken && pool[i].id == r.id
  {
    assert Explained(pool[i], records, profile, claims);
    var r :| PickedFor(r, Lower(pool[i].accountId), records, profile, claims) && pool[i] == RebuiltEntry(r, claims);
    assert r in records && Good(r, profile);
  }

  /** None when no credential has a usable account; the old pool is then left alone. */
  method Rebuild(records: seq<TokenRecord>, profile: string, claims: Claims)
    returns (pool: Option<seq<PoolSecret>>)
    ensures pool.None? <==> forall r :: r in records ==> RecordAccount(profile, claims)(r).None?
    ensures pool.Some? ==> OnePerAccount(pool.value, records, profile, claims)
  {
    var picks := PickPerAccount(records, RecordAccount(profile, claims), Refreshable());
    PicksCover(picks, records, profile, claims);
    if picks == map[] {
      return None;
    }
    var entries, keys := ListEntries(picks, claims);
    ListedIsOnePerAccount(entries, keys, picks, records, profile, claims);
    pool := Some(entries);
    var k :| k in picks;
    assert PickedFor(picks[k], k, records, profile, claims);
  }

  method ListEntries(picks: map<string, TokenRecord>, claims: Claims)
    returns (entries: seq<PoolSecret>, ghost keys: seq<string>)
    ensures Listed(entries, keys, picks, claims)
  {
    entries, keys := [], [];
    var pending := picks.Keys;
    while pending != {}
      invariant pending <= picks.Keys && |entries| == |keys|
      invariant forall i, j :: 0 <= i < j < |keys| ==> keys[i] != keys[j]
      invariant forall k :: k in keys <==> k in picks && k !in pending
      invariant forall i :: 0 <= i < |keys| ==> keys[i] in picks && entries[i] == RebuiltEntry(picks[keys[i]], claims)
    {
      var k :| k in pending;
      pending := pending - {k};
      entries, keys := entries + [RebuiltEntry(picks[k], claims)], keys + [k];
    }
  }

  lemma PicksCover(picks: map<string, TokenRecord>, records: seq<TokenRecord>, profile: string, claims: Claims)
    requires PicksOf(picks, records, RecordAccount(profile, claims), Refreshable())
    ensures forall r :: r in records && RecordAccount(profile, claims)(r).Some? ==>
              RecordAccount(profile, claims)(r).value in picks
    ensures forall k :: k in picks ==> PickedFor(picks[k], k, records, profile, claims)
  {
    var account := RecordAccount(profile, claims);
    forall r | r in records && account(r).Some? ensures account(r).value in picks {
      PickMeaning(records, account(r).value, account, Refreshable());
    }
    forall k | k in picks ensures PickedFor(picks[k], k, records, profile, claims) {
      PickMeaning(records, k, account, Refreshable());
      var i :| 0 <= i < |records| && records[i] == picks[k] && FirstPreferred(records, i, k, account, Refreshable());
      assert records[i] in records;
    }
  }

  lemma ListedIsOnePerAccount(pool: seq<PoolSecret>, keys: seq<string>, picks: map<string, TokenRecord>,
                              records: seq<TokenRecord>, profile: string, claims: Claims)
    requires PicksOf(picks, records, RecordAccount(profile, claims), Refreshable())
    requires Listed(pool, keys, picks, claims)
    ensures OnePerAccount(pool, records, profile, claims)
  {
    var account := RecordAccount(profile, claims);
    PicksCover(picks, records, profile, claims);
    forall i | 0 <= i < |pool|
      ensures Lower(pool[i].accountId) == keys[i] && Explained(pool[i], records, profile, claims)
    {
    }
    forall r | r in records && account(r).Some? ensures ListsAccount(pool, account(r).value) {
      var k := account(r).value;
      assert k in picks.Keys && k in keys;
      var i :| 0 <= i < |keys| && keys[i] == k;
      assert Lower(pool[i].accountId) == k;
    }
  }

  // ---------------------------------------------------------------------------
  // Merge
  // ---------------------------------------------------------------------------

  function SpecOf(r: TokenRecord, claims: Claims): PoolSecret {
    PoolSecret(if r.keyId.Some? then r.keyId.value else r.id, r.accessToken, !r.disabled,
               AccountId(r.accessToken, r.account, claims), 0)
  }

  /** The pool entries of the profile's valid credentials, in order. */
  function Specs(records: seq<TokenRecord>, profile: string, claims: Claims): seq<PoolSecret> {
    if records == [] then []
    else
      var front, r := Specs(records[..|records| - 1], profile, claims), records[|records| - 1];
      if ProfileOf(r) == profile && IsValid(r) then front + [SpecOf(r, claims)] else front
  }

  /** The credentials a merge offers are the tokens of the good ones, all of them, enabled. */
  lemma {:induction false} SpecsAreGood(records: seq<TokenRecord>, profile: string, claims: Claims)
    ensures forall s :: s in Specs(records, profile, claims) ==>
              s.enabled && exists r :: r in records && Good(r, profile) && s == SpecOf(r, claims)
    ensures forall r :: r in records && Good(r, profile) ==>
              exists s :: s in Specs(records, profile, claims) && s.secret == r.accessToken
  {
    if records != [] {
      var front, r := records[..|records| - 1], records[|records| - 1];
      SpecsAreGood(front, profile, claims);
      assert records == front + [r];
      assert Good(r, profile) <==> ProfileOf(r) == profile && IsValid(r);
      assert Good(r, profile) ==> SpecOf(r, claims) in Specs(records, profile, claims);
      forall s | s in Specs(front, profile, claims) ensures s in Specs(records, profile, claims) {
      }
    }
  }

  method CollectSpecs(records: seq<TokenRecord>, profile: string, claims: Claims) returns (specs: seq<PoolSecret>)
    ensures specs == Specs(records, profile, claims)
  {
    specs := [];
    for n := 0 to |records|
      invariant specs == Specs(records[..n], profile, claims)
    {
      var r := records[n];
      assert records[..n + 1][..n] == records[..n];
      if !r.isCodex || r.accessToken == "" || ProfileOf(r) != profile {
        assert !IsValid(r) || ProfileOf(r) != profile by { assert Trim("") == ""; }
        continue;
      }
      if !IsValid(r) { continue; }
      specs := specs + [SpecOf(r, claims)];
    }
    assert records[..|records|] == records;
  }

  /** The pool after a merge: an extension, repeating nothing, holding every valid credential. */
  method MergeCredentials(pool: seq<PoolSecret>, records: seq<TokenRecord>, profile: string, claims: Claims)
    returns (r: seq<PoolSecret>, changed: bool)
    ensures r == Extended(pool, Specs(records, profile, claims), EntryAccount(claims))
    ensures changed <==> r != pool
  {
    var specs := CollectSpecs(records, profile, claims);
    r, changed := Extend(pool, specs, EntryAccount(claims));
  }

  lemma {:induction false} SpecsOfRecords(records: seq<TokenRecord>, profile: string, claims: Claims)
    ensures forall r :: r in records && ProfileOf(r) == profile && IsValid(r) ==>
              SpecOf(r, claims) in Specs(records, profile, claims)
    ensures forall s :: s in Specs(records, profile, claims) ==>
              exists r :: r in records && ProfileOf(r) == profile && IsValid(r) && s == SpecOf(r, claims)
  {
    if records != [] {
      var n := |records| - 1;
      SpecsOfRecords(records[..n], profile, claims);
      assert records == records[..n] + [records[n]];
    }
  }

  /** Merging credentials only extends the pool, without repeats, covers them all, and settles at once. */
  lemma MergeExtends(pool: seq<PoolSecret>, records: seq<TokenRecord>, profile: string, claims: Claims)
    ensures var account, specs := EntryAccount(claims), Specs(records, profile, claims);
            var r := Extended(pool, specs, account);
            && pool <= r
            && (forall j :: |pool| <= j < |r| ==> r[j] in specs)
            && (forall i, j :: 0 <= i < j < |r| && |pool| <= j ==> !Same(r[i], r[j], account))
            && (forall c :: c in records && ProfileOf(c) == profile && IsValid(c) ==> Holds(r, SpecOf(c, claims), account))
            && Extended(r, specs, account) == r
  {
    var account, specs := EntryAccount(claims), Specs(records, profile, claims);
    ExtendsPool(pool, specs, account);
    AddsNoRepeat(pool, specs, account);
    CoversSpecs(pool, specs, account);
    ExtendingSettles(pool, specs, account);
    SpecsOfRecords(records, profile, claims);
  }

  // ---------------------------------------------------------------------------
  // Rebuild, then merge
  // ---------------------------------------------------------------------------

  /** Deriving the account of an entry again gives it back, unless it is a claim the second look trims. */
  lemma AccountIdStable(secret: string, stored: string, claims: Claims)
    ensures AccountId(secret, AccountId(secret, stored, claims), claims) == AccountId(secret, stored, claims) <==>
            var a := AccountId(secret, stored, claims);
            Trimmed(a) || Trim(a) == "default"
  {
    TrimIsTrimmed(stored);
    TrimOfTrimmed(Trim(stored));
    var a := AccountId(secret, stored, claims);
    TrimIsTrimmed(a);
    if Trimmed(a) { TrimOfTrimmed(a); }
  }

  lemma {:induction false} TrimStartLower(s: string)
    ensures TrimStart(Lower(s)) == Lower(TrimStart(s))
  {
    if s != [] {
      assert Lower(s)[1..] == Lower(s[1..]);
      if IsSpace(s[0]) { TrimStartLower(s[1..]); }
    }
  }

  lemma {:induction false} TrimEndLower(s: string)
    ensures TrimEnd(Lower(s)) == Lower(TrimEnd(s))
  {
    if s != [] {
      var n := |s| - 1;
      assert Lower(s)[..n] == Lower(s[..n]);
      if IsSpace(s[n]) { TrimEndLower(s[..n]); }
    }
  }

  lemma TrimLower(s: string)
    ensures Trim(Lower(s)) == Lower(Trim(s))
  {
    TrimStartLower(s);
    TrimEndLower(TrimStart(s));
  }

  /** Looked at again, an account is its own key without outer white space, unless that leaves the word default. */
  lemma SecondLook(secret: string, stored: string, claims: Claims, k: string)
    requires UsableKey(AccountId(secret, stored, claims)) == Some(k) && Trim(k) != "default"
    ensures UsableKey(AccountId(secret, AccountId(secret, stored, claims), claims)) == Some(Trim(k))
  {
    var a := AccountId(secret, stored, claims);
    TrimIsTrimmed(stored);
    TrimOfTrimmed(Trim(stored));
    TrimLower(a);
    assert Trim(k) == Lower(Trim(a));
    assert Trim(a) != "" && Trim(a) != "default";
  }

  lemma KeptKey(r: TokenRecord, e: PoolSecret, claims: Claims, k: string)
    requires e.secret == r.accessToken && e.accountId == AccountId(r.accessToken, r.account, claims)
    requires UsableKey(AccountId(r.accessToken, r.account, claims)) == Some(k) && Trim(k) != "default"
    ensures EntryAccount(claims)(e) == Some(Trim(k))
  {
    SecondLook(r.accessToken, r.account, claims, k);
  }

  lemma RebuiltHolds(pool: seq<PoolSecret>, records: seq<TokenRecord>, profile: string, claims: Claims, c: TokenRecord, k: string)
    requires OnePerAccount(pool, records, profile, claims)
    requires c in records && RecordAccount(profile, claims)(c) == Some(k) && Trim(k) != "default"
    ensures Holds(pool, SpecOf(c, claims), EntryAccount(claims))
  {
    assert ListsAccount(pool, k);
    var i :| 0 <= i < |pool| && Lower(pool[i].accountId) == k;
    assert Explained(pool[i], records, profile, claims);
    var r :| PickedFor(r, Lower(pool[i].accountId), records, profile, claims) && pool[i] == RebuiltEntry(r, claims);
    KeptKey(r, pool[i], claims, k);
    KeptKey(c, SpecOf(c, claims), claims, k);
    assert Same(pool[i], SpecOf(c, claims), EntryAccount(claims));
  }

  /**
   After a rebuild a merge of the same credentials adds none that has a usable account, except where the account
   is the word default in outer white space.
   */
  lemma MergeAfterRebuild(pool: seq<PoolSecret>, records: seq<TokenRecord>, profile: string, claims: Claims)
    requires OnePerAccount(pool, records, profile, claims)
    ensures var r := Extended(pool, Specs(records, profile, claims), EntryAccount(claims));
            forall c, j :: c in records && |pool| <= j < |r| && r[j] == SpecOf(c, claims) ==>
                             var k := RecordAccount(profile, claims)(c);
                             k.Some? ==> Trim(k.value) == "default"
  {
    var account := EntryAccount(claims);
    var r := Extended(pool, Specs(records, profile, claims), account);
    MergeExtends(pool, records, profile, claims);
    forall c, j | c in records && |pool| <= j < |r| && r[j] == SpecOf(c, claims)
      ensures var k := RecordAccount(profile, claims)(c);
              k.Some? ==> Trim(k.value) == "default"
    {
      var k := RecordAccount(profile, claims)(c);
      if k.Some? && Trim(k.value) != "default" {
        RebuiltHolds(pool, records, profile, claims, c, k.value);
        assert false;
      }
    }
  }

  /** That exception is real: two such claims share a rebuilt account and part at the second look. */
  lemma SpacedDefaultParts(one: string, two: string, claims: Claims)
    requires claims(one) == Some(" default") && claims(two) == Some(" Default")
    ensures UsableKey(AccountId(one, "", claims)) == UsableKey(AccountId(two, "", claims)) == Some(" default")
    ensures UsableKey(AccountId(one, AccountId(one, "", claims), claims)) == Some(" default")
    ensures UsableKey(AccountId(two, AccountId(two, "", claims), claims)) == None
  {
    assert Trim("") == "";
    assert Lower(" Default") == " default" && Lower(" default") == " default" && Lower("Default") == "default";
  }

  /** Two valid credentials with those claims and no stored account. */
  ghost predicate SpacedPair(one: TokenRecord, two: TokenRecord, profile: string, claims: Claims) {
    && ProfileOf(one) == ProfileOf(two) == profile && IsValid(one) && IsValid(two) && HasRefresh(one)
    && one.account == two.account == "" && one.accessToken != two.accessToken
    && claims(one.accessToken) == Some(" default") && claims(two.accessToken) == Some(" Default")
  }

  /** A rebuild keeps one of the two, and a merge right after it adds the other. */
  lemma SpacedDefaultMerges(one: TokenRecord, two: TokenRecord, profile: string, claims: Claims)
    requires SpacedPair(one, two, profile, claims)
    ensures var pool, records := [RebuiltEntry(one, claims)], [one, two];
            && OnePerAccount(pool, records, profile, claims)
            && Extended(pool, Specs(records, profile, claims), EntryAccount(claims)) == pool + [SpecOf(two, claims)]
  {
    SpacedDefaultParts(one.accessToken, two.accessToken, claims);
    SpacedRebuild(one, two, profile, claims);
    var pool, records, account := [RebuiltEntry(one, claims)], [one, two], EntryAccount(claims);
    var first, second := SpecOf(one, claims), SpecOf(two, claims);
    SpecsOfTwo(one, two, profile, claims);
    assert Same(pool[0], first, account) && !Same(pool[0], second, account);
    ExtendByTwo(pool, first, second, account);
  }

  lemma SpecsOfTwo(one: TokenRecord, two: TokenRecord, profile: string, claims: Claims)
    requires ProfileOf(one) == ProfileOf(two) == profile && IsValid(one) && IsValid(two)
    ensures Specs([one, two], profile, claims) == [SpecOf(one, claims), SpecOf(two, claims)]
  {
    assert [one, two][..1] == [one] && [one][..0] == [];
    assert Specs([], profile, claims) == [];
    assert Specs([one], profile, claims) == [SpecOf(one, claims)];
  }

  lemma SpacedRebuild(one: TokenRecord, two: TokenRecord, profile: string, claims: Claims)
    requires SpacedPair(one, two, profile, claims)
    ensures OnePerAccount([RebuiltEntry(one, claims)], [one, two], profile, claims)
  {
    SpacedDefaultParts(one.accessToken, two.accessToken, claims);
    var pool, records, account := [RebuiltEntry(one, claims)], [one, two], RecordAccount(profile, claims);
    assert account(one) == account(two) == Some(" default");
    assert Lower(pool[0].accountId) == " default";
    forall r | r in records ensures account(r) == Some(" default") {
    }
    assert ListsAccount(pool, " default");
    assert records[0] == one;
    assert PickedFor(one, " default", records, profile, claims);
  }
}
