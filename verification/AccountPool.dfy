/**
 Key pools with at most one entry an account: picking one credential per account, and extending a
 pool by credentials it does not hold yet. What an entry's account is comes in as a function.
 */
module AccountPool {
  import opened Common

  datatype PoolSecret = PoolSecret(id: string, secret: string, enabled: bool, accountId: string, priority: nat)

  // ---------------------------------------------------------------------------
  // One pick per account
  // ---------------------------------------------------------------------------

  /** The record kept for account `k`: a later one takes over only if it is preferred and the kept one is not. */
  function Pick<T>(rs: seq<T>, k: string, account: T -> Option<string>, preferred: T -> bool): Option<T> {
    if rs == [] then None
    else
      var p, r := Pick(rs[..|rs| - 1], k, account, preferred), rs[|rs| - 1];
      if account(r) == Some(k) && (p.None? || (preferred(r) && !preferred(p.value))) then Some(r) else p
  }

  /** `rs[i]` is the first preferred record of account `k`, or the first of all when none is preferred. */
  ghost predicate FirstPreferred<T(!new)>(rs: seq<T>, i: nat, k: string, account: T -> Option<string>, preferred: T -> bool)
    requires i < |rs|
  {
    && account(rs[i]) == Some(k)
    && (preferred(rs[i]) ==> forall j :: 0 <= j < i && account(rs[j]) == Some(k) ==> !preferred(rs[j]))
    && (!preferred(rs[i]) ==>
          && (forall j :: 0 <= j < i ==> account(rs[j]) != Some(k))
          && (forall j :: 0 <= j < |rs| && account(rs[j]) == Some(k) ==> !preferred(rs[j])))
  }

  lemma {:induction false} PickMeaning<T(!new)>(rs: seq<T>, k: string, account: T -> Option<string>, preferred: T -> bool)
    ensures Pick(rs, k, account, preferred).None? <==> forall r :: r in rs ==> account(r) != Some(k)
    ensures Pick(rs, k, account, preferred).Some? ==>
              exists i :: 0 <= i < |rs| && rs[i] == Pick(rs, k, account, preferred).value
                          && FirstPreferred(rs, i, k, account, preferred)
  {
    if rs != [] {
      var n := |rs| - 1;
      var front := rs[..n];
      PickMeaning(front, k, account, preferred);
      var p := Pick(front, k, account, preferred);
      assert rs == front + [rs[n]];
      if p.None? {
        forall j | 0 <= j < n ensures account(rs[j]) != Some(k) { assert rs[j] in front; }
        if account(rs[n]) == Some(k) { assert FirstPreferred(rs, n, k, account, preferred); }
      } else {
        var i :| 0 <= i < n && front[i] == p.value && FirstPreferred(front, i, k, account, preferred);
        assert front[i] in front;
      }
    }
  }

  ghost predicate PicksOf<T(!new)>(picks: map<string, T>, rs: seq<T>, account: T -> Option<string>, preferred: T -> bool) {
    && (forall k :: k in picks ==> Pick(rs, k, account, preferred) == Some(picks[k]))
    && (forall k :: Pick(rs, k, account, preferred).Some? ==> k in picks)
  }

  method PickPerAccount<T(!new)>(rs: seq<T>, account: T -> Option<string>, preferred: T -> bool)
    returns (picks: map<string, T>)
    ensures PicksOf(picks, rs, account, preferred)
  {
    picks := map[];
    for n := 0 to |rs|
      invariant PicksOf(picks, rs[..n], account, preferred)
    {
      var r := rs[n];
      assert rs[..n + 1][..n] == rs[..n];
      var key := account(r);
      if key.None? { continue; }
      var k := key.value;
      var replace := k !in picks || (preferred(r) && !preferred(picks[k]));
      if replace {
        picks := picks[k := r];
      }
    }
    assert rs[..|rs|] == rs;
  }

  // ---------------------------------------------------------------------------
  // Extending a pool
  // ---------------------------------------------------------------------------

  /** Two entries stand for one credential: the same secret, or the same usable account. */
  predicate Same(p: PoolSecret, q: PoolSecret, account: PoolSecret -> Option<string>) {
    p.secret == q.secret || (account(p).Some? && account(p) == account(q))
  }

  ghost predicate Holds(pool: seq<PoolSecret>, s: PoolSecret, account: PoolSecret -> Option<string>) {
    exists i :: 0 <= i < |pool| && Same(pool[i], s, account)
  }

  ghost function Extended(pool: seq<PoolSecret>, specs: seq<PoolSecret>, account: PoolSecret -> Option<string>): seq<PoolSecret> {
    if specs == [] then pool
    else
      var p := Extended(pool, specs[..|specs| - 1], account);
      if Holds(p, specs[|specs| - 1], account) then p else p + [specs[|specs| - 1]]
  }

  /** The pool only grows, and only by specs. */
  lemma {:induction false} ExtendsPool(pool: seq<PoolSecret>, specs: seq<PoolSecret>, account: PoolSecret -> Option<string>)
    ensures pool <= Extended(pool, specs, account)
    ensures forall j :: |pool| <= j < |Extended(pool, specs, account)| ==> Extended(pool, specs, account)[j] in specs
  {
    if specs != [] {
      var n := |specs| - 1;
      ExtendsPool(pool, specs[..n], account);
      assert specs == specs[..n] + [specs[n]];
    }
  }

  /** No added entry repeats a secret or an account that comes before it. */
  lemma {:induction false} AddsNoRepeat(pool: seq<PoolSecret>, specs: seq<PoolSecret>, account: PoolSecret -> Option<string>)
    ensures |pool| <= |Extended(pool, specs, account)|
    ensures forall i, j :: 0 <= i < j < |Extended(pool, specs, account)| && |pool| <= j ==>
              !Same(Extended(pool, specs, account)[i], Extended(pool, specs, account)[j], account)
  {
    if specs != [] {
      AddsNoRepeat(pool, specs[..|specs| - 1], account);
    }
  }

  /** Every spec ends up held. */
  lemma {:induction false} CoversSpecs(pool: seq<PoolSecret>, specs: seq<PoolSecret>, account: PoolSecret -> Option<string>)
    ensures forall s :: s in specs ==> Holds(Extended(pool, specs, account), s, account)
  {
    if specs != [] {
      var n := |specs| - 1;
      var p, q := Extended(pool, specs[..n], account), Extended(pool, specs, account);
      CoversSpecs(pool, specs[..n], account);
      assert specs == specs[..n] + [specs[n]];
      forall s | s in specs ensures Holds(q, s, account) {
        if Holds(p, s, account) {
          var i :| 0 <= i < |p| && Same(p[i], s, account);
          assert q[i] == p[i];
        } else {
          assert q[|p|] == s;
        }
      }
    }
  }

  lemma {:induction false} NothingToAdd(pool: seq<PoolSecret>, specs: seq<PoolSecret>, account: PoolSecret -> Option<string>)
    requires forall s :: s in specs ==> Holds(pool, s, account)
    ensures Extended(pool, specs, account) == pool
  {
    if specs != [] {
      assert specs[|specs| - 1] in specs;
      NothingToAdd(pool, specs[..|specs| - 1], account);
    }
  }

  /** Extending adds something exactly when some spec is not held yet. */
  lemma ExtendsExactly(pool: seq<PoolSecret>, specs: seq<PoolSecret>, account: PoolSecret -> Option<string>)
    ensures Extended(pool, specs, account) == pool <==> forall s :: s in specs ==> Holds(pool, s, account)
  {
    CoversSpecs(pool, specs, account);
    if forall s :: s in specs ==> Holds(pool, s, account) {
      NothingToAdd(pool, specs, account);
    }
  }

  lemma ExtendByTwo(pool: seq<PoolSecret>, a: PoolSecret, b: PoolSecret, account: PoolSecret -> Option<string>)
    requires Holds(pool, a, account) && !Holds(pool, b, account)
    ensures Extended(pool, [a, b], account) == pool + [b]
  {
    assert [a, b][..1] == [a] && [a][..0] == [];
    assert Extended(pool, [], account) == pool;
    assert Extended(pool, [a], account) == pool;
  }

  /** Extending twice by the same specs is extending once. */
  lemma ExtendingSettles(pool: seq<PoolSecret>, specs: seq<PoolSecret>, account: PoolSecret -> Option<string>)
    ensures Extended(Extended(pool, specs, account), specs, account) == Extended(pool, specs, account)
  {
    CoversSpecs(pool, specs, account);
    NothingToAdd(Extended(pool, specs, account), specs, account);
  }

  function AccountsIn(pool: seq<PoolSecret>, account: PoolSecret -> Option<string>): set<string> {
    set i | 0 <= i < |pool| && account(pool[i]).Some? :: account(pool[i]).value
  }

  function SecretsIn(pool: seq<PoolSecret>): set<string> {
    set i | 0 <= i < |pool| :: pool[i].secret
  }

  lemma SetsGrow(pool: seq<PoolSecret>, s: PoolSecret, account: PoolSecret -> Option<string>)
    ensures SecretsIn(pool + [s]) == SecretsIn(pool) + {s.secret}
    ensures AccountsIn(pool + [s], account) ==
            AccountsIn(pool, account) + if account(s).Some? then {account(s).value} else {}
  {
    var q := pool + [s];
    assert q[|pool|] == s && forall i :: 0 <= i < |pool| ==> q[i] == pool[i];
    forall x | x in SecretsIn(pool) ensures x in SecretsIn(q) {
      var i :| 0 <= i < |pool| && pool[i].secret == x;
      assert q[i].secret == x;
    }
    forall x | x in AccountsIn(pool, account) ensures x in AccountsIn(q, account) {
      var i :| 0 <= i < |pool| && account(pool[i]).Some? && account(pool[i]).value == x;
      assert account(q[i]).value == x;
    }
  }

  /** The extending loop, with its two sets of what has been seen. */
  method Extend(pool: seq<PoolSecret>, specs: seq<PoolSecret>, account: PoolSecret -> Option<string>)
    returns (r: seq<PoolSecret>, changed: bool)
    ensures r == Extended(pool, specs, account)
    ensures changed <==> r != pool
  {
    r, changed := pool, false;
    var seen, seenSecrets := AccountsIn(pool, account), SecretsIn(pool);
    for n := 0 to |specs|
      invariant r == Extended(pool, specs[..n], account)
      invariant seen == AccountsIn(r, account) && seenSecrets == SecretsIn(r)
      invariant |r| >= |pool| && (changed <==> |r| > |pool|)
    {
      var s := specs[n];
      assert specs[..n + 1][..n] == specs[..n];
      if s.secret in seenSecrets { continue; }
      var key := account(s);
      if key.Some? && key.value in seen { continue; }
      SetsGrow(r, s, account);
      if key.Some? { seen := seen + {key.value}; }
      seenSecrets := seenSecrets + {s.secret};
      r := r + [s];
      changed := true;
    }
    assert specs[..|specs|] == specs;
    ExtendsPool(pool, specs, account);
  }
}
