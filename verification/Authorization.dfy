/**
 * Hierarchical authorization: the weight that signatures and delegated authorizations reach under an
 * authority, with de-duplication of direct keys, capped addition and cycle detection.
 */
module Authorization {
  import opened Types

  const MAX_AUTH_WEIGHT: nat := 0x7fff_ffff

  datatype KeyWeight = KeyWeight(publicKey: Bytes, weight: nat)

  datatype AccountWeight = AccountWeight(account: Option<string>, weight: nat)

  datatype Authority = Authority(threshold: nat, keys: seq<KeyWeight>, accounts: seq<AccountWeight>)

  datatype KeySignature = KeySignature(publicKey: Bytes, signature: Bytes)

  datatype Authorization = Authorization(signatures: seq<KeySignature>, delegations: seq<Delegation>)

  datatype Delegation = Delegation(account: Option<string>, authorization: Authorization)

  /** Ed25519 verification of the message at hand, and the accounts that can be looked up. */
  datatype Context = Context(verify: (Bytes, Bytes) -> bool, getAccount: Option<string> -> Option<Authority>)

  function NameString(name: Option<string>): string { if name.Some? then name.value else "" }

  predicate Verifies(c: Context, key: Bytes, signature: Bytes) {
    |key| == 32 && |signature| == 64 && c.verify(key, signature)
  }

  // ----- Capped addition -----

  function Cap(n: nat): nat { if n > MAX_AUTH_WEIGHT then MAX_AUTH_WEIGHT else n }

  /** Addition that stops at the maximum. */
  function SafeAddWeight(total: nat, add: nat): (r: nat)
    requires total <= MAX_AUTH_WEIGHT
    ensures r == Cap(total + add) && r <= MAX_AUTH_WEIGHT
  {
    if add > MAX_AUTH_WEIGHT - total then MAX_AUTH_WEIGHT else total + add
  }

  // ----- Direct signatures -----

  /** The weight the authority gives a key: that of its first entry. */
  function KeyEntry(keys: seq<KeyWeight>, key: Bytes): (r: Option<nat>)
    ensures r.Some? ==> r.value < |keys| && keys[r.value].publicKey == key
    ensures r.Some? ==> forall i :: 0 <= i < r.value ==> keys[i].publicKey != key
    ensures r.None? ==> forall i :: 0 <= i < |keys| ==> keys[i].publicKey != key
  {
    if keys == [] then None
    else
      var earlier := KeyEntry(keys[..|keys| - 1], key);
      if earlier.Some? then earlier
      else if keys[|keys| - 1].publicKey == key then Some(|keys| - 1) else None
  }

  /** The keys of the authority with at least one valid signature. */
  ghost function SignedKeys(c: Context, keys: seq<KeyWeight>, sigs: seq<KeySignature>): set<Bytes> {
    set i | 0 <= i < |sigs| && KeyEntry(keys, sigs[i].publicKey).Some?
      && Verifies(c, sigs[i].publicKey, sigs[i].signature)
      :: sigs[i].publicKey
  }

  /** Total weight of the chosen keys, each counted with its first entry. */
  ghost function SumKeys(keys: seq<KeyWeight>, chosen: set<Bytes>): nat {
    if keys == [] then 0 else
      var n := |keys| - 1;
      SumKeys(keys[..n], chosen) +
      if keys[n].publicKey in chosen && KeyEntry(keys[..n], keys[n].publicKey).None? then keys[n].weight else 0
  }

  lemma {:induction false} SumKeysAdd(keys: seq<KeyWeight>, chosen: set<Bytes>, key: Bytes)
    requires key !in chosen
    ensures SumKeys(keys, chosen + {key}) ==
      SumKeys(keys, chosen) + if KeyEntry(keys, key).Some? then keys[KeyEntry(keys, key).value].weight else 0
  {
    if keys != [] { SumKeysAdd(keys[..|keys| - 1], chosen, key); }
  }

  lemma {:induction false} SumKeysMonotone(keys: seq<KeyWeight>, chosen: set<Bytes>, more: set<Bytes>)
    requires chosen <= more
    ensures SumKeys(keys, chosen) <= SumKeys(keys, more)
  {
    if keys != [] { SumKeysMonotone(keys[..|keys| - 1], chosen, more); }
  }

  ghost function DirectWeight(c: Context, authority: Authority, sigs: seq<KeySignature>): nat {
    SumKeys(authority.keys, SignedKeys(c, authority.keys, sigs))
  }

  /** The direct part depends on which signatures there are, not on their order or repetition. */
  lemma DirectOrderIndependent(c: Context, authority: Authority, xs: seq<KeySignature>, ys: seq<KeySignature>)
    requires forall s :: s in xs <==> s in ys
    ensures DirectWeight(c, authority, xs) == DirectWeight(c, authority, ys)
  {
    SignedKeysMonotone(c, authority.keys, xs, ys);
    SignedKeysMonotone(c, authority.keys, ys, xs);
    assert SignedKeys(c, authority.keys, xs) == SignedKeys(c, authority.keys, ys);
  }

  lemma SignedKeysMonotone(c: Context, keys: seq<KeyWeight>, xs: seq<KeySignature>, ys: seq<KeySignature>)
    requires forall s :: s in xs ==> s in ys
    ensures SignedKeys(c, keys, xs) <= SignedKeys(c, keys, ys)
  {
    forall k | k in SignedKeys(c, keys, xs) ensures k in SignedKeys(c, keys, ys) {
      var i :| 0 <= i < |xs| && KeyEntry(keys, xs[i].publicKey).Some? && Verifies(c, xs[i].publicKey, xs[i].signature)
        && xs[i].publicKey == k;
      assert xs[i] in xs;
      var j :| 0 <= j < |ys| && ys[j] == xs[i];
    }
  }

  // ----- Delegations -----

  function AccountEntry(accounts: seq<AccountWeight>, account: Option<string>): (r: Option<nat>)
    ensures r.Some? ==> r.value < |accounts| && accounts[r.value].account == account
                        && forall i :: 0 <= i < r.value ==> accounts[i].account != account
    ensures r.None? ==> forall i :: 0 <= i < |accounts| ==> accounts[i].account != account
  {
    if accounts == [] then None
    else
      var earlier := AccountEntry(accounts[..|accounts| - 1], account);
      if earlier.Some? then earlier
      else if accounts[|accounts| - 1].account == account then Some(|accounts| - 1) else None
  }

  /** What an authorization reaches under an authority, below the cap. */
  ghost function FullWeight(c: Context, a: Authorization, authority: Authority, visited: set<string>): nat
    decreases a, 1, 0
  {
    DirectWeight(c, authority, a.signatures) + DelegatedWeight(c, a, authority, visited, |a.delegations|)
  }

  ghost function Weight(c: Context, a: Authorization, authority: Authority, visited: set<string>): nat
    decreases a, 2, 0
  {
    Cap(FullWeight(c, a, authority, visited))
  }

  /** What the first `n` delegations add; every listed delegation counts. */
  ghost function DelegatedWeight(c: Context, a: Authorization, authority: Authority, visited: set<string>, n: nat): nat
    requires n <= |a.delegations|
    decreases a, 0, n
  {
    if n == 0 then 0 else
      DelegatedWeight(c, a, authority, visited, n - 1) + EntryWeight(c, a.delegations[n - 1], authority, visited)
  }

  /** The weight of a delegation: that of its account, if the account's own authority is satisfied. */
  ghost function EntryWeight(c: Context, d: Delegation, authority: Authority, visited: set<string>): nat
    decreases d, 3, 0
  {
    var entry := AccountEntry(authority.accounts, d.account);
    var delegate := c.getAccount(d.account);
    if NameString(d.account) in visited || entry.None? || delegate.None? then 0
    else if Weight(c, d.authorization, delegate.value, visited + {NameString(d.account)}) >= delegate.value.threshold
    then authority.accounts[entry.value].weight
    else 0
  }

  // ----- Monotonicity -----

  /** `b` has all signatures of `a`, and its delegations, extended in turn, in order among others. */
  ghost predicate Extends(b: Authorization, a: Authorization)
    decreases b, 1, 0
  {
    (forall s :: s in a.signatures ==> s in b.signatures) && Embeds(b, |b.delegations|, a, |a.delegations|)
  }

  /** The first `m` delegations of `a` are found, extended, in order among the first `n` of `b`. */
  ghost predicate Embeds(b: Authorization, n: nat, a: Authorization, m: nat)
    requires n <= |b.delegations| && m <= |a.delegations|
    decreases b, 0, n
  {
    m == 0 || (n > 0 && (
      || Embeds(b, n - 1, a, m)
      || (&& b.delegations[n - 1].account == a.delegations[m - 1].account
          && Extends(b.delegations[n - 1].authorization, a.delegations[m - 1].authorization)
          && Embeds(b, n - 1, a, m - 1))))
  }

  /** Adding signatures or delegations anywhere in the tree never lowers the weight, at any depth. */
  lemma {:induction false} WeightMonotone(c: Context, b: Authorization, a: Authorization, authority: Authority,
          visited: set<string>)
    requires Extends(b, a)
    ensures Weight(c, b, authority, visited) >= Weight(c, a, authority, visited)
    decreases b, 1, 0
  {
    SignedKeysMonotone(c, authority.keys, a.signatures, b.signatures);
    SumKeysMonotone(authority.keys, SignedKeys(c, authority.keys, a.signatures),
                    SignedKeys(c, authority.keys, b.signatures));
    DelegatedMonotone(c, b, |b.delegations|, a, |a.delegations|, authority, visited);
  }

  lemma {:induction false} DelegatedMonotone(c: Context, b: Authorization, n: nat, a: Authorization, m: nat,
          authority: Authority, visited: set<string>)
    requires n <= |b.delegations| && m <= |a.delegations| && Embeds(b, n, a, m)
    ensures DelegatedWeight(c, b, authority, visited, n) >= DelegatedWeight(c, a, authority, visited, m)
    decreases b, 0, n
  {
    if m > 0 {
      if Embeds(b, n - 1, a, m) {
        DelegatedMonotone(c, b, n - 1, a, m, authority, visited);
      } else {
        DelegatedMonotone(c, b, n - 1, a, m - 1, authority, visited);
        EntryMonotone(c, b.delegations[n - 1], a.delegations[m - 1], authority, visited);
      }
    }
  }

  lemma {:induction false} EntryMonotone(c: Context, e: Delegation, d: Delegation, authority: Authority,
          visited: set<string>)
    requires e.account == d.account && Extends(e.authorization, d.authorization)
    ensures EntryWeight(c, e, authority, visited) >= EntryWeight(c, d, authority, visited)
    decreases e, 2, 0
  {
    var delegate := c.getAccount(d.account);
    if delegate.Some? {
      WeightMonotone(c, e.authorization, d.authorization, delegate.value, visited + {NameString(d.account)});
    }
  }

  /** An authority once satisfied stays satisfied when the authorization is extended. */
  lemma SatisfactionMonotone(c: Context, b: Authorization, a: Authorization, authority: Authority)
    requires Extends(b, a) && Weight(c, a, authority, {}) >= authority.threshold
    ensures Weight(c, b, authority, {}) >= authority.threshold
  {
    WeightMonotone(c, b, a, authority, {});
  }

  // ----- What counts -----

  /** No signature anywhere in the tree verifies. */
  ghost predicate Unsigned(c: Context, a: Authorization)
    decreases a
  {
    && (forall i :: 0 <= i < |a.signatures| ==> !Verifies(c, a.signatures[i].publicKey, a.signatures[i].signature))
    && (forall i :: 0 <= i < |a.delegations| ==> Unsigned(c, a.delegations[i].authorization))
  }

  ghost predicate PositiveThresholds(c: Context) {
    forall name :: c.getAccount(name).Some? ==> c.getAccount(name).value.threshold > 0
  }

  /** Without a valid signature nothing is reached, however accounts delegate to each other. */
  lemma {:induction false} UnsignedIsWeightless(c: Context, a: Authorization, authority: Authority,
          visited: set<string>)
    requires Unsigned(c, a) && PositiveThresholds(c)
    ensures Weight(c, a, authority, visited) == 0
    decreases a, 1, 0
  {
    assert SignedKeys(c, authority.keys, a.signatures) == {};
    NoKeys(authority.keys);
    UnsignedDelegations(c, a, authority, visited, |a.delegations|);
  }

  lemma {:induction false} UnsignedDelegations(c: Context, a: Authorization, authority: Authority,
          visited: set<string>, n: nat)
    requires n <= |a.delegations| && Unsigned(c, a) && PositiveThresholds(c)
    ensures DelegatedWeight(c, a, authority, visited, n) == 0
    decreases a, 0, n
  {
    if n > 0 {
      UnsignedDelegations(c, a, authority, visited, n - 1);
      var d := a.delegations[n - 1];
      var delegate := c.getAccount(d.account);
      if delegate.Some? {
        UnsignedIsWeightless(c, d.authorization, delegate.value, visited + {NameString(d.account)});
      }
    }
  }

  /** Without a valid signature no positive threshold is met. */
  lemma UnsignedNeverSatisfies(c: Context, a: Authorization, authority: Authority)
    requires Unsigned(c, a) && PositiveThresholds(c) && authority.threshold > 0
    ensures Weight(c, a, authority, {}) < authority.threshold
  {
    UnsignedIsWeightless(c, a, authority, {});
  }

  function WithoutDelegation(a: Authorization, i: nat): Authorization
    requires i < |a.delegations|
  {
    a.(delegations := a.delegations[..i] + a.delegations[i + 1..])
  }

  /** The account is known, not on the path already, and satisfied by what is delegated. */
  ghost predicate Grants(c: Context, d: Delegation, visited: set<string>) {
    && NameString(d.account) !in visited && c.getAccount(d.account).Some?
    && var own := c.getAccount(d.account).value;
       Weight(c, d.authorization, own, visited + {NameString(d.account)}) >= own.threshold
  }

  predicate ListedFirst(accounts: seq<AccountWeight>, account: Option<string>, k: nat) {
    k < |accounts| && accounts[k].account == account && forall j :: 0 <= j < k ==> accounts[j].account != account
  }

  /**
   * A delegation adds the weight of the first entry of its account, up to the cap, when the account
   * grants it, and nothing when the account does not or is not listed.
   */
  lemma DelegationAdds(c: Context, a: Authorization, i: nat, authority: Authority, visited: set<string>)
    requires i < |a.delegations|
    ensures var d, rest := a.delegations[i], Weight(c, WithoutDelegation(a, i), authority, visited);
      && (forall k: nat :: ListedFirst(authority.accounts, d.account, k) && Grants(c, d, visited) ==>
            Weight(c, a, authority, visited) == Cap(rest + authority.accounts[k].weight))
      && (!Grants(c, d, visited) || (forall k: nat :: !ListedFirst(authority.accounts, d.account, k)) ==>
            Weight(c, a, authority, visited) == rest)
  {
    hide AccountEntry, DirectWeight;
    DelegatedWithout(c, a, i, authority, visited, |a.delegations|);
    FirstEntry(authority.accounts, a.delegations[i].account);
  }

  lemma FirstEntry(accounts: seq<AccountWeight>, account: Option<string>)
    ensures forall k: nat :: ListedFirst(accounts, account, k) <==> AccountEntry(accounts, account) == Some(k)
  {
    hide AccountEntry;
    var entry := AccountEntry(accounts, account);
    forall k: nat | ListedFirst(accounts, account, k) ensures entry == Some(k) {}
  }

  lemma {:induction false} DelegatedWithout(c: Context, a: Authorization, i: nat, authority: Authority,
          visited: set<string>, n: nat)
    requires i < n <= |a.delegations|
    ensures DelegatedWeight(c, a, authority, visited, n)
      == DelegatedWeight(c, WithoutDelegation(a, i), authority, visited, n - 1)
         + EntryWeight(c, a.delegations[i], authority, visited)
  {
    hide EntryWeight;
    if n == i + 1 {
      SameDelegations(c, a, WithoutDelegation(a, i), authority, visited, i);
    } else {
      DelegatedWithout(c, a, i, authority, visited, n - 1);
      assert WithoutDelegation(a, i).delegations[n - 2] == a.delegations[n - 1];
    }
  }

  lemma {:induction false} SameDelegations(c: Context, a: Authorization, b: Authorization, authority: Authority,
          visited: set<string>, n: nat)
    requires n <= |a.delegations| && n <= |b.delegations| && a.delegations[..n] == b.delegations[..n]
    ensures DelegatedWeight(c, a, authority, visited, n) == DelegatedWeight(c, b, authority, visited, n)
  {
    hide EntryWeight;
    if n > 0 {
      assert a.delegations[..n][n - 1] == b.delegations[..n][n - 1];
      assert a.delegations[..n][..n - 1] == a.delegations[..n - 1];
      assert b.delegations[..n][..n - 1] == b.delegations[..n - 1];
      SameDelegations(c, a, b, authority, visited, n - 1);
    }
  }

  function WithoutSignature(a: Authorization, i: nat): Authorization
    requires i < |a.signatures|
  {
    a.(signatures := a.signatures[..i] + a.signatures[i + 1..])
  }

  predicate KeyListedFirst(keys: seq<KeyWeight>, key: Bytes, k: nat) {
    k < |keys| && keys[k].publicKey == key && forall j :: 0 <= j < k ==> keys[j].publicKey != key
  }

  /** The key of signature `i` is signed validly by it, and by no other signature. */
  predicate SignsAlone(c: Context, sigs: seq<KeySignature>, i: nat)
    requires i < |sigs|
  {
    && Verifies(c, sigs[i].publicKey, sigs[i].signature)
    && forall j :: 0 <= j < |sigs| && j != i && sigs[j].publicKey == sigs[i].publicKey ==>
         !Verifies(c, sigs[j].publicKey, sigs[j].signature)
  }

  /**
   * A signature adds the weight of the first entry of its key, up to the cap, when it is valid and the
   * only valid one of its key, and nothing when it is not or the key is not listed.
   */
  lemma SignatureAdds(c: Context, a: Authorization, i: nat, authority: Authority, visited: set<string>)
    requires i < |a.signatures|
    ensures var key, rest := a.signatures[i].publicKey, Weight(c, WithoutSignature(a, i), authority, visited);
      && (forall k: nat :: KeyListedFirst(authority.keys, key, k) && SignsAlone(c, a.signatures, i) ==>
            Weight(c, a, authority, visited) == Cap(rest + authority.keys[k].weight))
      && (!SignsAlone(c, a.signatures, i) || (forall k: nat :: !KeyListedFirst(authority.keys, key, k)) ==>
            Weight(c, a, authority, visited) == rest)
  {
    hide EntryWeight, DelegatedWeight, KeyEntry, SumKeys, SignedKeys;
    var b, key := WithoutSignature(a, i), a.signatures[i].publicKey;
    SameDelegations(c, a, b, authority, visited, |a.delegations|);
    SignedWithout(c, authority.keys, a.signatures, i);
    var entry, others := KeyEntry(authority.keys, key), SignedKeys(c, authority.keys, b.signatures);
    FirstKeyEntry(authority.keys, key);
    if SignsAlone(c, a.signatures, i) && entry.Some? { SumKeysAdd(authority.keys, others, key); }
  }

  lemma FirstKeyEntry(keys: seq<KeyWeight>, key: Bytes)
    ensures forall k: nat :: KeyListedFirst(keys, key, k) <==> KeyEntry(keys, key) == Some(k)
  {
    hide KeyEntry;
    var entry := KeyEntry(keys, key);
    forall k: nat | KeyListedFirst(keys, key, k) ensures entry == Some(k) {}
  }

  lemma SignedWithout(c: Context, keys: seq<KeyWeight>, sigs: seq<KeySignature>, i: nat)
    requires i < |sigs|
    ensures var others := SignedKeys(c, keys, sigs[..i] + sigs[i + 1..]);
      if SignsAlone(c, sigs, i) && KeyEntry(keys, sigs[i].publicKey).Some?
      then SignedKeys(c, keys, sigs) == others + {sigs[i].publicKey} && sigs[i].publicKey !in others
      else SignedKeys(c, keys, sigs) == others
  {
    hide KeyEntry, Verifies;
    var rest := sigs[..i] + sigs[i + 1..];
    forall j | 0 <= j < |sigs| && j != i ensures sigs[j] in rest {
      assert sigs[j] == if j < i then rest[j] else rest[j - 1];
    }
    forall j | 0 <= j < |rest| ensures rest[j] == sigs[if j < i then j else j + 1] {}
    SignedKeysMonotone(c, keys, rest, sigs);
    var all, others := SignedKeys(c, keys, sigs), SignedKeys(c, keys, rest);
    forall k | k in all && k != sigs[i].publicKey ensures k in others {
      var j :| 0 <= j < |sigs| && KeyEntry(keys, sigs[j].publicKey).Some?
        && Verifies(c, sigs[j].publicKey, sigs[j].signature) && sigs[j].publicKey == k;
      assert sigs[j] in rest;
    }
    if KeyEntry(keys, sigs[i].publicKey).Some? { SignedByAnother(c, keys, sigs, i, rest); }
  }

  lemma SignedByAnother(c: Context, keys: seq<KeyWeight>, sigs: seq<KeySignature>, i: nat, rest: seq<KeySignature>)
    requires i < |sigs| && rest == sigs[..i] + sigs[i + 1..] && KeyEntry(keys, sigs[i].publicKey).Some?
    ensures var key := sigs[i].publicKey;
      && (key in SignedKeys(c, keys, sigs) <==> SignsAlone(c, sigs, i) || key in SignedKeys(c, keys, rest))
      && !(SignsAlone(c, sigs, i) && key in SignedKeys(c, keys, rest))
  {
    hide KeyEntry, Verifies;
    forall j | 0 <= j < |sigs| && j != i ensures sigs[j] in rest {
      assert sigs[j] == if j < i then rest[j] else rest[j - 1];
    }
    forall j | 0 <= j < |rest| ensures rest[j] == sigs[if j < i then j else j + 1] {}
    if Verifies(c, sigs[i].publicKey, sigs[i].signature) && !SignsAlone(c, sigs, i) {
      var j :| 0 <= j < |sigs| && j != i && sigs[j].publicKey == sigs[i].publicKey
        && Verifies(c, sigs[j].publicKey, sigs[j].signature);
      assert sigs[j] in rest;
    }
    assert SignedKeys(c, keys, rest) <= SignedKeys(c, keys, sigs) by { SignedKeysMonotone(c, keys, rest, sigs); }
    if sigs[i].publicKey in SignedKeys(c, keys, sigs) && !Verifies(c, sigs[i].publicKey, sigs[i].signature) {
      var j :| 0 <= j < |sigs| && Verifies(c, sigs[j].publicKey, sigs[j].signature)
        && sigs[j].publicKey == sigs[i].publicKey;
      assert sigs[j] in rest;
    }
  }

  // ----- The loops -----

  /** The capped weight of the direct signatures, each key counted once. */
  method DirectSignatures(c: Context, sigs: seq<KeySignature>, authority: Authority) returns (total: nat)
    ensures total == Cap(DirectWeight(c, authority, sigs))
  {
    total := 0;
    var seen: set<Bytes> := {};
    NoKeys(authority.keys);
    for i := 0 to |sigs|
      invariant seen == SignedKeys(c, authority.keys, sigs[..i])
      invariant total == Cap(SumKeys(authority.keys, seen))
    {
      var sig := sigs[i];
      OneMoreSignature(c, authority.keys, sigs, i);
      if sig.publicKey !in seen {
        var entry := FindKey(authority.keys, sig.publicKey);
        if entry.Some? && Verifies(c, sig.publicKey, sig.signature) {
          SumKeysAdd(authority.keys, seen, sig.publicKey);
          seen := seen + {sig.publicKey};
          total := SafeAddWeight(total, authority.keys[entry.value].weight);
        }
      }
    }
    assert sigs[..|sigs|] == sigs;
  }

  lemma {:induction false} NoKeys(keys: seq<KeyWeight>)
    ensures SumKeys(keys, {}) == 0
  {
    if keys != [] { NoKeys(keys[..|keys| - 1]); }
  }

  lemma OneMoreSignature(c: Context, keys: seq<KeyWeight>, sigs: seq<KeySignature>, i: nat)
    requires i < |sigs|
    ensures SignedKeys(c, keys, sigs[..i + 1]) == SignedKeys(c, keys, sigs[..i]) +
      if KeyEntry(keys, sigs[i].publicKey).Some? && Verifies(c, sigs[i].publicKey, sigs[i].signature)
      then {sigs[i].publicKey} else {}
  {
    hide KeyEntry;
  }

  method FindKey(keys: seq<KeyWeight>, key: Bytes) returns (r: Option<nat>)
    ensures r == KeyEntry(keys, key)
  {
    for i := 0 to |keys|
      invariant forall k :: 0 <= k < i ==> keys[k].publicKey != key
    {
      if keys[i].publicKey == key { return Some(i); }
    }
    r := None;
  }

  /** The weight of an authorization under an authority. */
  method VerifyAuthorization(c: Context, a: Authorization, authority: Authority, visited: set<string>)
    returns (total: nat)
    ensures total == Weight(c, a, authority, visited)
    decreases a, 1
  {
    total := DirectSignatures(c, a.signatures, authority);
    for i := 0 to |a.delegations|
      invariant total == Cap(DirectWeight(c, authority, a.signatures) + DelegatedWeight(c, a, authority, visited, i))
    {
      var weight := DelegationWeight(c, a.delegations[i], authority, visited);
      total := SafeAddWeight(total, weight);
    }
  }

  method DelegationWeight(c: Context, d: Delegation, authority: Authority, visited: set<string>) returns (weight: nat)
    ensures weight == EntryWeight(c, d, authority, visited)
    decreases d, 0
  {
    if NameString(d.account) in visited { return 0; }
    for i := 0 to |authority.accounts|
      invariant AccountEntry(authority.accounts, d.account).None?
        || AccountEntry(authority.accounts, d.account).value >= i || c.getAccount(d.account).None?
    {
      if authority.accounts[i].account == d.account {
        var delegate := c.getAccount(d.account);
        if delegate.Some? {
          var reached := VerifyAuthorization(c, d.authorization, delegate.value, visited + {NameString(d.account)});
          return if reached >= delegate.value.threshold then authority.accounts[i].weight else 0;
        }
      }
    }
    weight := 0;
  }

  method IsAuthoritySatisfied(c: Context, a: Authorization, authority: Authority) returns (ok: bool)
    ensures ok <==> Weight(c, a, authority, {}) >= authority.threshold
  {
    var weight := VerifyAuthorization(c, a, authority, {});
    ok := weight >= authority.threshold;
  }
}
