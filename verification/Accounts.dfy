/** Account stores: the in-memory store, and copy-on-write overlays stacked on it. */
module Accounts {
  import opened Types
  import Collections
  import Merkle
  import MerkleSoundness
  import Serial

  /** The accounts of a store, as a bag. */
  ghost function Values(v: Store): multiset<Account> {
    Collections.ValueBag(v)
  }

  /** The accounts of a store in some order. */
  ghost function Listing(v: Store): (list: seq<Account>)
    ensures multiset(list) == Values(v) && |list| == |v|
    decreases |v|
  {
    if v == map[] then [] else
      var k := Collections.PickKey(v);
      [v[k]] + Listing(v - {k})
  }

  lemma {:induction false} ValueHasKey(v: Store, a: Account)
    requires WellKeyed(v) && a in Values(v)
    ensures a.pubkey in v && v[a.pubkey] == a
    decreases |v|
  {
    var k := Collections.PickKey(v);
    if v[k] != a {
      ValueHasKey(v - {k}, a);
    }
  }

  /** Re-inserting the listed accounts by their own pubkey rebuilds a well-keyed store. */
  lemma {:induction false} FromListing(list: seq<Account>, v: Store)
    requires WellKeyed(v) && multiset(list) == Values(v)
    ensures Serial.Dirty(list) == v
    decreases |list|
  {
    if list == [] {
      assert |multiset(Listing(v))| == 0;
      assert v == map[];
    } else {
      var init, last := list[..|list| - 1], list[|list| - 1];
      Collections.SeqLast(list);
      ValueHasKey(v, last);
      Collections.ValueBagRemove(v, last.pubkey);
      Collections.BagTail(multiset(init), multiset(list), Values(v - {last.pubkey}), last);
      FromListing(init, v - {last.pubkey});
      Collections.PutBack(v, last.pubkey);
    }
  }

  /** A well-keyed store lists no key, so no account, twice. */
  lemma {:induction false} ListedOnce(list: seq<Account>, v: Store)
    requires WellKeyed(v) && multiset(list) == Values(v)
    ensures MerkleSoundness.DistinctKeys(list)
    decreases |list|
  {
    if list != [] {
      var n := |list| - 1;
      var init, last := list[..n], list[n];
      Collections.SeqLast(list);
      ValueHasKey(v, last);
      Collections.ValueBagRemove(v, last.pubkey);
      Collections.BagTail(multiset(init), multiset(list), Values(v - {last.pubkey}), last);
      ListedOnce(init, v - {last.pubkey});
      forall i | 0 <= i < n ensures list[i].pubkey != last.pubkey {
        assert init[i] in multiset(init);
        ValueHasKey(v - {last.pubkey}, init[i]);
      }
    }
  }

  ghost function RootOf(sha: Merkle.Sha, v: Store): Merkle.Digest
    requires v != map[]
  {
    Merkle.Root(sha, Listing(v))
  }

  /** An in-memory store with no accounts has no root; an empty overlay reports the default hash. */
  ghost predicate IsRoot(sha: Merkle.Sha, v: Store, overlay: bool, r: Result<Hash, string>) {
    if v != map[] then r == Ok(Hash(RootOf(sha, v)))
    else if overlay then r == Ok(Hash(ZERO32))
    else r.Err?
  }

  lemma SameRoot(sha: Merkle.Sha, v: Store, a: bool, b: bool, r: Result<Hash, string>, t: Result<Hash, string>)
    requires v != map[] && IsRoot(sha, v, a, r) && IsRoot(sha, v, b, t)
    ensures r == t && r.Ok?
  {
  }

  lemma RootOfList(sha: Merkle.Sha, list: seq<Account>, v: Store)
    requires multiset(list) == Values(v)
    ensures list == [] <==> v == map[]
    ensures v != map[] ==> Merkle.Root(sha, list) == RootOf(sha, v)
  {
    assert |multiset(list)| == |multiset(Listing(v))|;
    if v != map[] {
      Merkle.RootIgnoresOrder(sha, list, Listing(v));
    }
  }

  ghost predicate SizedStore(v: Store) {
    forall k :: k in v ==> Merkle.Sized(v[k])
  }

  lemma ListingSized(v: Store)
    requires WellKeyed(v) && SizedStore(v)
    ensures forall a :: a in Listing(v) ==> Merkle.Sized(a)
  {
    forall a | a in Listing(v) ensures Merkle.Sized(a) {
      assert a in multiset(Listing(v));
      ValueHasKey(v, a);
    }
  }

  /** The state root commits to the store: equal roots mean equal stores, or two different inputs hashed for them collide. */
  lemma {:induction false} RootCommits(sha: Merkle.Sha, v: Store, w: Store) returns (c: Option<MerkleSoundness.Clash>)
    requires WellKeyed(v) && WellKeyed(w) && SizedStore(v) && SizedStore(w)
    requires v != map[] && w != map[] && RootOf(sha, v) == RootOf(sha, w)
    ensures c.None? ==> v == w
    ensures c.Some? ==> MerkleSoundness.Collides(sha, c.value,
                          MerkleSoundness.Hashed(sha, Listing(v)) + MerkleSoundness.Hashed(sha, Listing(w)))
  {
    ListedOnce(Listing(v), v);
    ListedOnce(Listing(w), w);
    ListingSized(v);
    ListingSized(w);
    c := MerkleSoundness.EqualRootsDistinctKeys(sha, Listing(v), Listing(w));
    if c.None? {
      FromListing(Listing(v), v);
      FromListing(Listing(v), w);
    }
  }

  ghost function Restrict(m: Store, keys: set<Pubkey>): Store {
    map k | k in m && k in keys :: m[k]
  }

  lemma RestrictMore(base: Store, m: Store, keys: set<Pubkey>, k: Pubkey)
    requires k in m
    ensures base + Restrict(m, keys + {k}) == (base + Restrict(m, keys))[k := m[k]]
  {
  }

  method ListMap(m: Store) returns (list: seq<Account>)
    ensures multiset(list) == Values(m)
  {
    list := [];
    var rest := m;
    while rest.Keys != {}
      invariant multiset(list) + Values(rest) == Values(m)
      decreases |rest|
    {
      var k :| k in rest.Keys;
      Collections.ValueBagRemove(rest, k);
      list := list + [rest[k]];
      rest := rest - {k};
    }
    assert rest == map[];
  }

  /** The map built by an overlay's `all_accounts`: the parent's accounts by pubkey, then the dirty entries. */
  method OverrideListed(listed: seq<Account>, dirty: Store, ghost v: Store) returns (all: Store)
    requires WellKeyed(v) && multiset(listed) == Values(v)
    ensures all == v + dirty
  {
    all := map[];
    for i := 0 to |listed|
      invariant all == Serial.Dirty(listed[..i])
    {
      assert listed[..i + 1][..i] == listed[..i];
      all := all[listed[i].pubkey := listed[i]];
    }
    assert listed[..|listed|] == listed;
    FromListing(listed, v);
    var todo := dirty.Keys;
    while todo != {}
      invariant todo <= dirty.Keys && all == v + (map k | k in dirty.Keys - todo :: dirty[k])
    {
      var k :| k in todo;
      all := all[k := dirty[k]];
      todo := todo - {k};
    }
    assert (map k | k in dirty.Keys - todo :: dirty[k]) == dirty;
  }

  class AccountStore {
    /** The accounts of an in-memory store, or the dirty accounts of an overlay. */
    var entries: Store
    const parent: AccountStore?
    ghost const below: set<AccountStore>
    ghost const depth: nat

    constructor InMemory()
      ensures parent == null && entries == map[] && Chained()
    {
      entries, parent, below, depth := map[], null, {}, 0;
    }

    constructor Overlay(base: AccountStore)
      requires base.Chained()
      ensures parent == base && entries == map[] && Chained()
    {
      entries, parent, below, depth := map[], base, {base} + base.below, base.depth + 1;
    }

    constructor Holding(base: AccountStore, dirty: Store)
      requires base.Chained()
      ensures parent == base && entries == dirty && Chained()
    {
      entries, parent, below, depth := dirty, base, {base} + base.below, base.depth + 1;
    }

    ghost predicate Chained()
      decreases depth
    {
      && (forall o :: o in below ==> o.depth < depth)
      && if parent == null then below == {} else
           parent in below && below == {parent} + parent.below && parent.Chained()
    }

    /** What loads can see: the parent's view overridden by this store's own entries. */
    ghost function View(): Store
      requires Chained()
      reads this, below
      decreases depth
    {
      if parent == null then entries else parent.View() + entries
    }

    ghost predicate KeyedBelow()
      requires Chained()
      reads below
      decreases depth
    {
      parent != null ==> WellKeyed(parent.View()) && parent.KeyedBelow()
    }

    function Load(key: Pubkey): (r: Option<Account>)
      requires Chained()
      reads this, below
      ensures r == if key in View() then Some(View()[key]) else None
      decreases depth
    {
      if key in entries then Some(entries[key])
      else if parent == null then None
      else parent.Load(key)
    }

    method Put(key: Pubkey, account: Account)
      modifies this`entries
      ensures entries == old(entries)[key := account]
    {
      entries := entries[key := account];
    }

    method WriteThrough()
      requires Chained() && parent != null
      modifies parent`entries
      ensures entries == old(entries) && parent.entries == old(parent.entries) + entries
    {
      var dirty := entries;
      var todo := dirty.Keys;
      ghost var done := {};
      while todo != {}
        invariant todo <= dirty.Keys && done == dirty.Keys - todo && entries == dirty
        invariant parent.entries == old(parent.entries) + Restrict(dirty, done)
        decreases |todo|
      {
        var k :| k in todo;
        RestrictMore(old(parent.entries), dirty, done, k);
        parent.Put(k, dirty[k]);
        todo, done := todo - {k}, done + {k};
      }
      assert Restrict(dirty, done) == dirty;
    }

    /** Writes every dirty account through, in no particular order, then forgets them. */
    method Flush()
      requires Chained() && parent != null
      modifies this`entries, parent`entries
      ensures entries == map[] && parent.entries == old(parent.entries) + old(entries)
      ensures View() == old(View()) && parent.View() == old(View()) == old(parent.View()) + old(entries)
      ensures old(KeyedBelow()) ==> parent.KeyedBelow()
    {
      WriteThrough();
      entries := map[];
      if parent.parent == null {
        assert parent.View() == parent.entries;
      } else {
        ghost var deep := parent.parent.View();
        assert parent.View() == deep + parent.entries;
        assert deep + (old(parent.entries) + old(entries)) == (deep + old(parent.entries)) + old(entries);
      }
    }

    method AllAccounts() returns (list: seq<Account>)
      requires Chained() && KeyedBelow()
      ensures multiset(list) == Values(old(View()))
      decreases depth
    {
      if parent == null {
        list := ListMap(entries);
      } else {
        ghost var v := parent.View();
        assert WellKeyed(v);
        var listed := parent.AllAccounts();
        var all := OverrideListed(listed, entries, v);
        list := ListMap(all);
      }
    }

    method GetRootHash(sha: Merkle.Sha) returns (r: Result<Hash, string>)
      requires Chained() && KeyedBelow()
      ensures IsRoot(sha, old(View()), parent != null, r)
      ensures r.Err? <==> old(View()) == map[] && parent == null
      ensures r.Ok? ==> r.value == if old(View()) == map[] then Hash(ZERO32) else Hash(Merkle.Root(sha, Listing(old(View()))))
    {
      var list := AllAccounts();
      RootOfList(sha, list, old(View()));
      if list == [] && parent != null {
        return Ok(Hash(ZERO32));
      }
      r := Merkle.HashAccounts(sha, list);
    }
  }

  /** The root an overlay reported is the root its parent reports once the overlay is flushed. */
  method FlushThenRoot(o: AccountStore, sha: Merkle.Sha, before: Result<Hash, string>) returns (after: Result<Hash, string>)
    requires o.Chained() && o.KeyedBelow() && o.parent != null && WellKeyed(o.View()) && o.View() != map[]
    requires IsRoot(sha, o.View(), true, before)
    modifies o`entries, o.parent`entries
    ensures after == before
  {
    ghost var v := o.View();
    o.Flush();
    after := o.parent.GetRootHash(sha);
    SameRoot(sha, v, true, o.parent.parent != null, before, after);
  }

  // ----- committing a group's overlays

  ghost predicate Siblings(overlays: seq<AccountStore>, base: AccountStore) {
    && base.Chained()
    && (forall i :: 0 <= i < |overlays| ==> overlays[i].Chained() && overlays[i].parent == base)
    && (forall i, j :: 0 <= i < j < |overlays| ==> overlays[i] != overlays[j])
  }

  ghost function DirtyOf(overlays: seq<AccountStore>): seq<Store>
    reads overlays
  {
    seq(|overlays|, i requires 0 <= i < |overlays| reads overlays => overlays[i].entries)
  }

  /** `Committer::commit_overlays`: flush the overlays into their common parent in list order. */
  method CommitOverlays(overlays: seq<AccountStore>, base: AccountStore)
    requires Siblings(overlays, base)
    modifies overlays, base
    ensures base.View() == old(base.View()) + Serial.Merge(old(DirtyOf(overlays)))
    ensures forall i :: 0 <= i < |overlays| ==> overlays[i].entries == map[]
  {
    ghost var dirty := DirtyOf(overlays);
    for i := 0 to |overlays|
      invariant base.View() == old(base.View()) + Serial.Merge(dirty[..i])
      invariant forall j :: i <= j < |overlays| ==> overlays[j].entries == dirty[j]
      invariant forall j :: 0 <= j < i ==> overlays[j].entries == map[]
    {
      assert dirty[..i + 1] == dirty[..i] + [dirty[i]];
      Serial.MergeSnoc(dirty[..i], dirty[i]);
      ghost var v := base.View();
      overlays[i].Flush();
      Serial.OverrideAssoc(old(base.View()), Serial.Merge(dirty[..i]), dirty[i]);
    }
    assert dirty[..|overlays|] == dirty;
  }

  /** Overlays over `base` holding the given dirty maps. */
  method Stack(dirty: seq<Store>, base: AccountStore) returns (overlays: seq<AccountStore>)
    requires base.Chained()
    ensures Siblings(overlays, base) && |overlays| == |dirty|
    ensures forall i :: 0 <= i < |overlays| ==> fresh(overlays[i]) && overlays[i].entries == dirty[i]
  {
    overlays := [];
    for i := 0 to |dirty|
      invariant |overlays| == i && Siblings(overlays, base)
      invariant forall j :: 0 <= j < i ==> fresh(overlays[j]) && overlays[j].entries == dirty[j]
    {
      var o := new AccountStore.Holding(base, dirty[i]);
      overlays := overlays + [o];
    }
  }
}
