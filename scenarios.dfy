/** Sequences of cache operations and what a caller can conclude about them from the contracts
    alone: the per-key life cycle absent -> present with a lease -> absent. */
module Scenarios {
  import opened Wrappers
  import opened Utf8
  import opened Options
  import opened Expiration
  import opened Store
  import opened Cache
  import opened Text

  /** Reading back a write: a well-formed value without outer white space comes back as written,
      an empty or all-white-space one comes back as null, and ill-formed UTF-8 never comes back
      as written. */
  method SetThenGet(cache: EtcdDistributedCache, key: string, value: seq<Byte>,
                    options: CacheEntryOptions, now: int)
    returns (got: Result<Option<seq<Byte>>, CacheError>)
    requires cache.Valid() && cache.client.Admits(cache.metadata) && LeaseTtl(options, now).Success?
    modifies cache.client
    ensures got.Success?
    ensures got.value.None? <==> Trim(Decode(value)) == []
    ensures got.value.Some? ==> got.value.value == Encode(Trim(Decode(value)))
    ensures value == [] || (forall k :: 0 <= k < |Decode(value)| ==> IsWhiteSpace(Decode(value)[k])) ==>
              got.value == None
    ensures Utf8.Valid(value) && value != [] && Untrimmed(Decode(value)) ==> got.value == Some(value)
    ensures !Utf8.Valid(value) ==> got.value != Some(value)
  {
    var written := cache.Set(key, value, options, now);
    ghost var text := Decode(value);
    assert cache.client.kvs[key].value == Encode(text);
    ReencodeIsStable(value);
    assert Decode(cache.client.kvs[key].value) == text;
    got := cache.Get(key);
    assert got.value.None? <==> Trim(text) == [];
    if got.value.Some? {
      EncodeDecode(got.value.value);
      assert got.value.value == Encode(Trim(text));
      TrimFixesUntrimmed(text);
      if Utf8.Valid(value) && Untrimmed(text) {
        EncodeDecode(value);
      }
      if !Utf8.Valid(value) {
        RoundTripIffValid(value);
      }
    } else {
      TrimFixesUntrimmed(text);
    }
  }

  /** A removed key reads as null, whether or not it was ever set, and no lease is revoked. */
  method RemoveThenGet(cache: EtcdDistributedCache, key: string)
    returns (got: Result<Option<seq<Byte>>, CacheError>)
    requires cache.Valid() && cache.client.Admits(cache.metadata)
    modifies cache.client
    ensures got == Success(None)
    ensures cache.client.leases == old(cache.client.leases)
  {
    var removed := cache.Remove(key);
    got := cache.Get(key);
  }

  /** A second `Remove` of the same key changes nothing more than the first one did. */
  method RemoveTwice(cache: EtcdDistributedCache, key: string)
    requires cache.Valid() && cache.client.Admits(cache.metadata)
    modifies cache.client
    ensures cache.client.kvs == old(cache.client.kvs) - {key}
    ensures cache.client.leases == old(cache.client.leases)
    ensures cache.client.nextLease == old(cache.client.nextLease)
    ensures cache.client.keepAlives == old(cache.client.keepAlives)
  {
    var first := cache.Remove(key);
    var second := cache.Remove(key);
  }

  /** Overwriting a key grants a second lease instead of reusing the first; the first lease stays
      in the lease table with no key attached to it. */
  method OverwriteOrphansLease(cache: EtcdDistributedCache, key: string, v1: seq<Byte>, v2: seq<Byte>,
                               o1: CacheEntryOptions, o2: CacheEntryOptions, now: int)
    requires cache.Valid() && cache.client.Admits(cache.metadata)
    requires LeaseTtl(o1, now).Success? && LeaseTtl(o2, now).Success?
    modifies cache.client
    ensures key in cache.client.kvs && cache.client.kvs[key].lease == old(cache.client.nextLease) + 1
    ensures old(cache.client.nextLease) in cache.client.leases
    ensures forall k :: k in cache.client.kvs ==> cache.client.kvs[k].lease != old(cache.client.nextLease)
  {
    var first := cache.Set(key, v1, o1, now);
    var second := cache.Set(key, v2, o2, now);
  }

  /** A key another writer stored without a lease is still refreshed: the keep-alive goes to
      lease 0. */
  method RefreshLeaselessKey(cache: EtcdDistributedCache, key: string, value: seq<Byte>)
    requires cache.Valid() && !cache.client.authEnabled
    modifies cache.client
    ensures cache.client.keepAlives == old(cache.client.keepAlives) + [NoLease]
  {
    var written := cache.client.Put(key, value, NoLease, []);
    var refreshed := cache.Refresh(key);
  }

  /** When the lease of a written key runs out, the key reads as null again. */
  method SetThenExpire(cache: EtcdDistributedCache, key: string, value: seq<Byte>,
                       options: CacheEntryOptions, now: int)
    returns (got: Result<Option<seq<Byte>>, CacheError>)
    requires cache.Valid() && cache.client.Admits(cache.metadata) && LeaseTtl(options, now).Success?
    modifies cache.client
    ensures got == Success(None)
  {
    var lease := cache.client.nextLease;
    var written := cache.Set(key, value, options, now);
    cache.client.ExpireLease(lease);
    got := cache.Get(key);
  }

  /** A cache built with credentials against a cluster with authentication enabled can write a
      key, but `Refresh` as written is refused on its range read and sends no keep-alive; the
      corrected refresh sends exactly one, on the key's lease. */
  method RefreshRejectedUnderAuthentication(cluster: KvStore, key: string, value: seq<Byte>,
                                            options: CacheEntryOptions, now: int,
                                            user: string, password: string, token: string)
    returns (written: Result<(), CacheError>, refreshed: Result<(), CacheError>,
             corrected: Result<(), CacheError>)
    requires cluster.Valid() && cluster.authEnabled && token in cluster.tokens
    requires user != [] && password != [] && LeaseTtl(options, now).Success?
    modifies cluster
    ensures written.Success?
    ensures refreshed == Failure(Transport(AuthRejected))
    ensures corrected.Success?
    ensures cluster.keepAlives == old(cluster.keepAlives) + [old(cluster.nextLease)]
  {
    var options' := EtcdOptions(Some("http://localhost:2379"), Some(user), Some(password));
    var created := EtcdDistributedCache.Create(Some(options'), cluster, (u, p) => Some(token));
    var cache := created.value;
    assert cache.metadata == [Header("token", token)];
    assert cache.client.Admits(cache.metadata) by {
      assert cache.metadata[0].key == "token" && cache.metadata[0].value in cluster.tokens;
    }
    written := cache.Set(key, value, options, now);
    refreshed := cache.Refresh(key);
    corrected := cache.RefreshWithMetadata(key);
  }
}
