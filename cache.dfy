/** `EtcdDistributedCache`: the `IDistributedCache` operations expressed as calls on the etcd
    client. Each asynchronous method has the same contract as its synchronous twin and is
    modelled as a call to it: suspension and cancellation are not part of the model. */
module Cache {
  import opened Wrappers
  import opened Utf8
  import opened Options
  import opened Expiration
  import opened Store
  import opened Text

  /** The exceptions a cache operation lets escape: the overflow of `Convert.ToInt32`, or an
      RPC error of the client. */
  datatype CacheError = Conversion(cause: ConvertError) | Transport(rpc: StoreError)

  /** An RPC outcome as the caller of the cache sees it: the client's exception is not caught. */
  function Rethrow(call: Result<(), StoreError>): (r: Result<(), CacheError>)
    ensures r.Success? <==> call.Success?
    ensures r.Failure? ==> r.error == Transport(call.error)
  {
    match call
    case Success(_) => Success(())
    case Failure(e) => Failure(Transport(e))
  }

  class EtcdDistributedCache {
    const connectionString: string
    const client: KvStore    // `_etcdClient`, modelled by the cluster it talks to
    const metadata: Metadata // `_metadata`

    ghost predicate Valid()
      reads this, client
    {
      client.Valid()
    }

    /** Sets the two readonly fields once; only `Create` calls it, after the guard. */
    constructor (connectionString: string, client: KvStore, metadata: Metadata)
      ensures this.connectionString == connectionString
      ensures this.client == client && this.metadata == metadata
    {
      this.connectionString := connectionString;
      this.client := client;
      this.metadata := metadata;
    }

    /** The constructor `EtcdDistributedCache(EtcdOptions)`: the guard runs before the client is
        created, then authentication decides the metadata. `cluster` is what a client created from
        the connection string reaches. */
    static method Create(options: Option<EtcdOptions>, cluster: KvStore,
                         authenticate: (string, string) -> Option<string>)
      returns (r: Result<EtcdDistributedCache, InitError>)
      ensures ValidateOptions(options).Failure? ==> r == Failure(ValidateOptions(options).error)
      ensures ValidateOptions(options).Success? ==>
                (r.Failure? <==> AuthMetadata(options.value, authenticate).Failure?)
      ensures ValidateOptions(options).Success? && AuthMetadata(options.value, authenticate).Failure? ==>
                r == Failure(AuthenticationFailed)
      ensures r.Success? ==>
                && fresh(r.value)
                && r.value.client == cluster
                && options.Some? && options.value.connectionString == Some(r.value.connectionString)
                && r.value.metadata == AuthMetadata(options.value, authenticate).value
      ensures r.Success? && cluster.Valid() ==> r.value.Valid()
    {
      var connection := ValidateOptions(options);
      if connection.Failure? {
        return Failure(connection.error);
      }
      var md := AuthMetadata(options.value, authenticate);
      if md.Failure? {
        return Failure(md.error);
      }
      var cache := new EtcdDistributedCache(connection.value, cluster, md.value);
      r := Success(cache);
    }

    /** `Get`: the stored text as the client's `GetVal` returns it, decoded and trimmed of white
        space at both ends, re-encoded; null when the key is absent or that text is empty. */
    method Get(key: string) returns (r: Result<Option<seq<Byte>>, CacheError>)
      requires Valid()
      ensures r.Success? <==> client.Admits(metadata)
      ensures r.Failure? ==> r.error == Transport(AuthRejected)
      ensures r.Success? ==>
                (r.value.None? <==> key !in client.kvs || Trim(Decode(client.kvs[key].value)) == [])
      ensures r.Success? && r.value.Some? ==>
                && Utf8.Valid(r.value.value)
                && Decode(r.value.value) == Trim(Decode(client.kvs[key].value))
      ensures r.Success? && r.value.Some? && Utf8.Valid(client.kvs[key].value)
              && Untrimmed(Decode(client.kvs[key].value)) ==>
                r.value.value == client.kvs[key].value
    {
      // GetVal: the first returned value decoded as UTF-8 and trimmed, or the empty string
      var response := client.Range(key, metadata);
      if response.Failure? {
        return Failure(Transport(response.error));
      }
      var text := if response.value == [] then [] else Trim(Decode(response.value[0].value));
      if text == [] {
        r := Success(None);
      } else {
        DecodeEncode(text);
        var stored := client.kvs[key].value;
        if Utf8.Valid(stored) && Untrimmed(Decode(stored)) {
          TrimFixesUntrimmed(Decode(stored));
          EncodeDecode(stored);
        }
        r := Success(Some(Encode(text)));
      }
    }

    /** `GetAsync`: the same read as `Get`. */
    method GetAsync(key: string) returns (r: Result<Option<seq<Byte>>, CacheError>)
      requires Valid()
      ensures r.Success? <==> client.Admits(metadata)
      ensures r.Failure? ==> r.error == Transport(AuthRejected)
      ensures r.Success? ==>
                (r.value.None? <==> key !in client.kvs || Trim(Decode(client.kvs[key].value)) == [])
      ensures r.Success? && r.value.Some? ==>
                && Utf8.Valid(r.value.value)
                && Decode(r.value.value) == Trim(Decode(client.kvs[key].value))
      ensures r.Success? && r.value.Some? && Utf8.Valid(client.kvs[key].value)
              && Untrimmed(Decode(client.kvs[key].value)) ==>
                r.value.value == client.kvs[key].value
    {
      r := Get(key);
    }

    /** `Set`: select the TTL, grant one fresh lease with it, then write the value, decoded and
        re-encoded as UTF-8, attached to that lease. Nothing is sent when the TTL overflows. */
    method Set(key: string, value: seq<Byte>, options: CacheEntryOptions, now: int)
      returns (r: Result<(), CacheError>)
      requires Valid()
      modifies client
      ensures Valid()
      ensures r.Success? <==> LeaseTtl(options, now).Success? && client.Admits(metadata)
      ensures LeaseTtl(options, now).Failure? ==> r == Failure(Conversion(Overflow))
      ensures LeaseTtl(options, now).Success? && r.Failure? ==> r.error == Transport(AuthRejected)
      ensures r.Failure? ==> unchanged(client)
      ensures r.Success? ==>
                && client.leases == old(client.leases)[old(client.nextLease) := LeaseTtl(options, now).value]
                && client.nextLease == old(client.nextLease) + 1
                && client.kvs == old(client.kvs)[key := Entry(Encode(Decode(value)), old(client.nextLease))]
                && client.keepAlives == old(client.keepAlives)
    {
      var ttl := LeaseTtl(options, now);
      if ttl.Failure? {
        return Failure(Conversion(ttl.error));
      }
      var lease := client.LeaseGrant(ttl.value, metadata);
      if lease.Failure? {
        return Failure(Transport(lease.error));
      }
      var put := client.Put(key, Encode(Decode(value)), lease.value, metadata);
      r := Rethrow(put);
    }

    /** `SetAsync`: the same TTL selection, lease grant and write as `Set`. */
    method SetAsync(key: string, value: seq<Byte>, options: CacheEntryOptions, now: int)
      returns (r: Result<(), CacheError>)
      requires Valid()
      modifies client
      ensures Valid()
      ensures r.Success? <==> LeaseTtl(options, now).Success? && client.Admits(metadata)
      ensures LeaseTtl(options, now).Failure? ==> r == Failure(Conversion(Overflow))
      ensures LeaseTtl(options, now).Success? && r.Failure? ==> r.error == Transport(AuthRejected)
      ensures r.Failure? ==> unchanged(client)
      ensures r.Success? ==>
                && client.leases == old(client.leases)[old(client.nextLease) := LeaseTtl(options, now).value]
                && client.nextLease == old(client.nextLease) + 1
                && client.kvs == old(client.kvs)[key := Entry(Encode(Decode(value)), old(client.nextLease))]
                && client.keepAlives == old(client.keepAlives)
    {
      r := Set(key, value, options, now);
    }

    /** `Refresh` as written: the range read that discovers the lease carries no metadata, so
        on a cluster with authentication enabled it is refused before any keep-alive. Otherwise
        a missing key is a no-op, and a present key gets one keep-alive on the lease of the
        first returned entry, even when that is lease 0. */
    method Refresh(key: string) returns (r: Result<(), CacheError>)
      requires Valid()
      modifies client
      ensures Valid()
      ensures client.authEnabled ==> r == Failure(Transport(AuthRejected)) && unchanged(client)
      ensures !client.authEnabled && key !in old(client.kvs) ==> r == Success(()) && unchanged(client)
      ensures !client.authEnabled && key in old(client.kvs) ==>
                && r == Success(())
                && client.keepAlives == old(client.keepAlives) + [old(client.kvs)[key].lease]
                && client.kvs == old(client.kvs) && client.leases == old(client.leases)
                && client.nextLease == old(client.nextLease)
    {
      var keyResponse := client.Range(key, []);
      if keyResponse.Failure? {
        return Failure(Transport(keyResponse.error));
      }
      if keyResponse.value == [] {
        return Success(());
      }
      var leaseId := keyResponse.value[0].lease;
      var alive := client.LeaseKeepAlive(leaseId, metadata);
      r := Rethrow(alive);
    }

    /** `RefreshAsync` as written: the same calls as `Refresh`, with the same missing metadata. */
    method RefreshAsync(key: string) returns (r: Result<(), CacheError>)
      requires Valid()
      modifies client
      ensures Valid()
      ensures client.authEnabled ==> r == Failure(Transport(AuthRejected)) && unchanged(client)
      ensures !client.authEnabled && key !in old(client.kvs) ==> r == Success(()) && unchanged(client)
      ensures !client.authEnabled && key in old(client.kvs) ==>
                && r == Success(())
                && client.keepAlives == old(client.keepAlives) + [old(client.kvs)[key].lease]
                && client.kvs == old(client.kvs) && client.leases == old(client.leases)
                && client.nextLease == old(client.nextLease)
    {
      r := Refresh(key);
    }

    /** `Refresh` with the metadata attached to the range read as well, as every other call of
        the cache attaches it: an authenticated cache can then refresh its keys. */
    method RefreshWithMetadata(key: string) returns (r: Result<(), CacheError>)
      requires Valid()
      modifies client
      ensures Valid()
      ensures r.Success? <==> client.Admits(metadata)
      ensures r.Failure? ==> r.error == Transport(AuthRejected) && unchanged(client)
      ensures r.Success? && key !in old(client.kvs) ==> unchanged(client)
      ensures r.Success? && key in old(client.kvs) ==>
                && client.keepAlives == old(client.keepAlives) + [old(client.kvs)[key].lease]
                && client.kvs == old(client.kvs) && client.leases == old(client.leases)
                && client.nextLease == old(client.nextLease)
    {
      var keyResponse := client.Range(key, metadata);
      if keyResponse.Failure? {
        return Failure(Transport(keyResponse.error));
      }
      if keyResponse.value == [] {
        return Success(());
      }
      var leaseId := keyResponse.value[0].lease;
      var alive := client.LeaseKeepAlive(leaseId, metadata);
      r := Rethrow(alive);
    }

    /** `Remove`: deletes the key and leaves its lease alone. */
    method Remove(key: string) returns (r: Result<(), CacheError>)
      requires Valid()
      modifies client
      ensures Valid()
      ensures r.Success? <==> client.Admits(metadata)
      ensures r.Failure? ==> r.error == Transport(AuthRejected)
      ensures client.kvs == if r.Success? then old(client.kvs) - {key} else old(client.kvs)
      ensures client.leases == old(client.leases) && client.nextLease == old(client.nextLease)
      ensures client.keepAlives == old(client.keepAlives)
    {
      var deleted := client.Delete(key, metadata);
      r := Rethrow(deleted);
    }

    /** `RemoveAsync`: the same delete as `Remove`. */
    method RemoveAsync(key: string) returns (r: Result<(), CacheError>)
      requires Valid()
      modifies client
      ensures Valid()
      ensures r.Success? <==> client.Admits(metadata)
      ensures r.Failure? ==> r.error == Transport(AuthRejected)
      ensures client.kvs == if r.Success? then old(client.kvs) - {key} else old(client.kvs)
      ensures client.leases == old(client.leases) && client.nextLease == old(client.nextLease)
      ensures client.keepAlives == old(client.keepAlives)
    {
      r := Remove(key);
    }
  }
}
