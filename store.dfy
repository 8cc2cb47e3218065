/** The etcd cluster as the cache reaches it through its client: a map from keys to values with
    the lease each one is attached to, a lease table, the counter from which lease IDs are
    issued, and the keep-alive requests received so far. Authentication is reduced to one rule:
    when it is enabled, a call must carry a `token` entry holding a token the cluster issued. */
module Store {
  import opened Wrappers
  import opened Utf8
  import opened Options

  type LeaseId = int

  /** The lease ID etcd uses for "no lease". */
  const NoLease: LeaseId := 0

  /** What the cluster holds under a key. */
  datatype Entry = Entry(value: seq<Byte>, lease: LeaseId)

  /** One item of a range response, etcd's `KeyValue`. */
  datatype KeyValue = KeyValue(key: string, value: seq<Byte>, lease: LeaseId)

  /** The RPC errors the model distinguishes. `AuthRejected` stands for every refusal by
      authentication: etcd's "user name is empty" for a request without a token and its
      invalid-token error alike. `LeaseNotFound` is a put naming a lease that was never granted
      or has expired. */
  datatype StoreError = AuthRejected | LeaseNotFound

  class KvStore {
    const authEnabled: bool
    const tokens: set<string>
    var kvs: map<string, Entry>
    var leases: map<LeaseId, int>  // lease ID -> TTL in seconds it was granted with
    var nextLease: LeaseId
    var keepAlives: seq<LeaseId>   // the lease ID of every keep-alive received, oldest first

    /** Issued lease IDs are positive and below the counter; a key is attached to no lease or
        to one in the lease table. */
    ghost predicate Valid()
      reads this
    {
      && nextLease >= 1
      && (forall id :: id in leases ==> 1 <= id < nextLease)
      && (forall k :: k in kvs ==> kvs[k].lease == NoLease || kvs[k].lease in leases)
    }

    /** Whether a call carrying these headers is let through. */
    predicate Admits(headers: Metadata) {
      !authEnabled ||
      exists i :: 0 <= i < |headers| && headers[i].key == "token" && headers[i].value in tokens
    }

    constructor (authEnabled: bool, tokens: set<string>)
      ensures Valid()
      ensures this.authEnabled == authEnabled && this.tokens == tokens
      ensures kvs == map[] && leases == map[] && keepAlives == []
    {
      this.authEnabled := authEnabled;
      this.tokens := tokens;
      kvs := map[];
      leases := map[];
      nextLease := 1;
      keepAlives := [];
    }

    /** A range request for one key: its entry if there is one, else an empty list. */
    method Range(key: string, headers: Metadata) returns (r: Result<seq<KeyValue>, StoreError>)
      ensures !Admits(headers) ==> r == Failure(AuthRejected)
      ensures Admits(headers) && key !in kvs ==> r == Success([])
      ensures Admits(headers) && key in kvs ==>
                r == Success([KeyValue(key, kvs[key].value, kvs[key].lease)])
    {
      if !Admits(headers) {
        return Failure(AuthRejected);
      }
      if key in kvs {
        r := Success([KeyValue(key, kvs[key].value, kvs[key].lease)]);
      } else {
        r := Success([]);
      }
    }

    /** Writes a key attached to a lease; a lease that is neither `NoLease` nor granted is refused. */
    method Put(key: string, value: seq<Byte>, lease: LeaseId, headers: Metadata) returns (r: Result<(), StoreError>)
      requires Valid()
      modifies this
      ensures Valid()
      ensures !Admits(headers) ==> r == Failure(AuthRejected)
      ensures Admits(headers) && lease != NoLease && lease !in old(leases) ==> r == Failure(LeaseNotFound)
      ensures Admits(headers) && (lease == NoLease || lease in old(leases)) ==> r == Success(())
      ensures kvs == if r.Success? then old(kvs)[key := Entry(value, lease)] else old(kvs)
      ensures leases == old(leases) && nextLease == old(nextLease) && keepAlives == old(keepAlives)
    {
      if !Admits(headers) {
        return Failure(AuthRejected);
      }
      if lease != NoLease && lease !in leases {
        return Failure(LeaseNotFound);
      }
      kvs := kvs[key := Entry(value, lease)];
      r := Success(());
    }

    /** Deletes a key; deleting an absent key succeeds and changes nothing. */
    method Delete(key: string, headers: Metadata) returns (r: Result<(), StoreError>)
      requires Valid()
      modifies this
      ensures Valid()
      ensures r.Success? <==> Admits(headers)
      ensures r.Failure? ==> r.error == AuthRejected && unchanged(this)
      ensures kvs == if r.Success? then old(kvs) - {key} else old(kvs)
      ensures leases == old(leases) && nextLease == old(nextLease) && keepAlives == old(keepAlives)
    {
      if !Admits(headers) {
        return Failure(AuthRejected);
      }
      kvs := kvs - {key};
      r := Success(());
    }

    /** Grants a fresh lease with the requested TTL, recorded as requested. */
    method LeaseGrant(ttl: int, headers: Metadata) returns (r: Result<LeaseId, StoreError>)
      requires Valid()
      modifies this
      ensures Valid()
      ensures r.Success? <==> Admits(headers)
      ensures r.Failure? ==> r.error == AuthRejected && unchanged(this)
      ensures r.Success? ==> r.value == old(nextLease) && r.value !in old(leases) && r.value != NoLease
      ensures leases == if r.Success? then old(leases)[old(nextLease) := ttl] else old(leases)
      ensures nextLease == if r.Success? then old(nextLease) + 1 else old(nextLease)
      ensures kvs == old(kvs) && keepAlives == old(keepAlives)
    {
      if !Admits(headers) {
        return Failure(AuthRejected);
      }
      r := Success(nextLease);
      leases := leases[nextLease := ttl];
      nextLease := nextLease + 1;
    }

    /** One keep-alive request for a lease ID, whatever that ID is. */
    method LeaseKeepAlive(id: LeaseId, headers: Metadata) returns (r: Result<(), StoreError>)
      requires Valid()
      modifies this
      ensures Valid()
      ensures r.Success? <==> Admits(headers)
      ensures r.Failure? ==> r.error == AuthRejected && unchanged(this)
      ensures keepAlives == if r.Success? then old(keepAlives) + [id] else old(keepAlives)
      ensures kvs == old(kvs) && leases == old(leases) && nextLease == old(nextLease)
    {
      if !Admits(headers) {
        return Failure(AuthRejected);
      }
      keepAlives := keepAlives + [id];
      r := Success(());
    }

    /** The cluster's own step when a lease runs out: the lease goes, and every key attached to it. */
    method ExpireLease(id: LeaseId)
      requires Valid() && id in leases
      modifies this
      ensures Valid()
      ensures leases == old(leases) - {id}
      ensures kvs == map k | k in old(kvs) && old(kvs)[k].lease != id :: old(kvs)[k]
      ensures nextLease == old(nextLease) && keepAlives == old(keepAlives)
    {
      leases := leases - {id};
      kvs := map k | k in kvs && kvs[k].lease != id :: kvs[k];
    }
  }
}
