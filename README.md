# EtcdDistributedCache, modelled in Dafny

`EtcdDistributedCache` implements the `IDistributedCache` contract (get, set, refresh and remove of
byte payloads under string keys) on top of etcd. etcd only stores key/value pairs and leases, so
the cache turns an entry's expiration options into the TTL of a freshly granted lease, writes the
key attached to that lease, refreshes an entry by sending one keep-alive to the lease it finds on
the key, and removes an entry by deleting the key. The constructor validates its `EtcdOptions` and,
when a user name and a password are both configured, authenticates once and keeps the returned
token as call metadata.

The model has seven modules:

- `Wrappers`: `Option` for null references, `Result` for exceptions that escape.
- `Utf8`: the UTF-8 encoding of RFC 3629 and a lossy decoder that replaces each maximal ill-formed
  subpart with U+FFFD, as `Encoding.UTF8.GetString` does. The cache passes every payload through
  a decode and a re-encode, so the codec decides what a read gives back.
- `Expiration`: the selection of the lease TTL from the three optional expiration fields, over
  integer ticks (100 ns) with the clock reading `now` as a parameter, and `Convert.ToInt32`'s
  round-half-to-even conversion of seconds with its overflow.
- `Text`: `String.Trim()`, which the client's `GetVal` applies to the decoded value before the
  cache sees it.
- `Options`: the constructor's guard and its decision on the authentication metadata.
- `Store`: the etcd cluster behind the client, as a class holding the key map (value and lease per
  key), the lease table (lease ID to granted TTL), the counter lease IDs are issued from, and the
  list of keep-alives received. When authentication is enabled it refuses calls that carry no
  valid token.
- `Cache`: the class `EtcdDistributedCache`, with one method per synchronous and asynchronous
  operation. `Scenarios` then strings operations together and proves what a caller sees.

Behaviour that is easy to get wrong and that the model follows from the code:

- When several expiration fields are set, the last one the code tests wins. RelativeToNow beats
  Sliding, and Sliding beats `Absolute - now`. With none set, the TTL is 0.
- Seconds are rounded half to even, not truncated. Nothing is clamped: an absolute expiry in the
  past gives a TTL of 0 or less, and a value outside the 32-bit range throws before any call.
- Payload bytes are not carried through unchanged. Ill-formed UTF-8 is stored as its re-encoding,
  white space at either end of the text is trimmed on the way back, and an empty or
  all-white-space payload reads back as null.

## Model

| member | source | states |
|---|---|---|
| `Options.ValidateOptions` | EtcdCache/EtcdDistributedCache.cs:21-29 | construction fails with the null-options error when options is null and with the connection-string error when it is null or empty; otherwise it yields the non-empty connection string |
| `Options.Credentials` | EtcdCache/EtcdDistributedCache.cs:33 | credentials are used exactly when both user name and password are non-empty |
| `Options.AuthMetadata` | EtcdCache/EtcdDistributedCache.cs:33-45 | with credentials the metadata is the single `token` entry from the authentication exchange, and a failed exchange fails construction; without credentials it is empty |
| `Options.MetadataShape` | EtcdCache/EtcdDistributedCache.cs:33-45 | the metadata is non-empty exactly when both credentials are non-empty, and then holds one entry, named `token` |
| `Cache.EtcdDistributedCache.Create` | EtcdCache/EtcdDistributedCache.cs:19-46 | the guard's failures are returned before any cache or client exists; a failed authentication is returned as that error; on success the cache talks to the given cluster with the metadata the auth decision gives, and is valid whenever the cluster is |
| `Cache.EtcdDistributedCache.constructor` | EtcdCache/EtcdDistributedCache.cs:31 | the readonly client and metadata are set once |
| `Expiration.ExpiryTicks` | EtcdCache/EtcdDistributedCache.cs:144-161 | the sequential overwrite of `expiryTime` equals the duration of the tagged policy chosen by precedence RelativeToNow, Sliding, Absolute, none |
| `Expiration.RoundHalfEven` | EtcdCache/EtcdDistributedCache.cs:166 | the result is within half a second of the duration, and on an exact tie it is even |
| `Expiration.RoundHalfEvenUnique` | EtcdCache/EtcdDistributedCache.cs:166 | those two properties determine the rounded value |
| `Expiration.RoundHalfEvenMonotone` | EtcdCache/EtcdDistributedCache.cs:166 | a longer duration never rounds to a shorter TTL |
| `Expiration.LeaseTtl` | EtcdCache/EtcdDistributedCache.cs:163-166 | the TTL passed to the lease grant is the precedence-chosen policy's duration rounded half to even, and it overflows exactly when that rounded value leaves the 32-bit range; the precedence lemmas below are stated about this composition |
| `Expiration.ToInt32` | EtcdCache/EtcdDistributedCache.cs:166 | the conversion succeeds exactly when the rounded seconds fit in 32 bits, and then returns them; otherwise it overflows |
| `Expiration.NoFieldGivesZeroTtl` | EtcdCache/EtcdDistributedCache.cs:144 | with no field set the lease TTL is 0 |
| `Expiration.RelativeToNowWins` | EtcdCache/EtcdDistributedCache.cs:158-161 | a set RelativeToNow decides the TTL whatever the other fields hold |
| `Expiration.SlidingBeatsAbsolute` | EtcdCache/EtcdDistributedCache.cs:153-156 | without RelativeToNow, a set Sliding decides the TTL over Absolute |
| `Expiration.PastAbsoluteIsNotPositive` | EtcdCache/EtcdDistributedCache.cs:146-151 | an absolute expiry at or before now gives a TTL of 0 or less, never a clamped positive one |
| `Expiration.RoundingExamples` | EtcdCache/EtcdDistributedCache.cs:166 | 0.4 s gives 0, 0.6 s gives 1, 0.5 s gives 0, 1.5 s and 2.5 s give 2, -1.5 s gives -2 |
| `Expiration.SlidingExamples` | EtcdCache/EtcdDistributedCache.cs:153-166 | a 30 s sliding expiration asks for a 30 s lease; 2^31 s overflows |
| `Utf8.EncodeScalar` | EtcdCache/EtcdDistributedCache.cs:174 | a scalar value takes one to four bytes |
| `Utf8.Encode` | EtcdCache/EtcdDistributedCache.cs:174 | the bytes of a text are at least as many and at most four times as many as its scalar values; its meaning is fixed by `Utf8.DecodeEncode` and `Utf8.RoundTripIffValid` |
| `Utf8.Decode` | EtcdCache/EtcdDistributedCache.cs:174 | decoding never lengthens, and it gives empty text exactly for empty bytes |
| `Utf8.DecodeStepOfEncoded` | EtcdCache/EtcdDistributedCache.cs:174 | the bytes of one scalar value decode in one well-formed step to that value |
| `Utf8.EncodedOfDecodeStep` | EtcdCache/EtcdDistributedCache.cs:174 | a well-formed step consumed exactly the encoding of the value it produced |
| `Utf8.DecodeEncode` | EtcdCache/EtcdDistributedCache.cs:57 | encoding then decoding gives the text back, and encoded bytes are well-formed |
| `Utf8.EncodeDecode` | EtcdCache/EtcdDistributedCache.cs:174 | decoding then encoding gives well-formed bytes back unchanged |
| `Utf8.RoundTripIffValid` | EtcdCache/EtcdDistributedCache.cs:174 | a decode and re-encode preserves the bytes if and only if they are well-formed UTF-8 |
| `Utf8.ReencodeIsStable` | EtcdCache/EtcdDistributedCache.cs:174 | the re-encoded bytes are well-formed and decode to the same text, so a second pass changes nothing |
| `Utf8.InvalidByteIsReplaced` | EtcdCache/EtcdDistributedCache.cs:174 | the ill-formed byte 0xFF is stored as the three bytes of U+FFFD |
| `Text.TrimStart` | EtcdCache/EtcdDistributedCache.cs:55 | the result is the suffix left after dropping leading white space, every dropped character is white space, and the result does not start with white space |
| `Text.TrimEnd` | EtcdCache/EtcdDistributedCache.cs:55 | the result is the prefix left after dropping trailing white space, every dropped character is white space, and the result does not end with white space |
| `Text.Trim` | EtcdCache/EtcdDistributedCache.cs:55 | the result is the slice of the text left after dropping leading and trailing white space: everything dropped on either side is white space, and the result has none at either end |
| `Text.TrimIsUnique` | EtcdCache/EtcdDistributedCache.cs:55 | any slice with only white space outside it and none at its own ends is the trimmed text, so `Trim`'s contract determines its result |
| `Text.TrimFixesUntrimmed` | EtcdCache/EtcdDistributedCache.cs:55 | text without outer white space is left unchanged, and all-white-space text becomes empty |
| `Store.KvStore.Range` | EtcdCache/EtcdDistributedCache.cs:80-83 | a range read returns the key's entry, with its lease, or nothing; unauthenticated calls are refused under authentication |
| `Store.KvStore.Put` | EtcdCache/EtcdDistributedCache.cs:170-176 | a write replaces only that key, attached to the given lease; an unknown lease is refused |
| `Store.KvStore.Delete` | EtcdCache/EtcdDistributedCache.cs:123 | a delete removes only that key, and an absent key is no error |
| `Store.KvStore.LeaseGrant` | EtcdCache/EtcdDistributedCache.cs:163-168 | a grant issues the next, never used, lease ID with the requested TTL and changes no key |
| `Store.KvStore.LeaseKeepAlive` | EtcdCache/EtcdDistributedCache.cs:89-92 | a keep-alive records its lease ID, whatever it is, and changes nothing else |
| `Store.KvStore.ExpireLease` | EtcdCache/EtcdDistributedCache.cs:163-168 | when a lease runs out it leaves the table together with every key attached to it |
| `Cache.Rethrow` | EtcdCache/EtcdDistributedCache.cs:170-176 | an RPC error is passed to the caller unchanged |
| `Cache.EtcdDistributedCache.Get` | EtcdCache/EtcdDistributedCache.cs:53-58 | the result is null exactly when the key is absent or its decoded, trimmed value is empty; otherwise it is well-formed UTF-8 holding that trimmed text, and equals the stored bytes when those are well-formed and have no outer white space |
| `Cache.EtcdDistributedCache.GetAsync` | EtcdCache/EtcdDistributedCache.cs:66-72 | the same result as `Get`, by calling it |
| `Cache.EtcdDistributedCache.Set` | EtcdCache/EtcdDistributedCache.cs:142-177 | an overflowing TTL throws before any call; otherwise exactly one new lease with the selected TTL is granted and the key, and only it, is written with that lease and the re-encoded value; other keys, other leases and keep-alives are unchanged |
| `Cache.EtcdDistributedCache.SetAsync` | EtcdCache/EtcdDistributedCache.cs:186-224 | the same TTL, lease and write as `Set`, by calling it |
| `Cache.EtcdDistributedCache.Refresh` | EtcdCache/EtcdDistributedCache.cs:78-93 | without authentication: a missing key changes nothing, a present key gets exactly one keep-alive on its entry's lease, lease 0 included, and nothing else changes; with authentication the metadata-less range read is refused and nothing changes |
| `Cache.EtcdDistributedCache.RefreshAsync` | EtcdCache/EtcdDistributedCache.cs:100-115 | the same outcome as `Refresh`, by calling it: its range read at :102-105 lacks the metadata too |
| `Cache.EtcdDistributedCache.RefreshWithMetadata` | EtcdCache/EtcdDistributedCache.cs:80-92 | with the metadata also on the range read, an admitted cache refreshes as above whether or not authentication is enabled |
| `Cache.EtcdDistributedCache.Remove` | EtcdCache/EtcdDistributedCache.cs:121-124 | the key is deleted; the lease table, lease counter and keep-alives are untouched |
| `Cache.EtcdDistributedCache.RemoveAsync` | EtcdCache/EtcdDistributedCache.cs:131-134 | the same effect as `Remove`, by calling it |
| `Scenarios.SetThenGet` | EtcdCache/EtcdDistributedCache.cs:170-176 | a read after a write returns the re-encoding of the trimmed text, null exactly when that text is empty (so for an empty or all-white-space value); a non-empty well-formed value without outer white space comes back as written, and ill-formed bytes never do |
| `Scenarios.RemoveThenGet` | EtcdCache/EtcdDistributedCache.cs:121-124 | a removed key, set or not before, reads as null, and no lease is revoked |
| `Scenarios.RemoveTwice` | EtcdCache/EtcdDistributedCache.cs:121-124 | a second remove changes nothing beyond the first |
| `Scenarios.OverwriteOrphansLease` | EtcdCache/EtcdDistributedCache.cs:163-176 | overwriting a key grants a new lease; the old lease stays granted with no key attached |
| `Scenarios.RefreshLeaselessKey` | EtcdCache/EtcdDistributedCache.cs:87-92 | a key stored without a lease still gets a keep-alive, for lease 0 |
| `Scenarios.SetThenExpire` | EtcdCache/EtcdDistributedCache.cs:163-176 | once the lease of a written key runs out, the key reads as null |
| `Scenarios.RefreshRejectedUnderAuthentication` | EtcdCache/EtcdDistributedCache.cs:80-83 | an authenticated cache writes successfully, `Refresh` is then refused and sends no keep-alive, and the corrected refresh sends exactly one |

## Findings

| source | as written | input that shows it | evidently intended | confidence | as-written member | corrected member |
|---|---|---|---|---|---|---|
| EtcdCache/EtcdDistributedCache.cs:80-83 | the range read that discovers the lease is sent without `_metadata` (the same at :102-105), while every other call carries it | a cluster with authentication enabled, a cache built with a valid user name and password, `Set(k, v, o)`, then `Refresh(k)` | attach `_metadata` to the range read, so that an authenticated cache can refresh its keys | medium, not executed; etcd refuses a range request without a user name when authentication is enabled | `Cache.EtcdDistributedCache.Refresh` (shown by `Scenarios.RefreshRejectedUnderAuthentication`) | `Cache.EtcdDistributedCache.RefreshWithMetadata` |

## Left out

- Async and cancellation: each `...Async` method is modelled as a sequential method with the same contract as its synchronous twin. `CancellationToken`, the `.Wait()` of `Refresh` and the wrapping of exceptions it causes are not modelled. A cancelled `SetAsync` between grant and write can still be read off `Set`'s steps, which grant before they write.
- Floating point: `TotalSeconds` is a `double`. The model divides the exact tick count by 10^7. For durations large enough that the `double` loses precision, `Convert.ToInt32` may see a slightly different value than the model.
- The clock: `DateTimeOffset.UtcNow` is the parameter `now`, in ticks.
- The option setters of `DistributedCacheEntryOptions` reject non-positive durations; that check belongs to the framework, and the model accepts any tick values.
- The etcd client library and gRPC are not part of this model. Calls reach the cluster model directly. RPC failures other than a refused authentication and an unknown lease are not modelled.
- Cache.EtcdDistributedCache.Set: null keys, values and options are excluded by the parameter types, as the C# signatures declare them non-nullable. In the source, a null key or value throws `ArgumentNullException` only at :173-174, after the lease grant at :163-168 has returned, so that lease is orphaned and nothing is written; `Set`'s `r.Failure? ==> unchanged(client)` does not cover that path. A null `options` throws at :146 before any call. The same holds for `SetAsync`.
- Cache.EtcdDistributedCache.Get: the client library's `GetVal` is not part of this model. It is taken to return the first returned value decoded as UTF-8 and trimmed with `String.Trim()`, or the empty string when the key is absent. Get's equality with the stored bytes, and that of `Scenarios.SetThenGet`, is claimed only for values without leading or trailing white space.
- Store.KvStore.constructor: an empty cluster, available to callers that need a starting state. The cache never creates a cluster: `Create` takes an existing one, which may already hold keys and leases.
- Authentication is reduced to one rule: with authentication enabled, a call needs a `token` entry holding a token the cluster issued. etcd's per-key permissions and its exemptions for some lease calls are not modelled. The `Authenticate` exchange is the parameter `authenticate`, whose `None` stands for the exception it throws.
- Keys are compared as strings. Their own UTF-8 encoding by `ByteString.CopyFromUtf8` is not modelled, so distinct strings that encode to the same bytes, which needs lone surrogates, are not identified.
- Time in the cluster: a lease's countdown, what a keep-alive does to it, and etcd's minimum TTL are not modelled. A lease records the TTL it was requested with; a keep-alive is recorded, not applied; and expiry is the explicit step `Store.KvStore.ExpireLease`.
- Lease IDs are unbounded integers, not 64-bit.
- EtcdCache/EtcdDistributedCacheExtensions.cs (dependency-injection registration) is not part of this model. EtcdCache/EtcdOptions.cs is folded into the datatype `Options.EtcdOptions`.
