# A model of the Nance accelerator's proxy and of the store it authenticates against

The accelerator is a MongoDB wire-protocol proxy with a read-through cache. This project models its small
state machines in Dafny and proves what each of them is for.

- **Wire codec** (`Bytes`, `WireHeader`, `WireMsg`, `WireLaws`): OP_MSG framing and parsing, against an independent
  grammar of sections and byte by byte. The framing is that of the MongoDB Wire Protocol ("Standard Message Header", "OP_MSG"); a document is
  known by its length prefix, as in the `document` production of BSON 1.1.
- **Authentication** (`Store`, `Services`, `Auth`, `AuthSafety`): the control-plane store with its cascades, the
  services that guard it, the validator whose cache is only partly re-checked on a hit, and who may log in after any
  history of calls.
- **Query cache** (`NormalForm`, `CacheKeys`, `CacheStore`, `Command`, `Coherence`, `StaleReads`, `CacheLaws`): the
  normal form of commands, the keys, the per-collection registries under concurrent writers, the handler's
  read-through and flush-on-write path, exactly when its hits are current, and what enters, is served from and leaves
  the cache.
- **Organisations** (`Org`, `OrgAuthority`): creation, invites, acceptance and removal, up to the last owner, and where
  every role comes from.
- **Cursors** (`CachedCursor`, `CursorRuns`, `CursorScopes`, `CursorRegistry`, `RegistryRuns`, `RegistryScopes`):
  emulated cursors under a byte budget and backend cursors, their delivery and to whom, their accounting and their
  closing.
- **Resources** (`Limiter`, `LimiterRuns`, `Pool`, `PoolRuns`, `ServerConns`): token buckets, the reference-counted
  client pool with coalesced creation, and per-tenant connection counts.
- `MapSum`, `Text` and `Wrappers` hold what the others share.

Objects whose methods update them are classes; each method is proved equal to a function (or contained in a
relation) of the old state, and the theorems are about runs of those functions. Where goroutines interleave, the
critical sections of the same functions become the steps of a transition system with one program counter per
goroutine. The modules whose names end in Laws, Safety, Authority or Scopes say what those functions mean on the fields
of rows and cursors, on the bytes of messages and on the names in commands, or on the history of calls and replies
alone.

## Assumptions

- SHA-256 is injective; its hexadecimal form is not empty and contains neither `:` nor NUL. A serialised BSON value
  is self-delimiting. bcrypt is an arbitrary match relation. Both functions are parameters of the theorems.
- The random source yields connection ids, token ids and invite ids that are not in use, and raw secrets that no stored
  row matches. Token ids are never reissued.
- Clocks are inputs. They do not go back in the organisation and limiter runs; the authentication, cache, cursor and
  pool theorems hold for any clock.
- A backend's reply to a read is a function of backend, database, one collection, lower-cased command name, the
  normal form of the command it is sent, and that collection's contents; the coherence theorems are relative to this.
  (The normal form also drops volatile names below the top level, and an aggregation may read other collections.)
  Data changes only through this proxy. What a command changes is decided by the server and never by how the proxy
  classifies the command: a find, count or distinct, and an aggregation without an output stage, change nothing; the
  server's writing commands (`Coherence.WRITING`) change the collection they name; what any other command changes, and
  what a writing command changes beside, in any collection of its backend, is arbitrary as far as the usage in question
  allows it, and so is whether a write that reports an error has been applied.
- Sessions in the coherence theorems are those that authentication hands out: the connection belongs to the tenant.
  Their connections exist and have auto-invalidation on throughout. Names are ones the key format keeps apart: no `}` in tenant
  ids (`Org.SlugIsClean` gives this for ids made or checked by CreateOrganization; TenantService.Create does not
  check), no `:` in connection ids, no `.` in database names.
- Each step of an interleaving is one critical section, or one atomic load or add. In the emulated cursor store the
  removal of an entry and the subtraction of its bytes, both made under the lock, are one step.
- Arithmetic of the limiter is over the reals; Go's `int` is taken as 64 bits wide and ids as unbounded.

## Where the code and its own words differ

- The list of volatile keys is documented as top level; `normalizeValue` applies it at every depth
  (`apps/accelerator/internal/proxy/cache/key.go:14-15`, `apps/accelerator/internal/proxy/cache/key.go:72-75`). The model follows the code.
- A cached read is meant to be invalidated by writes. `StaleReads.CoherentExactlyWhenCareful` states exactly when every
  hit is current, under the assumptions above; six things break it, each shown by runs. `maybeAutoInvalidateOnWrite`
  receives a name that has already lost the cache suffix and strips it again, so a write to `x_cache_cache` (the
  backend's `x_cache`) flushes `x`. Commands classified as other (convertToCapped, mapReduce) and aggregations with a
  writing stage are forwarded and flush nothing, and writes such as renameCollection flush only the name they carry.
  A write concern error, or a timeout after the write was applied, is answered with ok:0, and then nothing is flushed.
  Two connections may carry the URI of one backend, and a write flushes the writer's only. A connection's URI may be
  changed, and nothing is flushed. Document sequences are merged into the command that the backend gets and not into
  the one that is hashed.
- The server prunes the limiter with 30 minutes (`apps/accelerator/internal/proxy/server/server.go:146`). Pruning is unnoticeable,
  and the window bound holds, exactly when 1800 times the rate is at least the burst
  (`LimiterRuns.TransparentExactlyWhenPatient`, `LimiterRuns.BoundedExactlyWhenPatient`); the configuration does not check this.
- An organisation id is said to have 3 to 64 characters; the expression also accepts one
  (`apps/accelerator/internal/controlplane/service/org_service.go:44`).
- The in-memory store does not enforce the foreign key from invites to tenants that the database schema has.
  `Org.OwnersKeptExactlyWithoutSlugs` states which missing organisations may be named without harm.
- `Release` is documented as the partner of `Get`; when a creation flight is shared, one reference stands for several
  callers. `PoolRuns.ExactExactlyWhenUnshared` and `PoolRuns.SafeExactlyWhenExact` state when counts and held clients
  go wrong.
- Logging out sets the connection's tenant to nil while the deferred gauge update of the same message still reads it
  (`apps/accelerator/internal/proxy/handler/handler.go:141-144`, `apps/accelerator/internal/proxy/server/server.go:305-313`),
  and nothing recovers: in the code as written an authenticated connection does not survive a logout. The model of
  `ServerConns` lets it go on, so its theorems cover more runs than the code has.

## Model

| member | source | states |
|---|---|---|
| WireMsg.AcceptsExactlyTheGrammar | apps/accelerator/internal/proxy/wire/msg.go:31-123 | The OP_MSG parser returns a message for a byte string if and only if that string is the encoding, by an independent specification encoder, of some list of sections with at least one body, in any order, with or without checksum, that means that message |
| WireMsg.ParserInvertsEncoder | apps/accelerator/internal/proxy/wire/msg.go:52-123 | For every such list the body, the sequences in order, the flags and the checksum are recovered exactly |
| WireMsg.AcceptedIsGrammatical | apps/accelerator/internal/proxy/wire/msg.go:48-121 | Whatever is accepted, its sections tile the payload from offset 4 to the payload's end, and every document's length is its own little-endian prefix |
| WireMsg.ReadOneFrames | apps/accelerator/internal/proxy/wire/msg.go:31-50 | Header and body together consume exactly the announced bytes, whatever follows them and whether or not the body is accepted |
| WireMsg.WriteReadRoundTrip | apps/accelerator/internal/proxy/wire/msg.go:125-151 | A written reply is read back with its own request id, the id it answers, no flags and its body, and the stream is left at the next message, if and only if the body is a document whose length prefix is its length |
| WireMsg.ReadMsg | apps/accelerator/internal/proxy/wire/msg.go:31-123 | On every header and every stream the index-based reader terminates within bounds and gives the specification's outcome, including each error, and leaves the same rest of the stream |
| WireMsg.ParseLoop | apps/accelerator/internal/proxy/wire/msg.go:68-115 | The section loop computes what the recursive section grammar says |
| WireMsg.ParseSequence | apps/accelerator/internal/proxy/wire/msg.go:81-111 | A document sequence yields identifier and documents, or the error, that the grammar says |
| WireMsg.WriteMsg | apps/accelerator/internal/proxy/wire/msg.go:125-151 | Appends a header whose first word is the length of the whole message, whose second and third are the given request id and the id it answers, with opcode 2013, then zero flags and one body section with the document |
| WireMsg.ReplyLayout | apps/accelerator/internal/proxy/wire/msg.go:125-151 | The bytes of a reply: message length, request id, id answered and opcode 2013 where DecodeHeader finds them, five zero bytes, the document |
| WireLaws.AcceptedExactly | apps/accelerator/internal/proxy/wire/msg.go:48-123 | In arithmetic on the bytes: a message is accepted if and only if sections tile what stands between the flag word and the checksum, which is there exactly when the lowest flag bit is set; its body is the last kind 0 section and its sequences are the kind 1 sections in order |
| WireLaws.SectionLayout | apps/accelerator/internal/proxy/wire/msg.go:68-115 | A section is byte 0 and a document, or byte 1, a size that counts itself, an identifier with its zero, documents whose first word is their length, and at most three more bytes |
| WireLaws.HeaderLayout | apps/accelerator/internal/proxy/wire/header.go:18-41 | The four words of a header are message length, request id, id answered and opcode in this order, each little-endian and signed, by arithmetic on the sixteen bytes |
| WireLaws.RefusedHeaders | apps/accelerator/internal/proxy/wire/msg.go:31-47 | Another opcode, and a length below 16 or below 20, are refused without reading on; a body that is cut short is consumed and reported, an absent one as end of file |
| WireHeader.HeaderBijection | apps/accelerator/internal/proxy/wire/header.go:18-41 | Encoding and decoding of headers are inverse in both directions, for negative words too |
| WireHeader.ReadHeader | apps/accelerator/internal/proxy/wire/header.go:18-30 | Succeeds if and only if 16 bytes are left, consumes exactly those, and tells an empty stream from a short one |
| WireHeader.WriteHeader | apps/accelerator/internal/proxy/wire/header.go:32-41 | Appends the four words of the header in order |
| WireHeader.BodyLength | apps/accelerator/internal/proxy/wire/header.go:43-48 | None exactly when the announced length is shorter than the header |
| Auth.CacheTransparent | apps/accelerator/internal/proxy/auth/auth.go:89-192 | From any state of the invariant, over every run of tenant, connection and token operations, cache invalidations and logins, the possible reports with the cache are exactly those with the cache disabled: same success or failure, same tenant, connection and token |
| Auth.EmptyStoreTransparent | apps/accelerator/internal/proxy/auth/auth.go:89-192 | The same from an empty store and an empty cache, without further hypothesis on the state |
| AuthSafety.LoginExactly | apps/accelerator/internal/proxy/auth/auth.go:89-192 | With or without the help of the cache, a login succeeds with a context if and only if the trimmed user is an active tenant and the context names a row of it that is unrevoked, unexpired, bound to an existing connection of that tenant, and whose secret is the password |
| AuthSafety.LoginsOverRuns | apps/accelerator/internal/proxy/auth/auth.go:89-192 | After any run from the empty store, a login reports a token if and only if the calls so far issued it to this tenant and connection for this very secret and have neither revoked it nor deleted its tenant or connection: the store and the cache are abstracted away |
| AuthSafety.RevokedUntilReenabled | apps/accelerator/internal/controlplane/store/memory.go:392-413 | In every run, after a successful revocation no login reports the token until a call re-enables it |
| AuthSafety.LockedOutUntilReenabled | apps/accelerator/internal/proxy/auth/auth.go:172-192 | The same for a token found revoked, or deleted with its tenant or connection, whatever the cache still holds |
| AuthSafety.RevocationsOverRuns | apps/accelerator/internal/controlplane/service/service.go:609-642 | After any run from the empty store, revoking succeeds if and only if the token stands, and re-enabling if and only if it stands revoked and the window is positive and not past |
| AuthSafety.RefusalsMeaning | apps/accelerator/internal/proxy/auth/auth.go:89-152 | Which refusal is given: inactive exactly for an existing tenant of another status, no connection only when an admitted row has lost its connection, failed only when no row admits the password |
| Auth.HitAgreesWithStore | apps/accelerator/internal/proxy/auth/auth.go:172-192 | A cached success that passes the partial re-check (token row only) is an answer of the full lookup, tenant and connection checks included |
| Auth.FullAnswerUnique | apps/accelerator/internal/proxy/auth/auth.go:89-152 | With unique secrets the full lookup has one answer, in whatever order rows are scanned |
| Auth.StepKeepsInv | apps/accelerator/internal/controlplane/service/service.go:109-150 | Every operation keeps rows bound (active tenant, connection of the same tenant), secrets unique, and cached successes sound |
| Auth.ServiceKeepsRowsBound | apps/accelerator/internal/controlplane/service/service.go:520-567 | Guarded issue and cascading deletes keep every token bound to an existing active tenant and a connection of that tenant |
| Auth.AuthenticateKeepsInv | apps/accelerator/internal/proxy/auth/auth.go:89-152 | A login stores only successes that name the tenant and a row whose secret is the password |
| Auth.CacheKeyInjective | apps/accelerator/internal/proxy/auth/auth.go:89-110 | Two credentials share a cache slot only if they are the same |
| Auth.Validator.Authenticate | apps/accelerator/internal/proxy/auth/auth.go:89-152 | The answer and the new cache are those of the relational specification: cached and re-checked, fingerprint index, or legacy scan; AuthSafety.LoginExactly says on the rows what those answers are |
| Auth.Validator.LookupInStore | apps/accelerator/internal/proxy/auth/auth.go:113-152 | The tenant check, the fingerprint index and the scan of rows without one give an answer of the full lookup |
| Auth.Validator.Revalidate | apps/accelerator/internal/proxy/auth/auth.go:172-192 | Passes if and only if the row exists, belongs to the tenant, is bound, and is neither revoked nor expired, stated on the row's fields; then takes over the row's connection |
| Auth.Validator.InvalidateToken | apps/accelerator/internal/proxy/auth/auth.go:65-73 | Drops exactly the cached successes of the token |
| AuthSafety.ForgetsExactly | apps/accelerator/internal/proxy/auth/auth.go:65-73 | The successes of other tokens stay as they were |
| AuthSafety.PutKeepsTheLive | apps/accelerator/internal/proxy/auth/auth.go:204-220 | A success is kept for exactly the cache's lifetime, and storing it drops no other entry that is still good |
| AuthSafety.OnlySuccessesAreCached | apps/accelerator/internal/proxy/auth/auth.go:89-110 | After a login with the cache in use its success is found there, with the full lifetime if it is new, and a refusal is not |
| Auth.Validator.StoreResult | apps/accelerator/internal/proxy/auth/auth.go:204-220 | Prunes exactly the expired entries when the cache is large, then stores with the new deadline |
| Store.MemoryStore.DeleteTenant | apps/accelerator/internal/controlplane/store/memory.go:114-139 | Fails exactly when the tenant is missing; otherwise takes the tenant, its members, connections, invites and tokens and nothing else |
| Store.MemoryStore.DeleteConnection | apps/accelerator/internal/controlplane/store/memory.go:227-240 | Fails exactly when the connection is missing; otherwise takes it and the tokens bound to it and nothing else |
| Store.MemoryStore.CreateConnection | apps/accelerator/internal/controlplane/store/memory.go:141-158 | Refused exactly when the tenant has a connection of that name, letter case aside |
| AuthSafety.NamesStayApart | apps/accelerator/internal/controlplane/store/memory.go:141-158 | Over every run no two connections of a tenant have the same name, letter case aside |
| Store.MemoryStore.GetActiveTokenByLookup | apps/accelerator/internal/controlplane/store/memory.go:370-390 | Returns a row of the tenant with the fingerprint that is bound, unrevoked and unexpired, if there is one; none for the empty fingerprint |
| Store.MemoryStore.ListActiveTokenHashes | apps/accelerator/internal/controlplane/store/memory.go:350-368 | Lists exactly the tenant's rows that are bound, unrevoked and unexpired, stated on their fields |
| Store.MemoryStore.RevokeToken | apps/accelerator/internal/controlplane/store/memory.go:392-402 | Marks the one row revoked, or fails on a missing row |
| Store.MemoryStore.ClearTokenRevocation | apps/accelerator/internal/controlplane/store/memory.go:404-413 | Fails on a missing or unrevoked row |
| Store.MemoryStore.ListMembers | apps/accelerator/internal/controlplane/store/memory.go:624-638 | Lists every member with its role exactly once |
| Store.MemoryStore.ListPendingInvitesForTenant | apps/accelerator/internal/controlplane/store/memory.go:712-726 | Lists exactly the tenant's invites that are neither accepted nor expired |
| Store.MemoryStore.UpsertUserByEmail | apps/accelerator/internal/controlplane/store/memory.go:415-433 | One user per trimmed lower-case address, whose id is returned |
| Services.TenantService.Create | apps/accelerator/internal/controlplane/service/service.go:44-60 | Creates active tenants only; refuses an empty id or name and then changes nothing |
| Services.ConnectionService.Create | apps/accelerator/internal/controlplane/service/service.go:109-151 | Refuses blank names, missing tenants and duplicate names, in that order, and then changes nothing |
| Services.ConnectionService.Delete | apps/accelerator/internal/controlplane/service/service.go:254-271 | Deletes only a connection of that tenant, with its tokens |
| AuthSafety.CreatesAndDeletesExactly | apps/accelerator/internal/controlplane/service/service.go:109-151 | Each call succeeds if and only if its names are given, its tenant or connection is there and belongs to the caller, and the name is free; and what it then stores |
| AuthSafety.DeletionsAreExact | apps/accelerator/internal/controlplane/store/memory.go:114-139 | Row by row: what belongs to the deleted tenant or connection goes and everything else stays |
| Services.TokenService.Issue | apps/accelerator/internal/controlplane/service/service.go:520-567 | Binds a new token to an existing connection of the same tenant, or changes nothing |
| Services.TokenService.Revoke | apps/accelerator/internal/controlplane/service/service.go:609-611 | Revokes an existing token |
| Services.TokenService.Reenable | apps/accelerator/internal/controlplane/service/service.go:614-642 | Clears a revocation exactly while the window is open and not past |
| NormalForm.NormIsCanonical | apps/accelerator/internal/proxy/cache/key.go:60-116 | Two values have equal normal forms if and only if a finite chain of rewritings links them: swapping neighbours with different keys, dropping a volatile element, widening a 32-bit integer, at any depth |
| NormalForm.NormIdempotent | apps/accelerator/internal/proxy/cache/key.go:68-116 | Normalising twice is normalising once, and the values left alone are exactly the normal ones |
| NormalForm.NormIsNormal | apps/accelerator/internal/proxy/cache/key.go:68-116 | The result is sorted, free of volatile keys and of 32-bit integers, at every depth |
| NormalForm.IgnoredExactly | apps/accelerator/internal/proxy/cache/key.go:14-30 | One more element leaves the normal form of a command as it was if and only if its name is one of the fourteen volatile ones |
| NormalForm.DuplicateKeysKeepOrder | apps/accelerator/internal/proxy/cache/key.go:70-83 | Under each key that is kept, the normalised values stand in their original order |
| NormalForm.NormalizeValue | apps/accelerator/internal/proxy/cache/key.go:68-116 | The loops that build and sort compute the normal form |
| CacheKeys.CacheKeyMeaning | apps/accelerator/internal/proxy/cache/key.go:34-53 | Two commands share a key if and only if tenant, connection (up to "" and "_"), database, collection, normal form, lower-cased name and key version agree |
| CacheKeys.GenerationMeaning | apps/accelerator/internal/proxy/cache/key.go:182-188 | Keys with generations are equal if and only if base keys and generations are, and never equal a key without one |
| CacheKeys.RegistryKeyMeaning | apps/accelerator/internal/proxy/cache/cache.go:149-155 | Two registries are one if and only if tenant and connection agree and db.coll reads the same; with dot-free database names, if and only if the collections are the same |
| CacheKeys.RegistryKeysApart | apps/accelerator/internal/proxy/cache/tags.go:8-10 | A registry's key is neither a result's key nor a tag's |
| CacheStore.InvalidationIsExact | apps/accelerator/internal/proxy/cache/cache.go:247-254 | At every point of every interleaving from an empty cache, invalidating a collection leaves only those of its keys whose writer has yet to register them, none if there is no such writer, and leaves keys, payloads and registry of every other collection as they were |
| CacheStore.RunsCovered | apps/accelerator/internal/proxy/cache/coordinator.go:59-65 | In every interleaving of set, register, get with expiry and invalidate, each stored key is in its collection's registry or awaits registration |
| CacheStore.MemoryStore.Get | apps/accelerator/internal/proxy/cache/cache.go:214-225 | Hits an unexpired entry; removes an expired one |
| CacheLaws.ServedUntilDeadline | apps/accelerator/internal/proxy/cache/cache.go:214-236 | What is set is served up to and including its deadline, and for ever without a lifetime; after the deadline it is a miss and is removed |
| CacheStore.MemoryStore.InvalidateNamespace | apps/accelerator/internal/proxy/cache/cache.go:247-254 | Deletes exactly the registered keys and the registry |
| CacheStore.Coordinator.BestEffortSet | apps/accelerator/internal/proxy/cache/coordinator.go:59-65 | Stores and registers, and does nothing for an empty payload |
| StaleReads.CoherentExactlyWhenCareful | apps/accelerator/internal/proxy/handler/handler.go:250-352 | For every way the proxy may be used: every hit of every run, under every configuration this allows, is the payload a backend load would produce at that moment, if and only if no write name carries the cache suffix twice, no command changes data other than the collection it names as one of the server's writing commands, no opted-in read carries document sequences, no two connections share a backend that is written to, no write to a collection is applied and reports an error, and no connection comes to reach another backend; what commands change never depends on how the proxy classifies them |
| Coherence.RunsCoherent | apps/accelerator/internal/proxy/handler/handler.go:250-479 | Over runs of any length of such use, every hit is current |
| StaleReads.StaleHit | apps/accelerator/internal/proxy/handler/handler.go:332-345 | For every name with the suffix twice, a read, a write and a read end in a stale hit: the flush strips the suffix a second time |
| StaleReads.StaleAfterOther | apps/accelerator/internal/proxy/command/classify.go:83-88 | For every command name that is none of the server's writing commands, is forwarded, and may change data: a read, that command and a read end in a stale hit |
| StaleReads.StaleAfterWideWrite | apps/accelerator/internal/proxy/handler/handler.go:322-325 | For every write command that also changes a collection it does not name, likewise: only the named one is flushed |
| StaleReads.StaleAcrossConnections | apps/accelerator/internal/proxy/handler/handler.go:332-352 | For every collection name, a write through another connection to the same backend leaves a stale hit: the flush is for the writer's connection |
| StaleReads.StaleSequence | apps/accelerator/internal/proxy/handler/handler.go:268-270 | A document sequence reaches the backend but not the key, so two reads that differ in it share a result |
| StaleReads.StaleAfterFailure | apps/accelerator/internal/proxy/command/reply.go:114-122 | For every collection name, a write that is applied and answered with ok:0, as a write concern error is, leaves a stale hit: the flush is skipped |
| StaleReads.StaleAfterRelink | apps/accelerator/internal/controlplane/service/service.go:181-205 | For every collection, once its connection reaches another backend a read hits the result of the former one: keys carry the connection only, and changing its URI flushes nothing |
| Coherence.HandleKeepsCurrent | apps/accelerator/internal/proxy/handler/handler.go:250-329 | One command of careful use keeps every stored result registered and equal to the backend's present answer |
| Coherence.WriteKeepsCurrent | apps/accelerator/internal/proxy/handler/handler.go:332-352 | Any change of a collection, and flushing it, leave only current results, in that and every other collection |
| Coherence.PutKeepsCurrent | apps/accelerator/internal/proxy/handler/handler.go:575-612 | Storing the present answer under its key leaves only current results |
| Coherence.Handler.HandleMessage | apps/accelerator/internal/proxy/handler/handler.go:83-168 | Malformed commands, those refused for want of a session or for their rate, and locally answered ones change nothing; the rest is passed through |
| CacheLaws.WritesFlushTheirCollection | apps/accelerator/internal/proxy/handler/handler.go:322-352 | After any run from an empty cache: insert, update, delete, findAndModify, bulkWrite and the other writing commands, each by name, when they succeed on a connection with the flag, leave no key of the collection they name and every key of any other; on failure or without the flag they leave the cache alone |
| CacheLaws.StoresOnlyAnswers | apps/accelerator/internal/proxy/handler/handler.go:358-439 | Every entry a command puts into the cache is the backend's answer to that command under the key of its tenant, connection, collection and body, not empty, no larger than allowed and with the policy's deadline; and the command is an opted-in, cached read of an admitted session |
| CacheLaws.SecondReadHits | apps/accelerator/internal/proxy/handler/handler.go:358-439 | An opted-in read repeated within the lifetime is a hit of what the first one loaded, and changes nothing |
| CacheLaws.FirstReadLoads | apps/accelerator/internal/proxy/handler/handler.go:358-439 | An opted-in read that the cache does not hold gets the backend's answer and stores it, if it fits |
| CacheLaws.UncachedNeverHit | apps/accelerator/internal/proxy/cache/key.go:129-150 | A command in a transaction, a retryable write, an aggregation with $out, $merge or $changeStream, any command but the five reads, and a read that did not opt in are never answered from the cache and put nothing into it |
| CacheLaws.BypassMeaning | apps/accelerator/internal/proxy/cache/key.go:129-180 | The bypass decision, on the elements of the command: exactly the commands so described |
| CacheLaws.OtherReadsPass | apps/accelerator/internal/proxy/handler/handler.go:293-319 | Each of the twelve reading commands, when not served from the cache, gets the backend's answer and leaves the cache alone |
| CacheLaws.NoSessionNoAccess | apps/accelerator/internal/proxy/handler/handler.go:101-113 | Without a session, or over its rate, a command reaches neither cache nor backend; without a session only the handshake commands are answered |
| CacheLaws.ParseMeaning | apps/accelerator/internal/proxy/command/classify.go:36-88 | A read or write names its collection in its first element, one suffix removed, and its database in its last "$db", or else "admin" |
| CacheLaws.MergedMeaning | apps/accelerator/internal/proxy/handler/handler.go:614-646 | The command the backend gets has under each name its last document sequence of that name, and otherwise the command's own element; sequences without a name count for nothing |
| CacheLaws.RunsRegistered | apps/accelerator/internal/proxy/cache/coordinator.go:59-65 | Over every run of commands the stored keys of a collection and its registry agree as the interleaved store requires |
| Coherence.WritesAreClassified | apps/accelerator/internal/proxy/command/classify.go:74-80 | The commands classified as writes are exactly the server's thirteen writing commands |
| Coherence.Handler.PassThrough | apps/accelerator/internal/proxy/handler/handler.go:250-329 | Reply, cache and backend contents are those of the step function, with sequences merged into the command and not into the key |
| Coherence.Handler.RunOnBackend | apps/accelerator/internal/proxy/handler/handler.go:293-329 | Reads may be stored, writes that report success flush, and writes that report an error and other commands leave the cache alone whatever they change |
| Coherence.Handler.TryRead | apps/accelerator/internal/proxy/handler/handler.go:358-439 | Hit, coalesced load with store, or fall through on bypass, unreachable backend, error reply or oversized result |
| Coherence.Handler.MaybePopulateCache | apps/accelerator/internal/proxy/handler/handler.go:575-612 | Stores a reply exactly when it is no error, the command does not bypass the cache, and it fits |
| Coherence.Handler.MaybeAutoInvalidateOnWrite | apps/accelerator/internal/proxy/handler/handler.go:332-352 | Flushes exactly when the connection has the flag |
| Command.MergeDocumentSequences | apps/accelerator/internal/proxy/handler/handler.go:614-646 | The loops replace the first field of that name, or append one, for each named sequence in turn |
| Command.ResolveCacheCollection | apps/accelerator/internal/proxy/command/classify.go:125-134 | Strips the suffix, once, exactly from the names that end in it and have more |
| Command.UnsafeTargets | apps/accelerator/internal/proxy/command/classify.go:125-134 | The names from which a second strip takes more are exactly x_cache_cache with x not empty |
| Org.LastOwnerStays | apps/accelerator/internal/controlplane/service/org_service.go:273-304 | Over every run, an organisation that has an owner keeps one until it is deleted |
| Org.CreatedOrgStaysOwned | apps/accelerator/internal/controlplane/service/org_service.go:47-78 | From an empty store: a created organisation has exactly its creator as owner, and an owner ever after until deleted |
| Org.RolesStay | apps/accelerator/internal/controlplane/service/org_service.go:242-270 | No operation changes an existing role: accepting an invite never does, and a role ends only by removal or deletion |
| Org.StepKeepsInv | apps/accelerator/internal/controlplane/service/org_service.go:172-239 | Joint invariant: members and invites refer to existing tenants and users, no member has a live invite to its own organisation, and an address has at most one live invite per organisation |
| Org.RemoveRefusal | apps/accelerator/internal/controlplane/service/org_service.go:281-297 | Removing an owner is refused if and only if it is the only one, and otherwise leaves an owner |
| Org.OwnersKeptExactlyWithoutSlugs | apps/accelerator/migrations/0006_users_orgs.up.sql:45-55 | If invites may name a given set of missing organisations, every run keeps last owners if and only if none of them has an id that CreateOrganization accepts; the foreign key makes the set empty |
| Org.ForeignKeyNeeded | apps/accelerator/migrations/0006_users_orgs.up.sql:45-55 | For every such id, an invite sent before its organisation exists lets the creator demote itself by accepting |
| Org.SlugIsValid | apps/accelerator/internal/controlplane/service/org_service.go:80-102 | A generated id always passes the id check, whatever the name, with 8 to 55 characters |
| Org.SlugIsClean | apps/accelerator/internal/controlplane/service/org_service.go:44-61 | A valid id survives trimming and lower-casing and cannot close the hash tag of a cache key |
| Org.OrgService.CreateOrganization | apps/accelerator/internal/controlplane/service/org_service.go:47-78 | Each refusal in its order leaves the store unchanged; success adds the tenant and its owner |
| OrgAuthority.CreatesExactly | apps/accelerator/internal/controlplane/service/org_service.go:47-78 | An organisation is created if and only if creation is open, its name is not blank and its id is well-formed and free; the creator is its owner |
| OrgAuthority.SlugMeaning | apps/accelerator/internal/controlplane/service/org_service.go:44-44 | The ids the expression accepts: one or 3 to 64 characters, small letters and digits, with dashes and underscores inside |
| OrgAuthority.SlugOfPlainName | apps/accelerator/internal/controlplane/service/org_service.go:80-102 | A name of small letters and digits gives its first 48 characters and a random suffix |
| OrgAuthority.SlugOfOtherName | apps/accelerator/internal/controlplane/service/org_service.go:80-102 | A name without letters and digits gives org- and random digits |
| Org.OrgService.InviteMember | apps/accelerator/internal/controlplane/service/org_service.go:172-239 | Each refusal in its order, admins inviting owners included; success replaces the live invites of that address in that organisation; OrgAuthority says who gets what |
| OrgAuthority.RolesComeFromAuthority | apps/accelerator/internal/controlplane/service/org_service.go:172-270 | Over every run from the empty store: an owner created the organisation where creation was open, or accepted an invitation to its own address as owner that was sent in the role of an owner; every other member accepted an invitation to its very role that was sent in the role of an owner or an admin |
| OrgAuthority.NewInvitesAreAuthorised | apps/accelerator/internal/controlplane/service/org_service.go:184-193 | An invite that a call has newly stored is that call's, was sent in the role of an owner or an admin, of an owner if it is for an owner, and lasts exactly a week |
| OrgAuthority.InvitesExactly | apps/accelerator/internal/controlplane/service/org_service.go:172-239 | An invitation succeeds if and only if the address is good and no member's, the role is known or absent, and the inviter is an owner, or an admin that does not invite an owner; otherwise nothing changes |
| OrgAuthority.InviteRefusals | apps/accelerator/internal/controlplane/service/org_service.go:172-212 | Which refusal is given, in which order |
| OrgAuthority.InviteReplaces | apps/accelerator/internal/controlplane/service/org_service.go:213-239 | The invite stored, and that it replaces the pending invites of that address in that organisation and no other |
| Org.OrgService.AcceptInvite | apps/accelerator/internal/controlplane/service/org_service.go:242-270 | Refuses missing, accepted, expired and foreign invites; otherwise adds the member and marks the invite |
| OrgAuthority.AcceptsExactly | apps/accelerator/internal/controlplane/service/org_service.go:242-270 | Membership is given if and only if the invite is pending, unexpired and addressed to the user, with the invite's role, and no other role changes |
| Org.OrgService.RemoveMember | apps/accelerator/internal/controlplane/service/org_service.go:273-304 | Refuses non-members, admins removing owners, and the last owner; otherwise removes that one member |
| OrgAuthority.OwnersLeaveOnlyThrough | apps/accelerator/internal/controlplane/service/org_service.go:273-304 | Whoever stops being an owner was removed by an actor with the role owner while another owner stayed, or the organisation was deleted |
| OrgAuthority.RemovesExactly | apps/accelerator/internal/controlplane/service/org_service.go:273-304 | A member is removed if and only if it is no owner, or the actor is an owner and another owner is left |
| Org.OrgService.CountOwners | apps/accelerator/internal/controlplane/service/org_service.go:286-295 | The loop counts the organisation's owners |
| Org.OrgService.RevokeInvite | apps/accelerator/internal/controlplane/service/org_service.go:307-323 | Deletes an invite of that organisation only |
| OrgAuthority.RevokesExactly | apps/accelerator/internal/controlplane/service/org_service.go:307-323 | An invite is revoked if and only if it is the organisation's own, and no other invite is touched |
| Org.Slugify | apps/accelerator/internal/controlplane/service/org_service.go:80-102 | The builder loop computes the recursive description of the id |
| CursorRuns.PaginationIsExact | apps/accelerator/internal/proxy/cachedcursor/store.go:48-126 | In every interleaving, with any batch sizes, what has been delivered of a cursor is a prefix of its documents with no gap or repeat, and all of them exactly when exhaustion was reported; curBytes plus the bytes inserted and not yet added equals the table's bytes |
| CursorScopes.DeliveredToTheOwner | apps/accelerator/internal/proxy/cachedcursor/store.go:48-126 | In every interleaving from the empty store, on the arguments and results of the calls alone: every batch of a cursor went to the tenant and connection whose call registered it; the batches in order are a prefix of the documents registered, and all of them if and only if one reported that it was the last; and a held cursor's bytes are the lengths of its documents |
| CursorScopes.NothingUnregistered | apps/accelerator/internal/proxy/cachedcursor/store.go:102-113 | No batch was ever handed out under an id that no call registered |
| CursorRuns.RunsBalanceAndDeliver | apps/accelerator/internal/proxy/cachedcursor/store.go:48-169 | The invariant behind it, kept by each step: checks, evictions, id allocation, insertion, accounting, batches, kills, cleanup and pruning |
| CursorRuns.BatchExtends | apps/accelerator/internal/proxy/cachedcursor/store.go:102-126 | A batch handed out is not empty, continues where the last one ended, and reports exhaustion exactly when it completes the documents |
| CursorRuns.Balances | apps/accelerator/internal/proxy/cachedcursor/store.go:66-99 | Each step keeps the byte balance |
| CursorRuns.BudgetOverRuns | apps/accelerator/internal/proxy/cachedcursor/store.go:48-79 | In every sequential run, at every point, curBytes is exact and within the budget, or the table holds exactly one cursor |
| CursorRuns.CleanupIsExact | apps/accelerator/internal/proxy/cachedcursor/store.go:145-154 | After a connection's cleanup none of its cursors is left and every other is as it was |
| CachedCursor.Store.Register | apps/accelerator/internal/proxy/cachedcursor/store.go:48-79 | Keeps no cursor for a single batch; otherwise evicts least recently used cursors, one by one and only while room is short, then inserts under a fresh id |
| CachedCursor.Store.MakeRoom | apps/accelerator/internal/proxy/cachedcursor/store.go:60-65 | The eviction loop terminates, and stops as soon as there is room or the table is empty |
| CachedCursor.Store.EvictOldest | apps/accelerator/internal/proxy/cachedcursor/store.go:81-100 | The victim has minimal LastUsed; fails exactly on an empty table |
| CursorScopes.OldestMakeRoom | apps/accelerator/internal/proxy/cachedcursor/store.go:60-65 | Every victim was used no later than every survivor, and without the last victim there would not have been room |
| CursorScopes.BytesAreLengths | apps/accelerator/internal/proxy/cachedcursor/store.go:54-58 | The bytes charged are the summed lengths of the documents |
| CachedCursor.Store.NextBatch | apps/accelerator/internal/proxy/cachedcursor/store.go:102-126 | Serves if and only if the entry's tenant and connection are the caller's; then it advances that entry alone and drops it when it is exhausted, and otherwise hands out nothing and changes nothing |
| CursorScopes.StrangersGetNothing | apps/accelerator/internal/proxy/cachedcursor/store.go:109-136 | A batch or kill under another tenant or connection leaves the state as it was and hands out no document |
| CursorScopes.OwnerIsServed | apps/accelerator/internal/proxy/cachedcursor/store.go:102-126 | The owner gets the next n documents, 101 by default, or what is left; the cursor keeps the rest and its time of use, or goes with its bytes |
| CachedCursor.Store.KillMany | apps/accelerator/internal/proxy/cachedcursor/store.go:128-143 | Drops each listed cursor that the caller owns, once |
| CursorScopes.KillsTheCallersOwn | apps/accelerator/internal/proxy/cachedcursor/store.go:128-143 | Of the listed cursors those of the caller's tenant and connection go, and no other changes |
| CachedCursor.Store.CleanupConn | apps/accelerator/internal/proxy/cachedcursor/store.go:145-154 | Drops exactly the connection's cursors and their bytes |
| CachedCursor.Store.PruneIdle | apps/accelerator/internal/proxy/cachedcursor/store.go:156-169 | Drops exactly the cursors not used since the cutoff and their bytes, and returns their number |
| CursorScopes.PruneIsExact | apps/accelerator/internal/proxy/cachedcursor/store.go:156-169 | A cursor survives if and only if it was used at the cutoff or later, and then unchanged |
| RegistryRuns.StreamIsExact | apps/accelerator/internal/proxy/handler/handler.go:766-860 | The first batch of a find and the getMores after it, of any sizes, concatenate to the iterator's whole output exactly when id 0 is returned, which happens once, at the end, and within one getMore more than there are documents left; before that they are a prefix |
| RegistryRuns.RepliesDeliver | apps/accelerator/internal/proxy/handler/handler.go:807-860 | The same for the getMores alone, from any point of the stream |
| RegistryRuns.DeliveryOverRuns | apps/accelerator/internal/proxy/handler/handler.go:766-860 | Over every run of finds, getMores, kills, disconnects and prunings of any number of clients and cursors: what was delivered of a cursor is a prefix of its iterator's output, and all of it once id 0 has been returned; each cursor is open, ended or given up, exactly one of these |
| RegistryScopes.DeliveredToTheFinder | apps/accelerator/internal/proxy/handler/handler.go:766-860 | Over every run of finds, getMores, kills, disconnects and prunings, on arguments and replies alone: every batch of a cursor went to the tenant and connection whose find registered it, and the batches in order are a prefix of what its iterator yields, all of it once id 0 was returned |
| RegistryRuns.RoutesApart | apps/accelerator/internal/proxy/handler/handler.go:150-155 | After every run of requests with fewer than 10^9 registrations, beside every interleaving of the emulated cursors, a getMore on a backend cursor is served by the registry and leaves the emulated cursors alone, and one on an emulated cursor leaves the registry alone |
| RegistryRuns.NeverMeetExactlyBelow | apps/accelerator/internal/proxy/cachedcursor/store.go:42-42 | No run with r registrations, beside any interleaving of the emulated cursors, has an id in both tables, if and only if r is below 10^9 |
| RegistryRuns.ClosedExactlyOnce | apps/accelerator/internal/proxy/cursor/registry.go:79-136 | In every interleaving of Register, Remove, KillMany, CleanupConn and PruneIdle each cursor is about to be inserted, in the table, to be closed by exactly one remover, or closed exactly once |
| RegistryRuns.CleanupTakesAll | apps/accelerator/internal/proxy/cursor/registry.go:101-117 | Cleanup leaves none of the connection's cursors in the table, hands each to the cleaner, and leaves the others unchanged |
| CursorRegistry.CursorHandler.FirstBatchFromCursor | apps/accelerator/internal/proxy/handler/handler.go:766-805 | First batch, id and registry are the specification's; a cursor that is not registered is closed exactly once, on the error path too |
| RegistryScopes.FindMeaning | apps/accelerator/internal/proxy/handler/handler.go:766-805 | The first n documents, 101 by default; a cursor over the rest is kept if and only if there were that many and no single batch was asked for; a failing iterator keeps nothing |
| CursorRegistry.CursorHandler.HandleGetMore | apps/accelerator/internal/proxy/handler/handler.go:807-860 | Batch, id and registry are the specification's, including unknown ids and failing iterators |
| RegistryScopes.StrangersFindNothing | apps/accelerator/internal/proxy/cursor/registry.go:64-76 | Under another tenant or connection a getMore finds no cursor and changes nothing |
| RegistryScopes.OwnerGetsMore | apps/accelerator/internal/proxy/handler/handler.go:807-860 | The owner gets the next n documents under the same id; when fewer are left it gets those under id 0, or the failure, and the cursor is gone |
| RegistryScopes.RemovalsAreExact | apps/accelerator/internal/proxy/cursor/registry.go:79-136 | Kills, disconnects and prunings take exactly the caller's cursor, the connection's and the ones last used before the cutoff |
| CursorRegistry.Registry.Register | apps/accelerator/internal/proxy/cursor/registry.go:45-62 | Files the cursor under the next id |
| CursorRegistry.Registry.Get | apps/accelerator/internal/proxy/cursor/registry.go:64-76 | Finds only the owner's cursor and touches it |
| CursorRegistry.Registry.Remove | apps/accelerator/internal/proxy/cursor/registry.go:79-92 | Takes out the owner's cursor; every cursor ever registered is open in the table or closed exactly once |
| CursorRegistry.Registry.KillMany | apps/accelerator/internal/proxy/cursor/registry.go:94-98 | Takes out exactly the listed cursors that the caller owns |
| CursorRegistry.Registry.CleanupConn | apps/accelerator/internal/proxy/cursor/registry.go:101-117 | Takes out and closes exactly the connection's cursors |
| CursorRegistry.Registry.PruneIdle | apps/accelerator/internal/proxy/cursor/registry.go:119-136 | Takes out and closes exactly the idle cursors, and returns their number |
| LimiterRuns.WindowBound | apps/accelerator/internal/proxy/ratelimit/limiter.go:36-59 | In every run and every window the calls admitted for a tenant number at most burst plus rate times the window's length, if prunings in it are patient |
| LimiterRuns.RunsInRange | apps/accelerator/internal/proxy/ratelimit/limiter.go:45-59 | In every run every bucket holds between zero and burst tokens |
| LimiterRuns.SpacedCallsNeverRefused | apps/accelerator/internal/proxy/ratelimit/limiter.go:36-59 | After any run, calls at least 1/rate apart are all admitted, whatever other tenants do and patient pruning removes |
| LimiterRuns.BoundedExactlyWhenPatient | apps/accelerator/internal/proxy/ratelimit/limiter.go:36-74 | That bound holds in every window of every run that prunes with a given idle time if and only if idle times rate is at least burst |
| LimiterRuns.TransparentExactlyWhenPatient | apps/accelerator/internal/proxy/ratelimit/limiter.go:62-74 | Inserting a pruning anywhere in any run changes no later decision for any tenant if and only if idle times rate is at least burst |
| LimiterRuns.ImpatientPruneShows | apps/accelerator/internal/proxy/ratelimit/limiter.go:62-74 | With a shorter idle time, a tenant that spent its burst is treated differently after a pruning |
| LimiterRuns.WaitingRefills | apps/accelerator/internal/proxy/ratelimit/limiter.go:49-53 | What a tenant can draw on grows at the rate, up to burst, whether or not its bucket is touched meanwhile |
| LimiterRuns.CallTakesOne | apps/accelerator/internal/proxy/ratelimit/limiter.go:36-59 | A call is admitted exactly when a whole token is available, takes one, and takes nothing from other tenants |
| LimiterRuns.PruneIsExact | apps/accelerator/internal/proxy/ratelimit/limiter.go:62-74 | Pruning takes exactly the buckets unused for longer than the idle time, and a tenant without a bucket has a full one |
| Limiter.TokenLimiter.Allow | apps/accelerator/internal/proxy/ratelimit/limiter.go:36-59 | Decision and buckets are the specification's, for new, known and empty tenants |
| Limiter.TokenLimiter.Prune | apps/accelerator/internal/proxy/ratelimit/limiter.go:62-74 | Removes exactly the buckets not used since the cutoff |
| Limiter.Configured | apps/accelerator/internal/proxy/ratelimit/limiter.go:21-33 | Rate and burst are positive after defaulting |
| Limiter.TokenLimiter.constructor | apps/accelerator/internal/proxy/ratelimit/limiter.go:21-33 | The rate is the given one or 1000, the burst is the given one or the rate |
| PoolRuns.ClientsConserved | apps/accelerator/internal/proxy/pool/pool.go:125-305 | In every interleaving each connected client is in exactly one place: under one connection of the pool, in the hands of one creator, on an evictor's list, or disconnected, and then exactly once |
| PoolRuns.RefsNeverExceedGets | apps/accelerator/internal/proxy/pool/pool.go:125-206 | In every interleaving a reference count never exceeds the outstanding Gets of that connection, and the branch for a lost creation race is never taken |
| PoolRuns.ExactExactlyWhenUnshared | apps/accelerator/internal/proxy/pool/pool.go:140-206 | In every run, the reference count of a connection equals its outstanding Gets throughout if and only if no second caller comes back with the client of a shared flight of that connection |
| PoolRuns.SafeExactlyWhenExact | apps/accelerator/internal/proxy/pool/pool.go:190-287 | At every reachable state, no continuation without further sharing disconnects a client of the connection while it is held, if and only if its count equals its outstanding Gets; and then every held client is in the pool |
| PoolRuns.UnsharedClientsSafe | apps/accelerator/internal/proxy/pool/pool.go:125-206 | In a run that shares no client of a connection, every held client of it is in the pool and never evicted or disconnected, whatever is shared on other connections and whichever shared flights fail |
| PoolRuns.SharedFlightUnsafe | apps/accelerator/internal/proxy/pool/pool.go:140-185 | A run in which a joined flight ends with a client disconnected while it is held |
| PoolRuns.FlightsStayOk | apps/accelerator/internal/proxy/pool/pool.go:140-172 | Each step keeps one leader per connection, and the connection out of the pool while its leader dials |
| Pool.Manager.GetPooled | apps/accelerator/internal/proxy/pool/pool.go:129-138 | Takes a reference to the pooled client and touches it, or changes nothing |
| Pool.Manager.Keep | apps/accelerator/internal/proxy/pool/pool.go:158-172 | Stores a new client with one reference, or takes a reference to the existing one and reports the loss |
| Pool.Manager.Release | apps/accelerator/internal/proxy/pool/pool.go:190-206 | Gives back one reference, never below zero, and ignores unknown connections |
| Pool.Manager.EvictIdle | apps/accelerator/internal/proxy/pool/pool.go:259-287 | Takes out exactly the clients without references that have been unused for the idle time, each once, and none when the idle time is not positive |
| Pool.RecentUseProtects | apps/accelerator/internal/proxy/pool/pool.go:129-287 | Taking, storing and giving back a client each note the time, change the count by one, touch no other connection, and protect the client from eviction for the whole idle time |
| Text.TrimMeaning | apps/accelerator/internal/proxy/auth/auth.go:90-90 | Trimming takes exactly the blanks at both ends |
| Text.LowerMeaning | apps/accelerator/internal/controlplane/service/org_service.go:60-60 | Lower-casing changes exactly the letters A to Z |
| ServerConns.CountsExact | apps/accelerator/internal/proxy/server/server.go:247-346 | In every interleaving of accept, login, logout, login as another tenant and disconnect, the authenticated count of a tenant is the number of connections counted under it, the slot count is the number of connections with a slot and never exceeds a positive limit, no entry is zero, and without a limit there are no slot counts |
| ServerConns.RefusedExactlyWhenFull | apps/accelerator/internal/proxy/server/server.go:321-334 | A login is refused if and only if there is a limit and that many connections have the tenant's slots |
| ServerConns.CountsAgreeAtRest | apps/accelerator/internal/proxy/server/server.go:430-490 | Between messages the two counts agree for every tenant |
| ServerConns.CountedOnce | apps/accelerator/internal/proxy/server/server.go:321-334 | A connection stays counted under the tenant it was first counted under, for as long as it lives |
| ServerConns.Server.EnforceLimit | apps/accelerator/internal/proxy/server/server.go:320-334 | Counts an authenticated connection once, under its tenant, if a slot is free; otherwise asks for it to be closed |
| ServerConns.Server.Disconnect | apps/accelerator/internal/proxy/server/server.go:252-261 | Takes back exactly what the connection was counted for, under the counted id or, if that is empty, the present tenant |
| ServerConns.Server.TryAcquireTenantConn | apps/accelerator/internal/proxy/server/server.go:430-441 | Refuses at the limit; never counts without one |
| ServerConns.Server.ReleaseTenantConn | apps/accelerator/internal/proxy/server/server.go:443-455 | Lowers the count and removes the entry at zero |
| ServerConns.Server.IncAuthenticated | apps/accelerator/internal/proxy/server/server.go:458-470 | Raises the count of a named tenant |
| ServerConns.Server.DecAuthenticated | apps/accelerator/internal/proxy/server/server.go:472-490 | Lowers the count and removes the entry at zero |

## Left out

- WireMsg.WriteReadRoundTrip: bodies that would make the announced length exceed an int32 are not considered.
- Coherence.RunsCoherent: commands run one at a time; loads that overlap writes are not coherent and no claim is made.
- Coherence.Handler.TryRead: does not say which emulated cursor the documents of a cached find or aggregate go to; delivery from emulated cursors is proved separately.
- Store.MemoryStore.DeleteTenant: does not model the cache policies, whose entry the code looks up by tenant id in a map keyed by connection id.
- CursorRuns.BudgetOverRuns: the budget is claimed for sequential runs only; concurrent registrations can find room together.
- CacheStore.RunsCovered: each operation of the in-memory store is atomic; the Redis store, whose invalidation reads and deletes in two round trips, is not modelled.
- LimiterRuns.WindowBound: prunings inside the window wait at least burst/rate, as shorter ones hand out new bursts; LimiterRuns.BoundedExactlyWhenPatient proves that this is exactly what the bound needs.
- OrgAuthority.RolesComeFromAuthority: the inviter's and the actor's role are what the caller passes to the service, as in the code; that the HTTP handlers read them from the membership first is not part of this model.
- RegistryRuns.StreamIsExact: states the run of one client on one cursor; RegistryRuns.DeliveryOverRuns covers many at once, requests being served one at a time.
- Redis, Postgres, the MongoDB driver, TCP, SMTP and HTTP: replaced by the parameters and iterators named above.
- Postgres differences: rows that are unique or compared at the exact expiry instant by SQL; the in-memory store's comparisons are modelled.
- Renaming connections and changing their URI or flags in the runs of the authentication theorems: they touch nothing that it reads.
- The branches of `normalizeValue` for maps, untyped slices, Go ints and 32-bit floats, which decoding a document never produces.
- Unicode: text is trimmed and case-folded as ASCII; the syntax check of addresses is a verdict passed in.
- Changes made past the proxy, and a proxy without a cache.
- BSON element decoding, SASL payloads, handshake and administrative replies, metrics, gauges and audit records.
- Verification codes for organisation deletion: deletion is an unguarded event, so the theorems cover more runs than the code allows.
- The driver cursor and the registry entry that points to it are one object in the model.
