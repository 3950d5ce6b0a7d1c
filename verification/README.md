# Verification of the postgres cluster secrets engine

This project models the cluster and database life cycle of the engine in `backend/`, the credential leases that
depend on it and the metadata index beside it, and proves what holds of them over every run, under every schedule of
failing calls and wherever a handler is interrupted.

## How it is built

* **Keys and store** (`Paths`, `Encoding`, `Listings`, `Footprint`, `KeyLevel`). The storage is a map from strings to
  records under four key shapes. A well-keyed store is exactly a typed configuration (`Records.Config`): reads, writes,
  deletes and listings at string level are lookups and updates at typed level, and so are the handlers' loops. `Slashes` says
  what happens to the keys when a name that is not checked contains a slash.
* **Protocol** (`Protocol`, `Operations`, `Runs`). `Safe` says which single write is allowed in which configuration;
  `Plan` says which writes a request makes, in which order. Every plan is safe, so every prefix of it is, so every run is.
* **Consequences** (`Recovery`, `Retries`, `Fleet`, `Endpoints`, `Answers`). Interrupted deletes and purges recover, and
  repeating them ends; the flat configuration refines a fleet of clusters that own their databases, and every handler
  commutes with that; the reading endpoints agree; every answer is that of the first check that fails.
* **Handlers** (`Vault`, `Servers`, `Logins`, `Entries`, `Clusters`, `Databases`, `Gc`, `Clone`, `Roles`, `Creds`,
  `Metadata`). The handlers themselves, as methods over mutable storage and server objects with a fault schedule each. A
  handler's contract says that it made a prefix of its planned writes and, unless a call failed, all of them, with the right
  answer; and that the storage goes on keeping to the protocol.
* **Leases and logins** (`Leases`, `Expiry`, `Credentials`, `Identifiers`, `Lookups`). Histories of leases beside the
  configuration, expiry arithmetic including the CalculateTTL of the vendored framework, agreement of stored logins with the
  servers, generated names, and the meaning of a metadata lookup.

## Assumptions

* Handlers run one at a time. Within a handler any call may fail, and a failing write may have been made all the same.
* Cluster, database and role names are non-empty and free of slashes. The route patterns see to it (docs/index.md), except
  for the clone's `target` and the metadata's `cluster` and `database`, which are plain fields. For `target` and `cluster` it
  is a precondition of the two handlers; what they do without it is in `Slashes`.
* Listing returns every immediate child of a prefix once, folders with a trailing slash, in any order. That is the contract
  of Vault's storage, which is not part of this model.
* UUIDs are 36 characters long, and the one in a new user name has not been used before. The freshly generated passwords
  differ from the ones they replace.
* A statement that fails inside a transaction has failed at the server, which then counts the transaction as failed.
* Stored integers are mathematical integers; the one place where their width matters, TTLs in nanoseconds, wraps at 64 bits.

## Where the code differs from its documentation, or from what one would expect

* The help text says that listing clusters, or the databases of a cluster, returns active and deleted ones
  (backend/help.go:36, :45). The code leaves the deleted ones out, and so does the model.
* The help text promises limits on the length of metadata keys and values (backend/help.go:132-134). No code enforces them.
* A creation ignores an error in reading the role (backend/path-creds.go:63-66) and goes on with no role at all: the model
  answers `Failed(NilRole)` where the code dereferences nil, so a failing call is not always answered.
  `Creds.SecretCredsCreate` says exactly when, and `Creds.CreationCrashes` is such a run. A renewal ignores an error in
  computing the TTL (backend/path-creds.go:206) and answers with a zero TTL.
* The expiry a creation tells the server is cut to the second without the five seconds a renewal adds, so unless the role
  has a maximum below its default the login expires before the lease nearly always: `Expiry.CreationCoversLease` and
  `Expiry.NothingToSpare` say exactly when not, `Expiry.CreationFallsShort` is an instance.
* A renewal reads the clock twice, in computing the TTL (framework/lease.go:36) and in formatting the expiry
  (backend/path-creds.go:208). Between the two a second can end, and the server is then told a time later than issue plus cap
  plus five seconds: `Expiry.RenewalOverruns` is an instance, `Expiry.RenewalKeepsBound` and, for TTLs in whole seconds,
  `Expiry.WholeRenewalKeepsBound` say exactly when it is not, and `Expiry.RenewalWithinSlack` by how much.
* A revocation goes on past failing statements and warns of them, but its driver does not commit a transaction in which a
  statement failed (vendor/github.com/lib/pq/conn.go:552-557). Such a revocation is answered with an error, the login stays,
  and no warning about a statement ever gets out: `Creds.SecretCredsRevoke`, `Logins.NoneNotRun`.
* An initialization that creates its database and then fails cannot be repeated as it was: `Databases.RepeatWithoutCreating`.
* A clone's target may contain slashes. On the database path of a cluster, its source included, it leaves a folder without a
  record there, and that cluster can no longer be deleted, purged or listed: `Slashes.SlashedCloneJams` says exactly for
  which targets and clusters.
* Metadata about the path of a registered database, given as a cluster, is stored but never read again:
  `Slashes.FoundAsCluster`, `Slashes.EntryIsNeverListed`.
* Metadata addresses join cluster and database with a hyphen, which names may contain: `Lookups.AddressesCollide`.
* A generated owner name loses characters of its UUID from 18 characters of database name on: `Identifiers.OwnerNamesCollide`.
  From 54 characters on no UUID is left, and databases that agree on these share their owner: `Identifiers.LongNamesCollide`.
* A clone onto the endpoint of a cluster that uses the same logins breaks that cluster: `Credentials.CloneKeepsHealth`.

## Model

| member | source | states |
|---|---|---|
| Paths.KeyRoundTrip | backend/backend.go:15-37 | A printed key can be read back: cluster, database, role and metadata names are recovered from the four key shapes, for any slash-free cluster name and any database name, the empty one included. |
| Paths.KeysApart | backend/backend.go:15-37 | A key of one kind is never a key of another kind, so the four kinds of record cannot overwrite each other. |
| Paths.KeysSpelled | backend/backend.go:15-20 | The four key shapes, spelled out. |
| Encoding.FitsOne | backend/backend.go:15-20 | Which kind of record can sit at a printed key: exactly one, determined by how the key was printed. |
| Encoding.GetCluster | backend/path-cluster.go:127-144 | A Get at a cluster's key is a lookup in the typed configuration: found exactly when registered, and then that record. |
| Encoding.GetDb | backend/path-database.go:58-75 | The same for a database's key. |
| Encoding.PutView | backend/path-cluster.go:146-153 | A Put at a key of the right kind keeps the store well-keyed and changes the typed configuration by exactly one write. |
| Encoding.DelView | backend/path-gc.go:130-139 | A Delete at a printed key removes exactly the named record, or nothing when there is none. |
| Encoding.ViewIsFaithful | backend/backend.go:15-20 | The typed configuration loses nothing: two well-keyed stores with the same view are equal, key by key. |
| Footprint.PurgeFootprint | backend/path-gc.go:99-143 | After a purge no key of the cluster or its databases is left and every other key, those of clusters with a common name prefix included, holds what it held. |
| Footprint.DeleteFootprint | backend/path-cluster.go:275-329 | After a delete all keys are still there; those of the cluster and its databases hold the same record with the deleted mark, all others are unchanged. |
| Slashes.SlashedCloneJams | backend/path-clone.go:37-128 | A target may contain a slash, since nothing but emptiness is checked. For every such target and every cluster c, the clone's source included: the clone leaves under c a listed folder that is no record if and only if the target lies below c's databases with a slash inside what follows, or it is on c's database path (a single segment with a slash at its end excepted) and something is copied. |
| Slashes.SomeAreCopied | backend/path-clone.go:97-128 | Something is copied if and only if the source has a wanted database, or the target's own record is listed among the source's databases. |
| Slashes.JammedGivesUp | backend/path-cluster.go:291-304 | With such a folder every delete, purge and listing of that cluster gives up at it, whatever the listing's order and whatever else is stored. |
| Slashes.MissingGivesUp | backend/path-gc.go:116-126 | A listed name without a record makes the three loops give up, wherever in the listing it comes; no round of theirs creates the record. |
| Slashes.CloneOntoDatabasePath | backend/path-clone.go:37-128 | So a clone onto the path of any database, if it is not registered (else it is refused), makes every later delete, purge and listing of that database's cluster give up: of another cluster if a database is copied, of the source itself even without any. |
| Slashes.DatabasePathJams | backend/path-clone.go:37-84 | The instances: every target of the form cluster/database/name is such a one. |
| Slashes.FoundAsCluster | backend/path-metadata.go:52-65 | What the plain cluster field of a metadata request can find: exactly the registered clusters and, given as a path, the registered databases. |
| Slashes.NothingBelowPath | backend/path-metadata.go:69-80 | With a database field beside it a path finds nothing, so such a request is refused. |
| Slashes.EntryIsNeverListed | backend/path-metadata.go:133-140 | Metadata stored under a database's path given as cluster is never listed by its name, so no lookup and no list ever reads it. |
| Slashes.TargetHitsDatabase | backend/path-clone.go:37-45 | A clone onto the path of a database finds a record there, and is refused as a duplicate, if and only if that database is registered. |
| KeyLevel.DisableRefines | backend/path-cluster.go:291-314 | On a well-keyed store the cascade of a delete, taken key by key on raw records, is the planned one: it finishes and ends in the planned configuration. |
| KeyLevel.DropRefines | backend/path-gc.go:110-133 | The same for the cascade of a purge over deleted databases. |
| KeyLevel.ListRefines | backend/path-gc.go:68-87 | The same for the two database listings: they finish with exactly the live, or the deleted, ones. |
| KeyLevel.CloneAtKeys | backend/path-clone.go:81-128 | A complete clone onto a slash-free target leaves, key by key, what storing the target and then running the copy loop on raw records leaves. |
| KeyLevel.CloneFootprint | backend/path-clone.go:81-128 | After a complete clone from a consistent storage the keys are the old ones, the target's and one for each wanted database; every old key holds what it held, every new one the renamed record. |
| Listings.DatabaseListing | backend/path-gc.go:68-70 | Listing below a cluster's database folder gives exactly the names of its databases. |
| Listings.ClusterListing | backend/path-cluster.go:331-335 | Listing the cluster folder gives the cluster names and one folder name for each cluster that has a database. |
| Listings.SuffixFilter | backend/path-cluster.go:339-343 | Dropping the names that end in a slash keeps exactly the cluster names. |
| Listings.RoleListing | backend/path-role.go:123-130 | Listing the role folder gives exactly the role names. |
| Listings.MetaListing | backend/path-metadata.go:133-138 | Listing a metadata folder gives exactly the entries of that type. |
| Vault.Storage.Get | backend/path-cluster.go:127-144 | Answers with what is stored at the key, unless the fault schedule makes the call fail. |
| Vault.Storage.Put | backend/path-cluster.go:146-153 | Makes the write, or fails; a failing Put may have been made all the same. The typed configuration follows. |
| Vault.Storage.Delete | backend/path-gc.go:130-139 | The same for a Delete. |
| Vault.Storage.List | backend/path-cluster.go:331-335 | Answers with every immediate child of the prefix once, folders ending in a slash, in any order, or fails. |
| Vault.StaysSound | backend/path-cluster.go:291-320 | A storage whose writes all kept to the protocol still does after whatever a handler got to write. |
| Protocol.SafeKeepsInv | backend/path-cluster.go:291-320 | Every single write the protocol allows keeps the invariant: no database without its cluster, no live database in a deleted cluster, every record valid and naming its own place. |
| Protocol.InvEverywhere | backend/path-gc.go:110-139 | The invariant holds after every single write of a sequence of safe writes, so a handler may be cut off anywhere. |
| Protocol.InvMeans | backend/path-cluster.go:60-84 | What the invariant says of one cluster, one database and one metadata entry, field by field: a record passes the checks of its own validation and names its own place, a live database has a live cluster. |
| Protocol.MovesOfOneWrite | backend/path-cluster.go:230-232 | One safe write moves a cluster or database at most one step forward in its life cycle. |
| Protocol.Lifecycle | backend/path-gc.go:106-126 | At single-write granularity nothing goes from active to absent without a deleted state in between, nor from deleted to active without an absent one. |
| Protocol.OwnerStable | backend/path-database.go:99-128 | From registration until purge a database keeps its objects owner and its cluster record, over every run. |
| Protocol.DisabledStaysCluster | backend/path-cluster.go:230-232 | A deleted cluster's record does not change until the cluster is purged. |
| Protocol.DisabledStaysDb | backend/path-database.go:99-101 | A deleted database's record does not change until the database is purged. |
| Runs.PlanIsSafe | backend/path-gc.go:110-139 | For every handler, from every configuration that meets the invariant, all planned writes in their order are safe. |
| Runs.CloneIsSafe | backend/path-clone.go:81-128 | A clone stores the cluster before its databases and never writes over anything: all of its writes are safe. |
| Runs.NoLiveDatabase | backend/path-gc.go:122-126 | In a consistent configuration no database of a deleted cluster is live: the refusal inside the purge loop is never taken. |
| Runs.HandlerIsSafe | backend/path-cluster.go:291-320 | Whatever prefix of its writes a handler got to make, they are safe and the invariant holds after them. |
| Runs.RunIsSafe | backend/path-cluster.go:291-320 | The same over every run of any handlers with any faults and cut-offs. |
| Runs.InvariantOverRuns | backend/path-clone.go:81-128 | From an empty storage the invariant holds after every single write of every run. |
| Runs.LifecycleOverRuns | backend/path-gc.go:106-126 | From an empty storage every cluster and database keeps to its life cycle over every run. |
| Operations.DisableLoop | backend/path-cluster.go:297-314 | The cascade of a delete marks exactly the listed live databases and changes nothing else. |
| Operations.DropLoop | backend/path-gc.go:116-133 | The cascade of a purge removes exactly the listed databases. |
| Operations.CopyLoop | backend/path-clone.go:105-125 | The copy loop adds exactly the wanted databases under the target and changes nothing else. |
| Operations.CloneRecordIs | backend/path-clone.go:51-81 | A clone's record is exactly the one that takes host, port and both passwords from the request and keeps user, role, maintenance database, TLS mode, limits and mark of its source. |
| Recovery.DeleteCompletes | backend/path-cluster.go:275-329 | An uninterrupted delete of an active cluster marks it and all its databases, whatever order the listing came in. |
| Recovery.PurgeCompletes | backend/path-gc.go:99-143 | An uninterrupted purge of a deleted cluster succeeds and leaves neither the cluster nor any of its databases. |
| Recovery.DeleteRecovers | backend/path-cluster.go:291-320 | A delete cut off any number of times after any number of writes and then run to completion ends in the configuration of one uninterrupted run, whatever orders the listings came in. |
| Recovery.PurgeRecovers | backend/path-gc.go:110-139 | The same for a purge. |
| Recovery.PurgedNameIsFree | backend/path-cluster.go:223-232 | A purged cluster's name can be registered again and has no databases left. |
| Retries.DeleteUntilAnswered | backend/path-cluster.go:275-329 | Repeating a delete until it answers ends whenever only finitely many calls fail, and the storage is then what one undisturbed delete would have left. |
| Retries.PurgeUntilAnswered | backend/path-gc.go:99-143 | The same for a purge; the last answer may be that the cluster is not found. |
| Fleet.NestRoundTrip | backend/path-cluster.go:331-359 | The flat configuration and the nested one carry the same information if and only if no database is without its cluster. |
| Fleet.FlattenRoundTrip | backend/path-database.go:290-313 | Nesting a flattened fleet gives the fleet back. |
| Fleet.HandlersRefineFleet | backend/path-gc.go:99-143 | Every handler, run on the flat configuration, has on the nested fleet the effect its documentation describes, and only role and metadata handlers touch roles and metadata. |
| Fleet.CloneRefinesFleet | backend/path-clone.go:42-128 | A clone gives the target exactly the wanted databases of the source. |
| Fleet.ExactClone | backend/path-clone.go:42-128 | After a clone without failures the target's databases are exactly the source's (all, or only the live ones), each naming the target with owner and mark unchanged; nothing else has changed. Rests on there being no databases without a cluster. |
| Entries.ClusterConfig.LoadFromFields | backend/path-cluster.go:100-125 | Whatever order the schema is walked in, at the end every field of the request is in its own field of the object, the rest is untouched, and the answer is whether the request's values are acceptable. |
| Entries.RegisteredIs | backend/path-cluster.go:60-125 | The stored record is exactly the one that holds each of the request's values in its own place, the fresh role and passwords, and no mark; it is valid if and only if the request's values are acceptable. |
| Entries.ClusterConfig.Disable | backend/path-cluster.go:55-58 | Marks the configuration as deleted and changes nothing else. |
| Entries.DbConfig.Disable | backend/path-database.go:37-40 | Marks the database as deleted and changes nothing else. |
| Entries.LoadClusterEntry | backend/path-cluster.go:127-144 | A new object holding exactly the stored record, or not found, or the storage's error. |
| Entries.StoreClusterEntry | backend/path-cluster.go:146-153 | Stores exactly the object's value under the given name. |
| Entries.LoadDbEntry | backend/path-database.go:58-75 | A new object holding exactly the stored record, or not found, or the storage's error. |
| Entries.StoreDbEntry | backend/path-database.go:184-191 | Stores exactly the object's value under the given names. |
| Clusters.PathClusterRead | backend/path-cluster.go:203-221 | Answers with the record of an active cluster and refuses missing and deleted ones. |
| Clusters.PathClusterUpdate | backend/path-cluster.go:223-273 | Undisturbed, it is refused for a deleted name if and only if the cluster is deleted, and as invalid if and only if it is not and the request's values are not acceptable; once it got through, the stored record has the request's values field by field with the new logins, and no other record has changed; otherwise the configuration is as before; says what became of the server under every failure, and that without failing calls a server that turned it down is as before; keeps the protocol. |
| Clusters.RegistrationStores | backend/path-cluster.go:240-268 | The planned write of a registration leaves the request's own values, field by field, and nothing else. |
| Clusters.TakeOver | backend/path-cluster.go:240-266 | Success means the root login worked, the management role was new, and both passwords are now the fresh ones; a refusal leaves the server untouched. |
| Clusters.PathClusterDelete | backend/path-cluster.go:275-329 | Under every fault schedule a prefix of the planned cascade is made; without failures all of it: every key of the cluster holds its record marked as deleted, every other key what it held. |
| Clusters.DisableAll | backend/path-cluster.go:297-314 | The loop stops at the first failing call with exactly the databases before it marked. |
| Clusters.DisableDb | backend/path-cluster.go:298-313 | One round: a live database is marked, a marked one is passed over. |
| Clusters.PathClustersList | backend/path-cluster.go:331-359 | Exactly the active clusters, each once, no folder name among them. |
| Databases.GetConn | backend/backend.go:393-426 | Connects with the stored root or management login of the named cluster: success means that login works there. |
| Databases.InitializeDb | backend/path-database.go:138-182 | What is created on the server: done means both logins worked, the database is there, created if asked for, and the owner's role is new; on failure the owner's role is not left behind unless a failing call was carried out, and the database exactly when it was to be created and the root login got so far. |
| Databases.RepeatWithoutCreating | backend/path-database.go:138-157 | A database created by an initialization that then failed makes the same request fail for good; without creating the database the request succeeds exactly when the first would have. |
| Databases.PathDatabaseUpdate | backend/path-database.go:77-136 | Refuses in the code's order; stores the new database last, so a failing initialization writes nothing; the stored record names its place, is not marked and has the requested owner, cut to 63 characters, or a generated one; no other record has changed; says what was created on the server, and that refused or uninitialized requests create nothing there. |
| Databases.DatabaseStores | backend/path-database.go:103-133 | The planned write of a registration leaves that record and nothing else. |
| Databases.InitializableIs | backend/path-database.go:138-182 | What an initialization needs of the server, spelled out: the logins, the databases that must and must not be there, the names that must be free. |
| Databases.PathDatabaseDelete | backend/path-database.go:193-247 | Marks a live database of an active cluster, owner and names kept and no other record changed; refuses everything else in the code's order. |
| Databases.PathDatabaseRead | backend/path-database.go:249-288 | Answers with the record of a live database of an active cluster, refuses everything else. |
| Databases.PathDatabasesList | backend/path-database.go:290-313 | Exactly the live databases of the cluster, each once, without a look at the cluster. |
| Gc.ListDisabledClusters | backend/path-gc.go:12-37 | Exactly the deleted clusters, each once, no folder name among them. |
| Gc.GcGetCluster | backend/path-gc.go:48-66 | Answers with the record of a deleted cluster, refuses missing and active ones. |
| Gc.ListDisabledDatabases | backend/path-gc.go:68-87 | Exactly the deleted databases of the cluster, each once. |
| Gc.GcGetDatabase | backend/path-gc.go:145-165 | Answers with the record of a deleted database whatever its cluster, refuses missing and live ones. |
| Gc.GcPurgeCluster | backend/path-gc.go:99-143 | Under every fault schedule a prefix of the planned cascade is made; from a storage that kept to the protocol the not-marked refusal of a database never happens, and without failures the purge succeeds, no key of the cluster is left and every other key holds what it held. |
| Gc.DropAll | backend/path-gc.go:116-133 | The loop stops at the first failing call or live database with exactly the databases before it removed. |
| Gc.GcPurgeDatabase | backend/path-gc.go:167-196 | Removes a deleted database, refuses missing and live ones. |
| Clone.PathCloneUpdate | backend/path-clone.go:10-95 | Checks in the code's order, then both source logins on the new endpoint, then new passwords there, then the cluster record, then its databases; once through, the target's record differs from the source's in host, port and the two passwords, which are the request's, and in nothing else, and all other clusters are as before; the report accounts for every database if and only if they could be listed; says what was written under every fault schedule, that without failures the copy is exact, and that without failing calls a request turned down leaves the servers alone. |
| Clone.CloneStores | backend/path-clone.go:51-84 | Whatever prefix of a clone's writes was made, the target's record is that one and other clusters, roles and metadata are untouched. |
| Clone.CloneDbConfig | backend/path-clone.go:97-128 | The databases could be listed exactly when that one call did not fail; then total is successes plus deleted ones passed over plus errors and the successes are exactly the acknowledged writes, otherwise the report is nothing and one error. |
| Clone.CopyAll | backend/path-clone.go:105-125 | The loop goes on past errors and keeps its two counters true. |
| Clone.CopyDb | backend/path-clone.go:106-124 | One round: the record is copied with its cluster renamed, unless it is deleted and deleted ones are not wanted. |
| Clone.Rotate | backend/path-clone.go:55-79 | Both old logins are checked on the new endpoint before either password is changed. |
| Credentials.RegistrationKeepsHealth | backend/path-cluster.go:240-266 | After a registration that is carried out all stored logins of active clusters work if and only if no other active cluster shared the root login on that endpoint. |
| Credentials.CloneKeepsHealth | backend/path-clone.go:51-84 | After a clone that is carried out all stored logins work if and only if no active cluster, the source included, used either of the source's logins on the clone's endpoint. |
| Credentials.OthersKeepHealth | backend/path-cluster.go:275-329 | The other handlers, complete or cut off, break no login. |
| Credentials.OtherHandlers | backend/path-gc.go:99-143 | None of the other handlers ever stores an active cluster. |
| Credentials.HealthOverRuns | backend/path-clone.go:51-84 | Over every run without failing calls, requests that were turned down by the backend or by the server included, the stored logins work after every step if and only if no step changed a login another active cluster uses. |
| Credentials.OwnEndpointSuffices | backend/path-cluster.go:240-266 | No sharing of host and port is enough for that. |
| Credentials.CloneOntoItselfBreaks | backend/path-clone.go:51-84 | Cloning a cluster onto its own endpoint is always carried out and always leaves a stored login that no longer works. |
| Credentials.RegistrationIsStep | backend/path-cluster.go:240-266 | Whatever a registration answers when no call fails, it is a step of that model, and it answers without error if and only if the model carries it out. |
| Credentials.CloneIsStep | backend/path-clone.go:51-84 | The same for a clone. |
| Endpoints.OneReaderEach | backend/path-gc.go:145-165 | Every registered database is readable through exactly one of the two read endpoints if and only if live databases have active clusters. |
| Endpoints.ListedIsReadable | backend/path-database.go:290-313 | Listed and readable are the same under exactly that condition, although the list never looks at the cluster. |
| Endpoints.EndpointsAgree | backend/path-creds.go:37-61 | In every consistent configuration listed, readable and fit for credentials, to issue or to renew, are one; the remaining registered databases are the ones readable for purging. |
| Endpoints.ClusterListsPartition | backend/path-gc.go:12-37 | The two cluster lists are disjoint, without duplicates, and together exactly the registered clusters. |
| Endpoints.DatabaseListsPartition | backend/path-gc.go:68-87 | The same for the two database lists of a cluster. |
| Answers.FirstFailingCheck | backend/path-clone.go:11-49 | Every writing handler answers with the first of its checks that fails, each check given by its own condition and in the order of the code, and is done exactly when none fails; only a purge of a missing cluster is an error instead. |
| Answers.ClusterReaders | backend/path-cluster.go:203-221 | When the two cluster readers answer what, the record included. |
| Answers.DatabaseReaders | backend/path-database.go:249-288 | The same for the two database readers. |
| Answers.CredentialAnswers | backend/path-creds.go:37-66 | A creation looks at the role last, a renewal first, a revocation only at cluster and database being there. |
| Leases.Projects | backend/path-creds.go:32-61 | The configuration writes within any history of leases and configuration obey the protocol and have the effect they would have without leases. |
| Leases.HandlerMakesHistory | backend/path-cluster.go:275-329 | What a configuration handler got to write is such a history. |
| Leases.TurnsMakeHistory | backend/path-creds.go:150-236 | Any handlers of configuration and leases, one after the other, each cut off anywhere, make such a history, and the invariant holds at its end. |
| Leases.OneEvent | backend/path-creds.go:134-148 | What one event does to the logins: one is new, one has a new expiry and is otherwise as before, or one is gone. |
| Leases.ClusterFreeze | backend/path-creds.go:179-189 | Once a cluster is deleted, no lease on it is issued or extended in any continuation that does not purge it. |
| Leases.DatabaseFreeze | backend/path-creds.go:191-204 | The same for a single database. |
| Leases.RoleFreeze | backend/path-creds.go:171-177 | Nothing is issued or renewed under a deleted role until it is written again. |
| Leases.OwnerAtRevoke | backend/path-creds.go:263-290 | A lease revoked before its database is purged finds both records and the owner role its creation used. |
| Leases.LeaseKeepsOwner | backend/path-creds.go:134-148 | Nothing about a lease but its expiry changes while it lasts. |
| Leases.UntilBounded | backend/path-creds.go:206-235 | Over any sequence of renewals the expiry told to the server stays within issue time, to the second, plus cap plus the largest slack of a renewal. |
| Expiry.TTLExact | backend/path-role.go:18-24 | A role's TTL in seconds survives 64-bit nanosecond arithmetic if and only if it is within about 292 years. |
| Expiry.TTLGranted | vendor/github.com/hashicorp/vault/sdk/framework/lease.go:33-99 | There is a TTL if and only if the cap is positive and not past, to the second; it is what was asked for, cut to what is left below the cap. |
| Expiry.GrantIsTTL | vendor/github.com/hashicorp/vault/vault/expiration.go:867-873 | Vault's second computation of a renewal's TTL gives the handler's, cut once more to what is left below the cap by then; nothing once the cap is past. |
| Expiry.RenewalCoversLease | backend/path-creds.go:206-212 | After a renewal the login lasts as long as the lease Vault then grants if and only if granting took no longer than what truncation left of the five seconds plus what the lease lost to the cap; four seconds always suffice. |
| Expiry.CappedRenewalCoversLease | backend/path-creds.go:206-212 | When both computations are cut by a cap in whole seconds: if and only if granting, from the second of Vault's own computation on, took no longer than five seconds and the second boundaries between the handler's two readings. |
| Expiry.ZeroTTLGrantsNothing | backend/path-creds.go:206-235 | Where a renewal leaves the login's expiry alone Vault grants nothing either. |
| Expiry.CreationCoversLease | vendor/github.com/hashicorp/vault/vault/request_handling.go:794-806 | Vault computes the lease's TTL again from the answer to a creation. The lease is at most what the login got, less if and only if the role has a smaller maximum; the login lasts as long if and only if granting took no longer than the difference, less what cutting to the second lost. |
| Expiry.NothingToSpare | backend/path-creds.go:86-91 | Without a smaller role maximum the login lasts as long as the lease only if granting took no time and the expiry is a whole second. |
| Expiry.CreationFallsShort | backend/path-creds.go:86-91 | An hour's lease whose login expires half a second early. |
| Expiry.RenewalKeepsBound | backend/path-creds.go:206-212 | A renewal keeps to issue plus cap plus five seconds if and only if formatting time plus TTL is before the end of the second in which issue plus cap falls. |
| Expiry.WholeRenewalKeepsBound | backend/path-creds.go:206-212 | For TTLs in whole seconds, from the inputs alone: if and only if the two readings of the clock, for the TTL and for the expiry, fall in the same second, or what was asked for still fits below the cap at the second one. |
| Expiry.CappedRenewalKeepsBound | backend/path-creds.go:206-212 | When all that is left below a cap in whole seconds is granted, whatever was asked for: if and only if the two readings fall in the same second. |
| Expiry.RenewalOverruns | backend/path-creds.go:206-212 | The bound failing by a second with TTLs in whole seconds and one nanosecond between the two readings. |
| Expiry.RenewalWithinSlack | backend/path-creds.go:206-212 | How far past issue plus cap a renewal tells the server, exactly: five seconds plus, for TTLs in whole seconds, the second boundaries between the two readings; in general within a second of the time between them. |
| Creds.SecretCredsCreate | backend/path-creds.go:32-148 | At most one login is issued, only when cluster, database and role are usable, after all non-blank statements of the role were sent with its owner and expiry, and then is the one login that is new on the server; refusals and earlier failures issue nothing; the handler crashes if and only if cluster and database pass and of the first three storage calls just the third, reading the role, fails. |
| Creds.ReadAll | backend/path-creds.go:32-66 | The reads of a creation: owner, group and role when all are usable; no role at all, exactly under that schedule. |
| Creds.CreationCrashes | backend/path-creds.go:63-66 | A storage that kept to the protocol, holding a valid cluster with a database, and a schedule with a single failing call under which a creation crashes. |
| Creds.SecretCredsRenew | backend/path-creds.go:150-236 | Extends the expiry, and changes nothing else of the login, only when everything is usable, the TTL is positive and the server still has the login; a zero TTL, or an error in computing it, changes nothing. |
| Creds.SecretCredsRevoke | backend/path-creds.go:238-332 | Sends every statement of the role, or the default ones, for the database's present owner, past failing ones; the login ends only if all were carried out, and only then is there an answer without error, with one warning if the role is gone; refuses when a record is missing but not when it is deleted; takes exactly that login from the server; can be repeated after a revocation that was not acknowledged. |
| Creds.DefaultOrder | backend/path-creds.go:23-31 | The default revocation statements in their order: ownership is reassigned before the rest is dropped, both in the user's role, and the user is dropped last. |
| Logins.RunAll | backend/path-creds.go:117-126 | Stops at the first statement that is not carried out; success means all were sent in order and carried out. |
| Logins.Transaction.Execute | vendor/github.com/lib/pq/conn.go:538-557 | A statement is carried out if and only if it and all before it in the transaction can be. |
| Logins.Server.Commit | vendor/github.com/lib/pq/conn.go:538-557 | A transaction takes effect only if all its statements were carried out; otherwise committing it is an error. |
| Logins.AttemptAll | backend/path-creds.go:313-325 | Sends all statements and counts exactly the ones not carried out: the first that could not be and all after it. |
| Logins.NoneNotRun | backend/path-creds.go:319-329 | No warning about a statement if and only if every statement was carried out, so a revocation with such a warning is never committed. |
| Logins.BlankIsSpaces | backend/path-creds.go:118-121 | A statement is passed over if and only if it is all white space. |
| Logins.SpacesAre | backend/path-creds.go:118-118 | Which characters count as white space, by number. |
| Logins.TrimSpaceIs | backend/path-creds.go:118-118 | What is left of a statement is what lies between its outer white space: no more is cut, and no less. |
| Logins.CallsCounted | backend/path-creds.go:117-126 | As many queries are sent as there are statements that are not blank. |
| Logins.CallsAre | backend/path-creds.go:117-126 | The k-th query is the k-th statement that is not blank without its outer white space, with the given parameters. |
| Roles.RoleConfig.LoadFromFields | backend/path-role.go:35-50 | Whatever order the schema is walked in, the result is exactly the request. |
| Roles.PathRoleUpdate | backend/path-role.go:52-81 | Stores exactly the request under the role's name, each of its values in its own field, and changes nothing else. |
| Roles.PathRoleRead | backend/path-role.go:102-116 | Answers with the stored role or refuses a missing one. |
| Roles.PathRoleDelete | backend/path-role.go:118-121 | Removes the role, there or not, and nothing else. |
| Roles.PathRoleList | backend/path-role.go:123-130 | Exactly the stored roles, each once. |
| Metadata.PathMetadataUpdate | backend/path-metadata.go:52-107 | Requires a registered cluster and, if given, database, deleted or not; stores the request's data with its cluster and database under an id that begins with database/ if and only if a database was given and else with cluster/, answers with that id and changes nothing else; a database field with slashes is never found, and so refused. |
| Metadata.UpdateStores | backend/path-metadata.go:67-99 | The planned write leaves exactly that entry at exactly that id. |
| Metadata.MatchAttrs | backend/path-metadata.go:159-172 | Whatever order the query is walked in: yes exactly when the target contains it. |
| Metadata.PathMetadataRead | backend/path-metadata.go:109-157 | Refused for exactly the first of four faults of the request, each named by its condition; otherwise the names of the matching entries of the type, in listing order. |
| Metadata.PathMetadataList | backend/path-metadata.go:174-220 | Every entry's data under its address, no entry missing. |
| Metadata.PathMetadataDelete | backend/path-metadata.go:222-234 | Removes the entry at the address, there or not, and nothing else. |
| Lookups.LookupExact | backend/path-metadata.go:133-157 | A lookup answers with exactly the names of the matching entries, each once, independent of any order. |
| Lookups.FolderTells | backend/path-metadata.go:67-83 | An entry sits below cluster/ if and only if it is about a cluster, below database/ if and only if about a database. |
| Lookups.LookupAnswers | backend/path-metadata.go:120-157 | A lookup of type cluster answers with the names of the clusters, one of type database with cluster/database of the databases, whose data has all of the query: all of them, each once, and nothing of the other type. |
| Lookups.LookupCounts | backend/path-metadata.go:140-157 | One name per matching entry. |
| Lookups.NamesDistinct | backend/path-metadata.go:16-22 | Distinct entries have distinct names. |
| Lookups.LargerQueryFindsLess | backend/path-metadata.go:159-172 | Enlarging the query can only shrink the result. |
| Lookups.SoundIsIndexed | backend/path-metadata.go:67-99 | In every storage that kept to the protocol each entry sits at the address its fields print to. |
| Lookups.AddressesCollide | backend/path-metadata.go:67-83 | Two entries share an address if and only if they are about the same object or about two databases one of whose cluster names continues the other's over a hyphen. |
| Lookups.HyphenFreeAddressesDiffer | backend/path-metadata.go:67-83 | With hyphen-free cluster names every database has its own address. |
| Lookups.HyphensCollide | backend/path-metadata.go:67-83 | Two databases of different clusters that share an address. |
| Identifiers.UserNameKeepsUuid | backend/path-creds.go:68-79 | A user name is at most 63 long and always ends in its whole UUID. |
| Identifiers.UserNamesDistinct | backend/path-creds.go:68-79 | Distinct UUIDs give distinct users, whatever the display names. |
| Identifiers.ManagementRoleNamesDistinct | backend/path-cluster.go:174-183 | Distinct UUIDs give distinct management roles. |
| Identifiers.ManagementRoleIs | backend/path-cluster.go:174-183 | A management role's name, whole. |
| Identifiers.UserNameIs | backend/path-creds.go:68-79 | A user name is the display name's first 26 characters, a hyphen and the UUID. |
| Identifiers.OwnerIs | backend/path-database.go:103-115 | A requested owner is kept as it is, up to 63 characters; a generated one is its prefix, the database's name and the UUID, up to 63 characters. |
| Identifiers.OwnerNameKeeps | backend/path-database.go:103-115 | A generated owner is at most 63 long and keeps exactly min(36, max(0, 53 - length of the database name)) characters of its UUID. |
| Identifiers.OwnerNamesCollide | backend/path-database.go:103-115 | Two generated owners of databases of one name coincide if and only if their UUIDs agree on the kept characters: always from 53 characters on, never up to 17. |
| Identifiers.OwnersCollide | backend/path-database.go:103-115 | Any two databases get the same generated owner if and only if the first 54 characters of name, hyphen and UUID agree. |
| Identifiers.LongNamesCollide | backend/path-database.go:103-115 | Whatever the UUIDs: names of 54 characters and more share it if and only if their first 54 agree, and one of 53 with a longer one if and only if the longer one continues it with a hyphen. |
| Identifiers.UnevenNamesCollide | backend/path-database.go:103-115 | Of two names of different lengths, the shorter below 53: if and only if the longer continues it with a hyphen and what its UUID begins with, as far as is kept. |
| Identifiers.EvenNamesCollide | backend/path-database.go:103-115 | Shorter names of one length do if and only if they are equal and their UUIDs agree on the kept characters. |
| Identifiers.OwnerNotEmpty | backend/path-database.go:103-128 | An owner is never empty, so every stored database passes its own validation although no handler runs it. |
| Servers.Postgres.CreateRole | backend/path-cluster.go:174-201 | Creates a login role unless it exists or the call fails; a failing call may have been carried out, a refused one changes nothing. |
| Servers.Postgres.SetPassword | backend/path-cluster.go:155-172 | Changes the password of an existing user; a failing call may have been carried out, a refused one changes nothing. |
| Servers.Postgres.Connect | backend/path-cluster.go:361-373 | Succeeds exactly when user and password are right and the call does not fail. |
| Servers.Catalog.CreateDatabase | backend/backend.go:23-23 | Creates a database unless there is one of that name or the call fails; a failing call may have been carried out, a refused one changes nothing. |
| Servers.Catalog.SetUpOwner | backend/path-database.go:163-181 | Creates the owner's role unless the name is taken, the privileges are not granted or the call fails; a failing call may have been carried out, a refused one changes nothing. |

## Left out

- Concurrent handlers: the code takes no lock, and registering a database has a long gap between reading the cluster and
  writing the database, so the invariant is not one of interleaved handlers.
- Recovery of an interrupted clone: a second attempt is refused once the target is stored, so only the invariants are claimed.
- Credentials.HealthOverRuns: runs with failing calls are excluded, because passwords change on the server before the record
  is stored: a Put that fails after that leaves the old logins in the storage and the new ones on the server.
- Clone.PathCloneUpdate: the contract asks for a target without slashes. What a complete clone does to the keys with one is
  modelled by KeyLevel.CloneRounds, on records as they decode, without the handler's order of failures.
- Metadata.PathMetadataUpdate: the contract asks for a cluster field without slashes; what is found and stored with one is
  stated in Slashes, apart from the handler.
- The text of the SQL statements, template substitution and identifier quoting; what the server does with a statement is an
  oracle. The default creation statements are a default of the request and not modelled.
- Creds.SecretCredsCreate: a login is there once the role's statements were carried out and committed, whatever they say;
  what they make of it is not modelled. In the same way a login ends for Creds.SecretCredsRevoke.
- Databases.InitializeDb: the privileges it grants are not modelled, only whether the server grants them; and that a
  connection to a database needs that database to be there is looked at here only.
- Connection strings, connection pools, opening, pinging and closing: connecting succeeds or fails.
- JSON encoding of records: the store holds values, and `Disabled *bool` is a boolean in which nil is false. A record that
  does not decode is not modelled; one that is read as a database though it is none decodes to the fields it shares with one
  (KeyLevel.AsDb).
- Formatting of keys with `fmt`: keys are concatenations.
- Failures of UUID generation, and missing or ill-typed internal data of a lease.
- Keys that contain two dots in a row, which Vault's storage view refuses: to the handlers a failing call like any other.
- Vault's further cut of a lease to the lifetime of a batch token, which only shortens it.
- Saturation of time differences beyond 292 years in CalculateTTL, and its unused period.
- Routing, field schemas and their defaults, response and warning texts other than counts, `operations.go`, `help.go`,
  `path-info.go`, `version` and `main.go`: wiring and text.
- Stability of the management role across re-registration: registering an active cluster again creates a new one.
