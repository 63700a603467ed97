# CB-Spider: a verified model of the registry, its protocols and its algorithms

CB-Spider keeps two stores in step. MetaDB rows map a user's name, per connection, to
"SP-XID:CSP-ID"; the real resources live in a cloud (CSP). Concurrent requests change both, under
per-(connection, name) read/write locks only, and every database access and driver call may fail.
This project models that code in Dafny 4.11 and proves what it keeps. `dafny verify dfyconfig.toml`
checks everything.

How the model is built:

- Concurrent behaviour is a state machine: `Enabled`, `Apply`, a `Run` over any sequence of actions,
  an invariant kept by every step, and theorems about every run. No number of requests, names or
  retries is bounded (`SpLock`, `LockOrder`, `KeyRegistry`, `ClusterOwnership`, `DnsZoneSteps`,
  `PublicIpSteps`, `Destroy`, `ConnCache`).
- A machine's requests, left undisturbed, come to what the same requests do at once elsewhere in the
  project (`KeyPairManager`, `PlanIsEffect`, `AloneIsEffect`, `BuildAlone` and the lemmas after it).
- Code that changes things step by step is a method on a class or an array, proved against a
  specification about which the properties are proved.
- MetaDB tables are maps keyed by their primary keys, so `Insert` is the upsert that it is in
  info-store/InfoStore.go. What the cloud, the database, the clock or a driver answers is a parameter,
  one answer per call, with "not found" told apart from other errors. The one thing asked of those
  answers is that a cloud gives a new resource an ID that is not in use, and shows only what it has.
- When a property fails for some inputs, the exact condition under which it holds is stated as an
  if-and-only-if, with the failing inputs named.

Modules:

| module | models |
|---|---|
| Strings | Go's string operations and decimal numerals |
| IidCodec | the "SP-XID:CSP-ID" codec and the short IDs |
| SpLock | the per-name reference-counted lock itself |
| LockOrder | the lock sequences of the managers, and deadlock |
| KeyRegistry, KeyPairManager | key pairs: all interleavings, and the straight-line code as runs of them |
| ClusterStores, ClusterOwnership | clusters and node groups: one request in full, and all interleavings |
| Polling | Waiter, the wait for NCP node group IDs, CORS verification |
| DnsZone, DnsZoneSteps | DNS zones and record names: whole requests, and all interleavings under the zone locks |
| PublicIp, PublicIpSteps | a VM's default public IP: whole requests, and all interleavings |
| Reconcile | the three classifications of rows against a cloud's list |
| Destroy | the fork-join teardown of a connection |
| KeyValidator | the validator that shifts a slice while ranging over it |
| ConnCache | the TTL cache of connections |
| Backup | backup names, rotation, cycles |
| RdbmsRouter | database creation: routing, rollback, SQL text |
| AzureBlocks | block IDs and the listing that decodes them |

Where the code departs from its documentation or its evident intent, the model follows the code:

- The rollback of a failed node group insertion shadows `err` (ClusterManager.go:686-694), so a fully
  compensated failure returns neither a cluster nor an error (`FailureRestores`).
- ListAllResource's inner loop does not stop at a match, unlike its two siblings (`SharedOutIff`).
- DeleteKey answers true by force even when the row could not be deleted (KeyPairManager.go:486-494).
- A type whose last destroy pass lists nothing is missing from the result although earlier passes
  deleted resources of it (`EntryIff`), and an entry carries the errors of an earlier pass beside
  IsAllDeleted whenever a clean pass follows a failed one (`EntryMeans`).
- listBackupFiles does not sort, whatever its comment says; the caller does.
- A failed backup removes the file of its name, which is a finished backup if the name was taken.
- AssignVMDefaultPublicIP deletes a default-named PublicIP that was there before when its association
  fails (`FailedAssignRestores`); Unassign goes on to the driver's removal when the scan fails
  (`UnassignDeletesUserIff`), and an Attach between its scan and its removal can lose a user's PublicIP
  (`LostIff`).
- ValidateKeyValueList shifts the slice that it ranges over, so lists with repeated keys can reject
  inputs that match all of them (`ValidatesIff`).
- CreateCluster read-locks the security groups and key pairs in the caller's order, repeats included, so
  contradicting lists can deadlock with deletions waiting (`CreateClustersDeadlockIff`).
- ALTER DATABASE ... COLLATE takes the collation's charset along, so the charset-API path can succeed
  with another charset than the requested one (`RdbmsRouter.Honoured`).
- Block IDs keep eight characters of the upload ID: uploads that share them share block IDs
  (`BlockIDsEqual`), and shorter upload IDs are misread (`ShortPrefix`).

## Model

| member | source | states |
|---|---|---|
| IidCodec.RoundTrip | api-runtime/common-runtime/CommonManager.go:254-262 | For all XIDs x and CSP IDs c, `getDriverIID` of "x:c" gives back (x, c) if and only if x has no ":" and "x:" does not occur in c. |
| IidCodec.DecodeEncoded | api-runtime/common-runtime/CommonManager.go:254-262 | What decoding gives for every XID without ":", readable or not: c with every "x:" taken out. |
| IidCodec.UserRoundTrip | api-runtime/common-runtime/CommonManager.go:245-252 | The user-side ID and the driver's system ID of a readable row are the CSP ID that was stored. |
| IidCodec.EncodeInjective | api-runtime/common-runtime/CommonManager.go:254-281 | Two readable pairs never share a stored text. |
| IidCodec.ShortIdIsLast | api-runtime/common-runtime/CommonManager.go:188-199 | The short ID of an Azure resource ID is what stands behind its last "/"; any other ID is its own short ID. |
| IidCodec.ShortIdChars | api-runtime/common-runtime/CommonManager.go:188-199 | A short ID has no ":" when the ID has none. |
| IidCodec.RegisterRoundTrip | api-runtime/common-runtime/KeyPairManager.go:117-118 | The "short ID:CSP ID" form that registering stores reads back for every CSP ID without ":". |
| IidCodec.ArnShortId | api-runtime/common-runtime/CommonManager.go:201-214 | The short name taken from a network load balancer's ARN is the load balancer's name. |
| IidCodec.NlbRoundTrip | api-runtime/common-runtime/NLBManager.go:282-285 | The ARN form reads back if and only if the part of the ARN before the name does not contain "name:". |
| IidCodec.NlbNamedAws | api-runtime/common-runtime/NLBManager.go:282-285 | A load balancer called "aws" does not read back. |
| SpLock.StepKeepsInv | api-runtime/common-runtime/sp-lock/splock.go:50-106 | Each atomic step of Lock, Unlock, RLock and RUnlock keeps counts, map entries and owners consistent. |
| SpLock.NeverCrashes | api-runtime/common-runtime/sp-lock/splock.go:65-106 | In every run of any number of goroutines no Unlock meets a missing entry or an unheld mutex. |
| SpLock.MutualExclusion | api-runtime/common-runtime/sp-lock/splock.go:50-106 | Two goroutines inside one name's lock are both readers. |
| SpLock.MapIsNamesInUse | api-runtime/common-runtime/sp-lock/splock.go:50-106 | The map holds exactly the names that somebody holds or waits for: entries appear with the first user and go with the last. |
| SpLock.RefinesPlainLock | api-runtime/common-runtime/sp-lock/splock.go:50-106 | Every step is invisible to, or a step of, a plain per-name read/write lock. |
| SpLock.GrantedWhenFree | api-runtime/common-runtime/sp-lock/splock.go:50-106 | Whoever the plain lock would let in can go in now, or as soon as a goroutine in the last step of its Unlock has taken it. |
| LockOrder.CodeIsInOrder | api-runtime/common-runtime/ClusterManager.go:388-389 | The lock sequences of the cluster, RDBMS, NLB and security group operations climb vpc < sg < key < {cluster, nlb, rdbms}, whatever the lists. |
| LockOrder.OrderByName | api-runtime/common-runtime/ClusterManager.go:388-529 | What that order is: no VPC after anything else, no security group after a key pair or what comes last, no key pair after what comes last, no lock taken for writing that is held already, nothing but reads once a last lock is taken. |
| LockOrder.CreateClusterGuards | api-runtime/common-runtime/ClusterManager.go:388-529 | In every run, under either rule: while CreateCluster is at work nobody changes or deletes its VPC, its security groups or its key pairs, and nobody else works on its name. |
| LockOrder.OthersGuard | api-runtime/common-runtime/SecurityGroupManager.go:355-402 | The same for CreateRDBMS, AddNodeGroup, RegisterCluster and its like, CreateSecurity and ListVpcSecurity, each with what it uses and makes. |
| LockOrder.NeverStuck | api-runtime/common-runtime/ClusterManager.go:455-456 | With locks that grant a read whenever no writer holds them, some unfinished request can always step. |
| LockOrder.NoDeadlock | api-runtime/common-runtime/SecurityGroupManager.go:402-403 | The same over every run of any number of requests, repeats in the lists included. |
| LockOrder.ClimbingNeverStuck | api-runtime/common-runtime/ClusterManager.go:528-529 | Requests that never take a lock twice cannot deadlock under any grant policy, writer preference included. |
| LockOrder.CodeIsShaped | api-runtime/common-runtime/ClusterManager.go:388-389 | In the same sequences whoever takes two locks of one rank has only read until then: the shape that the next theorem asks for, whatever the lists. |
| LockOrder.DeadlocksIffCyclic | api-runtime/common-runtime/ClusterManager.go:455-489 | With writer preference, any number of requests whose sequences are out of a set of the code's, beside any number of single-lock requests, can deadlock if and only if "some sequence takes l before m" has a cycle; a repetition is a cycle of one. |
| LockOrder.CreateClustersDeadlockIff | api-runtime/common-runtime/ClusterManager.go:455-489 | Any number of CreateCluster requests, with deletions beside them, can deadlock if and only if on some connection following their security group lists, or following their key pair lists, leads back to a name. |
| LockOrder.DeadlocksIffRepeats | api-runtime/common-runtime/ClusterManager.go:455-456 | With writer preference (Go's sync.RWMutex), one or any number of requests of one in-order sequence, beside single-lock requests, can deadlock if and only if the sequence takes some lock twice. |
| LockOrder.CreateClusterDeadlocks | api-runtime/common-runtime/ClusterManager.go:455-489 | For CreateCluster that means: if and only if it names a security group twice or uses a key pair in two node groups, whether once or any number of times at once. |
| LockOrder.OppositeListsDeadlock | api-runtime/common-runtime/ClusterManager.go:455-456 | Two CreateCluster requests that name two security groups in opposite orders can deadlock with two deletions of these groups. |
| KeyRegistry.StepKeepsInv | api-runtime/common-runtime/KeyPairManager.go:141-254 | Every step of CreateKey, RegisterKey, DeleteKey and UnregisterResource(KEY) keeps the registry invariant. |
| KeyRegistry.InsertNeverOverwrites | info-store/InfoStore.go:315-327 | Insert is an upsert, yet in no interleaving does it replace a row. |
| KeyRegistry.EveryKeyAccounted | api-runtime/common-runtime/KeyPairManager.go:141-254 | At every point of every interleaving each key pair that CreateKey made is named by its row, or in the hands of the one request holding its lock, or released by exactly one recorded event. |
| KeyRegistry.QuietMeansRecorded | api-runtime/common-runtime/KeyPairManager.go:141-254 | Once all requests have returned, every key pair still owned is named by its own row. |
| KeyRegistry.ReleaseMeans | api-runtime/common-runtime/KeyPairManager.go:236-247 | What any release stands for: the key pair was owned and its name has no row; it was rolled back by its own request, and is gone from the cloud if the driver answered well, or the row that named it was dropped, for the recorded reason. |
| KeyRegistry.DropMeans | api-runtime/common-runtime/KeyPairManager.go:485-492 | Deleting a row releases exactly the key pair that the row names, with the reason found before. |
| KeyRegistry.DeleteReachesItsKey | api-runtime/common-runtime/KeyPairManager.go:465-477 | DeleteKey hands the driver the name and ID that CreateKey was given if and only if the stored pair is readable; a readable one reaches its own key pair. |
| KeyPairManager.KeyPairStores.CreateKey | api-runtime/common-runtime/KeyPairManager.go:141-254 | Rows, cloud and result for every failure point; a readable pair is answered and reads back as it was made; the call is a run of the KeyRegistry machine, so its theorems hold of it. |
| KeyPairManager.KeyPairStores.RegisterKey | api-runtime/common-runtime/KeyPairManager.go:49-133 | The same for RegisterKey, which changes nothing in the cloud; the row gives the driver the registered ID with its short form, and the user the ID, for every ID without ":". |
| KeyPairManager.KeyPairStores.DeleteKey | api-runtime/common-runtime/KeyPairManager.go:411-495 | The same for DeleteKey: the row goes after true, "not found" or by force; by force true is answered even when the row stays. |
| KeyPairManager.EveryKeyHasItsRow | api-runtime/common-runtime/KeyPairManager.go:141-254 | Between calls of the code every key pair made and not released is named by its own row, and no row was ever replaced. |
| ClusterStores.Stores.CreateCluster | api-runtime/common-runtime/ClusterManager.go:531-709 | For every failure point: the rows, the cloud and the outcome that are left stand in the relation which ReturnsIff, ClusterReadsBack, ClusterGroupsReadBack, FailureRestores, OthersUntouched, OrphansIff and DeleteUndoesCreate are about. |
| ClusterStores.ReturnsIff | api-runtime/common-runtime/ClusterManager.go:531-709 | It succeeds exactly for a name that has no row when every call does, the saves of groups that nobody asked for aside. |
| ClusterStores.ClusterReadsBack | api-runtime/common-runtime/ClusterManager.go:637-643 | Success leaves the cluster in the cloud and one new row, under the name and the VPC: it gives the driver the name and ID that the cluster was made with if and only if the pair is readable, and then the user the cloud's ID. |
| ClusterStores.ClusterGroupsReadBack | api-runtime/common-runtime/ClusterManager.go:655-667 | ... and a row for every node group that was asked for and is reported, which reads back the same way. |
| ClusterStores.FailureRestores | api-runtime/common-runtime/ClusterManager.go:619-696 | A CreateCluster that fails, at whichever group of however many, with its compensations succeeding leaves both stores as they were, unless it fails at a group while group rows of the name are already there; a rolled-back group failure returns neither info nor error. |
| ClusterStores.OthersUntouched | api-runtime/common-runtime/ClusterManager.go:619-696 | Whatever fails, no other cluster's rows change, and a failed request leaves its cluster in the cloud only if deleting it failed. |
| ClusterStores.OrphansIff | api-runtime/common-runtime/ClusterManager.go:666-695 | A failed CreateCluster leaves group rows without a cluster row exactly when its rollback deletes the cluster row and then fails with some group row saved. |
| ClusterStores.GetReqNameId | api-runtime/common-runtime/ClusterManager.go:713-720 | The first requested name for a driver-side name, "" when there is none. |
| ClusterStores.InsertedAt | api-runtime/common-runtime/ClusterManager.go:655-667 | The row under a name is that of the last group reported for it. |
| ClusterStores.NotInsertedAt | api-runtime/common-runtime/ClusterManager.go:655-667 | No other row changes. |
| ClusterStores.GroupReadsBack | api-runtime/common-runtime/ClusterManager.go:655-667 | A requested and reported group reads back from its row with the name and ID that the cloud gave. |
| ClusterStores.DeleteUndoesCreate | api-runtime/common-runtime/ClusterManager.go:2129-2147 | DeleteCluster's two row deletions undo a CreateCluster exactly when no group row of the name was there before. |
| ClusterStores.WaitUntilGone | api-runtime/common-runtime/ClusterManager.go:2104-2127 | The polling loop ends within 41 polls; it gives up on a cluster that stays only after 600 seconds. |
| ClusterStores.Stores.DeleteCluster | api-runtime/common-runtime/ClusterManager.go:2055-2149 | For every answer: the rows go exactly when the request gets that far, without the caller's force exactly when the cloud has reported the cluster not found; groups before the cluster, within 41 polls; the result is the delete call's, an error at the first unforced failure. |
| ClusterOwnership.StepKeepsInv | api-runtime/common-runtime/ClusterManager.go:528-709 | Every step of CreateCluster, RegisterCluster, AddNodeGroup, RemoveNodeGroup and DeleteCluster keeps the ownership invariant. |
| ClusterOwnership.GroupsOwned | api-runtime/common-runtime/ClusterManager.go:1328-1427 | In every interleaving a group row whose cluster's lock is free has its cluster row, unless deleting that cluster's group rows failed in a rollback or a forced deletion. |
| ClusterOwnership.NamesUnique | api-runtime/common-runtime/ClusterManager.go:531-557 | In every interleaving a cluster name has one row, whatever its VPC, and no save of a cluster or added group replaces a row. |
| ClusterOwnership.RowGoesAfterCluster | api-runtime/common-runtime/ClusterManager.go:2087-2147 | In every interleaving a cluster row is dropped only by the rollback of its creation or by its deletion, and by an unforced deletion only after the cloud has answered that the cluster is not there. |
| ClusterOwnership.BuildAlone | api-runtime/common-runtime/ClusterManager.go:637-667 | Undisturbed and with every call succeeding, CreateCluster and RegisterCluster of a new name come to the cluster row and all group rows. |
| ClusterOwnership.DeleteAlone | api-runtime/common-runtime/ClusterManager.go:2087-2147 | ... DeleteCluster to no row of the cluster and none of its groups. |
| ClusterOwnership.AddAlone | api-runtime/common-runtime/ClusterManager.go:1328-1427 | ... AddNodeGroup to the group's row ... |
| ClusterOwnership.RemoveAlone | api-runtime/common-runtime/ClusterManager.go:1840-1940 | ... and RemoveNodeGroup to the rows without it. |
| ClusterOwnership.LeaksOnlyByFailure | api-runtime/common-runtime/ClusterManager.go:684-694 | The exception arises by such a failed deletion and by nothing else. |
| ClusterOwnership.RollbackOrphans | api-runtime/common-runtime/ClusterManager.go:684-694 | A rollback's last step leaves group rows without a cluster exactly when it fails while there are such rows. |
| Polling.Waiter.constructor | api-runtime/common-runtime/Waiter.go:23-37 | NewWaiter's defaults: 1 and 120 seconds unless the arguments are larger than 1 and than the sleep. |
| Polling.Waiter.Wait | api-runtime/common-runtime/Waiter.go:40-48 | Wait is granted as long as fewer than Timeout whole seconds have gone by, and sleeps. |
| Polling.GrantLeft | api-runtime/common-runtime/Waiter.go:40-48 | A waiter grants at most Timeout / Sleep waits, rounded up. |
| Polling.DeleteClusterBound | api-runtime/common-runtime/ClusterManager.go:2105 | NewWaiter(15, 600) grants at most 40. |
| Polling.WaitForNCPNodeGroupSystemIDs | api-runtime/common-runtime/ClusterManager.go:735-789 | For any sequence of answers and errors: success exactly when one of the first 24 answers is complete, and then the groups with the IDs of the first complete one, everything else unchanged. |
| Polling.DistinctNamesFilledIn | api-runtime/common-runtime/ClusterManager.go:735-789 | With distinct names exactly the groups that had the temporary ID change, in nothing but the ID. |
| Polling.IndexByName | api-runtime/common-runtime/ClusterManager.go:761-764 | The index of an answer is the last entry of each name. |
| Polling.VerifyCORS | api-runtime/common-runtime/S3Manager.go:2695-2736 | Setting and deleting CORS: true exactly when the first 40 observations contain a window of k consecutive good ones (10 for IBM, else 3), at the end of the first such window. |
| DnsZone.MetaDB.RegisterDNSZone | api-runtime/common-runtime/DNS-ZoneManager.go:102-153 | After any failing insertion the tables are what the ownership and commutation lemmas speak about; success exactly when all insertions succeed, with the kept records under their generated names; the zone's row reads back for every ID without ":". |
| DnsZone.MetaDB.RegisterRecords | api-runtime/common-runtime/DNS-ZoneManager.go:131-148 | The loop writes one row per kept record, numbered in order, up to the first failing insertion. |
| DnsZone.KeptAre | api-runtime/common-runtime/DNS-ZoneManager.go:131-148 | Kept are all records but the NS and SOA records of the domain itself. |
| DnsZone.MetaDB.CreateDNSZone | api-runtime/common-runtime/DNS-ZoneManager.go:186-238 | Exactly on success a zone row is added, which gives driver and user the pair it was made with if that is readable. |
| DnsZone.MetaDB.AddDNSRecord | api-runtime/common-runtime/DNS-ZoneManager.go:479-531 | Exactly on success a row is added under a new name, with the ID of the first record in the driver's answer that has the requested type and name. |
| DnsZone.MetaDB.ChangeDNSRecord | api-runtime/common-runtime/DNS-ZoneManager.go:566-611 | On success the name's row has the ID of the first record of the requested type and name, or is as before when there is none; a failure leaves the row as it was or takes it out. |
| DnsZone.MetaDB.RemoveDNSRecord | api-runtime/common-runtime/DNS-ZoneManager.go:632-686 | The row goes after true, "not found" or by force; which answers are errors, and that true means the driver's true. |
| DnsZone.MetaDB.DeleteDNSZone | api-runtime/common-runtime/DNS-ZoneManager.go:399-442 | Zone row first, record rows second, each deletion free to fail: the effect that EffectKeepsOwned is about, and which answers are errors. |
| DnsZone.MetaDB.AttachRecordNameIds | api-runtime/common-runtime/DNS-ZoneManager.go:355-371 | Exactly the reported records that have a row, in order, each with the name of one of its rows. |
| DnsZone.MetaDB.GetDNSZone | api-runtime/common-runtime/DNS-ZoneManager.go:301-353 | The zone that the driver reports for the row's decoded ID, its records filtered that way. |
| DnsZone.RegisterThenGet | api-runtime/common-runtime/DNS-ZoneManager.go:131-152 | Getting a freshly registered zone returns exactly the records that are not NS or SOA records of the domain itself, in the cloud's order, each under the zone's name, "-record-" and its number. |
| DnsZone.EffectKeepsOwned | api-runtime/common-runtime/DNS-ZoneManager.go:426-441 | A request leaves every record row with its zone row if and only if it is not a deletion that drops the zone row and fails to drop its records. |
| DnsZone.RunKeepsOwned | api-runtime/common-runtime/DNS-ZoneManager.go:426-441 | The same over every run of requests. |
| DnsZone.RegistersIntoEmpty | api-runtime/common-runtime/DNS-ZoneManager.go:105-114 | So a name without a zone row has no record rows: what RegisterThenGet asks for. |
| DnsZone.ChangeKeepsAlias | api-runtime/common-runtime/DNS-ZoneManager.go:590-608 | A change keeps the one row of the record's name, except when its insertion fails after its deletion. |
| DnsZone.CallsCommute | api-runtime/common-runtime/DNS-ZoneManager.go:102-103 | As whole requests: those on different zones, which no common lock orders, leave the same tables in either order. |
| DnsZoneSteps.PlanIsEffect | api-runtime/common-runtime/DNS-ZoneManager.go:102-153 | The statements that a request executes one by one make up its effect, for all six requests and all failures. |
| DnsZoneSteps.OneAfterTheOther | api-runtime/common-runtime/DNS-ZoneManager.go:399-400 | In every interleaving of the reads and single-row writes of any number of requests, under one lock per zone: a zone in which nobody is writing has the rows that the finished requests give it one after the other, in the order of their unlocking; once all have returned, so have both tables. |
| DnsZoneSteps.ReadersSeeFinished | api-runtime/common-runtime/DNS-ZoneManager.go:327-338 | A GetDNSZone that holds its read lock sees rows of finished requests only. |
| DnsZoneSteps.OwnedWhereStill | api-runtime/common-runtime/DNS-ZoneManager.go:426-441 | In every interleaving record rows have their zone's row wherever nobody is writing, unless a finished deletion has failed to drop them. |
| DnsZone.FindRecordSystemId | api-runtime/common-runtime/DNS-ZoneManager.go:688-696 | The ID of the first record of the type whose name is the given one, as it is or with one trailing dot; "" when there is none. |
| DnsZone.FindRecordFinds | api-runtime/common-runtime/DNS-ZoneManager.go:688-703 | The specification says the same of every list, type and name. |
| DnsZone.TrailingDotIgnored | api-runtime/common-runtime/DNS-ZoneManager.go:688-703 | With fully qualified record names the caller's trailing dot makes no difference. |
| PublicIp.ResolveDefaultNIC | api-runtime/common-runtime/VMPublicIPManager.go:32-43 | The first NIC with device index 0, or what the VM itself reports. |
| PublicIp.GcpVMNameComesBack | api-runtime/common-runtime/PublicIPManager.go:525-537 | On GCP the VM's name comes back from the NIC's name if and only if it has no "/". |
| PublicIp.OthersAreNamed | api-runtime/common-runtime/VMPublicIPManager.go:46-69 | What other providers are told: on NCP the VM, on KT the VM with NIC and address, elsewhere NIC and address. |
| PublicIp.Connection.CreatePublicIP | api-runtime/common-runtime/PublicIPManager.go:163-239 | A new name gets a row and an unassociated address, a failing insertion takes the address back if it can, an existing name is answered without a change. |
| PublicIp.Connection.DeletePublicIP | api-runtime/common-runtime/PublicIPManager.go:463-487 | Address, then row, for each answer; an error after the address went leaves the row. |
| PublicIp.Connection.AssignVMDefaultPublicIP | api-runtime/common-runtime/VMPublicIPManager.go:74-116 | Exactly when Assign succeeds; then the default-named PublicIP has a row and its address, which the cloud knows if it is new, is on the VM, and every other row and address is as before. |
| PublicIp.Connection.DeleteWithRetry | api-runtime/common-runtime/VMPublicIPManager.go:193-206 | The retries end within six attempts, stop at the first without an error, and give up only after 15 seconds. |
| PublicIp.Connection.FindTracked | api-runtime/common-runtime/VMPublicIPManager.go:210-222 | The first listed PublicIP that is seen on the VM. |
| PublicIp.Connection.UnassignVMDefaultPublicIP | api-runtime/common-runtime/VMPublicIPManager.go:152-185 | The three cases and when each succeeds, with what goes and what stays in rows and addresses; at most six deletion attempts, the scan without a PublicIP on the VM before any removal. |
| PublicIp.EffectKeepsUsers | api-runtime/common-runtime/VMPublicIPManager.go:139-185 | One request deletes no user-created PublicIP when the scan is complete. |
| PublicIp.RunKeepsUsers | api-runtime/common-runtime/VMPublicIPManager.go:139-185 | Over every sequence of whole requests of Assign, Unassign, Attach, Detach and the users, with complete scans: a PublicIP whose name does not end in "-defaultpip" stays, with its address, until its user deletes it. Interleaved steps are LostIff's subject. |
| PublicIp.UnassignDeletesUserIff | api-runtime/common-runtime/VMPublicIPManager.go:210-222 | With an incomplete scan: Unassign deletes a user's PublicIP exactly when the VM has it, nothing on the VM is seen and the driver's removal takes it. |
| PublicIp.FailedAssignRestores | api-runtime/common-runtime/VMPublicIPManager.go:98-111 | A failed Assign whose compensation succeeds leaves rows and addresses as they were if and only if no default-named PublicIP was there before. |
| PublicIp.InterleavedUnassignDeletesUser | api-runtime/common-runtime/VMPublicIPManager.go:152-185 | An input on which interleaved requests lose a user's PublicIP although scans are complete and the cloud answers truly: the Attach falls between the scan and the removal of an Unassign. |
| PublicIpSteps.LostIff | api-runtime/common-runtime/VMPublicIPManager.go:152-222 | Over every interleaving of the steps of any number of requests, each row of a scan visited on its own, for all answers: a PublicIP that a user has created and not deleted is lost if and only if it is attached to the VM of some Unassign after that request is done with it in its scan, or unseen by it, is not moved again, and that request's removal takes it. |
| PublicIpSteps.AloneIsEffect | api-runtime/common-runtime/VMPublicIPManager.go:74-222 | Every request of PublicIp is what the machine's steps of it come to when nobody comes in between, for all answers. |
| PublicIpSteps.StepTakesIff | api-runtime/common-runtime/VMPublicIPManager.go:230-265 | One step of one request takes a user's PublicIP exactly when it is the removal of an Unassign from the VM that has it and the driver takes that address. |
| PublicIpSteps.WasAttached | api-runtime/common-runtime/VMPublicIPManager.go:270-293 | A PublicIP that is on a VM was attached to it by an association that succeeded, and not moved since. |
| PublicIpSteps.KeptApartKeeps | api-runtime/common-runtime/VMPublicIPManager.go:152-185 | So no user's PublicIP is ever lost when scans list and see everything and nobody attaches it to a VM while an Unassign of that VM is at work. |
| Reconcile.ListAllResource | api-runtime/common-runtime/CommonManager.go:925-1107 | The three lists of all four branches, the mapped one with a row for every match. |
| Reconcile.ClassifyResourceLists | api-runtime/common-runtime/CommonManager.go:1289-1315 | The three lists, the mapped one with the cloud's entry for every matched row. |
| Reconcile.ListAllS3Buckets | api-runtime/common-runtime/S3Manager.go:3864-3932 | The three lists over bucket names. |
| Reconcile.SharedOutIff | api-runtime/common-runtime/CommonManager.go:1069-1082 | Mapped and Spider-only rows are together a permutation of the rows if and only if no row's ID is twice in the cloud's list: the inner loop does not stop at a match. |
| Reconcile.ClassifiedMeans | api-runtime/common-runtime/CommonManager.go:1069-1105 | The one specification: rows shared out as a permutation, cloud-only exactly the entries that no row has, no ID in two categories. |
| Reconcile.ResourceListsClassified | api-runtime/common-runtime/CommonManager.go:1069-1105 | ListAllResource meets it for distinct cloud IDs. |
| Reconcile.InfoListsClassified | api-runtime/common-runtime/CommonManager.go:1294-1313 | In classifyResourceLists the mapped entry of a row is then the one entry with its ID. |
| Reconcile.BucketListsClassified | api-runtime/common-runtime/S3Manager.go:3897-3932 | ListAllS3Buckets meets it. |
| Reconcile.ReadableRowsDecode | api-runtime/common-runtime/CommonManager.go:916-919 | A readable row's ID is the CSP ID it was stored with. |
| Destroy.StepKeepsInv | api-runtime/common-runtime/CommonManager.go:1942-1989 | Every goroutine step of a teardown keeps the invariant. |
| Destroy.GroupsInOrder | api-runtime/common-runtime/CommonManager.go:1942-1989 | In every interleaving, when a delete starts, all deletes of earlier groups have returned, counted name by name, and none of them starts any more. |
| Destroy.TypesInOrder | api-runtime/common-runtime/CommonManager.go:1924-1930 | By name: VPCs are deleted when every delete of anything else has returned, key pairs and security groups after clusters, images, load balancers, databases, VMs and disks, disks after the VMs and what comes before them, VMs after the first four. |
| Destroy.PassesComplete | api-runtime/common-runtime/CommonManager.go:1993-2058 | Each pass deletes or reports exactly the names it listed, counted with repeats; a type takes at most ten passes and collects what they deleted. |
| Destroy.CallsRecorded | api-runtime/common-runtime/CommonManager.go:1993-2058 | In every interleaving a name is recorded as deleted exactly as often as its delete call has returned without an error, and as remaining exactly as often as with one. |
| Destroy.TenPasses | api-runtime/common-runtime/CommonManager.go:1945-1985 | A type is given up with errors left after exactly ten passes; every pass before its last has failed. |
| Destroy.ErrorIff | api-runtime/common-runtime/CommonManager.go:1948-1987 | Destroy returns an error exactly when some listing has failed. |
| Destroy.AllDestroyedMeans | api-runtime/common-runtime/CommonManager.go:1945-1989 | IsAllDestroyed is true if and only if the last pass of every type listed nothing or deleted all it listed. |
| Destroy.EntryIff | api-runtime/common-runtime/CommonManager.go:1954-1978 | The result has exactly one entry for each type whose last pass listed something, and none for the others, even if earlier passes deleted resources. |
| Destroy.EntryMeans | api-runtime/common-runtime/CommonManager.go:1945-1978 | An entry's deletions are those of all passes, its errors those of the last pass that had any, IsAllDeleted says that the last pass left nothing; it carries IsAllDeleted and errors together if and only if a clean pass came after a failed one. |
| Destroy.NeverBlocked | api-runtime/common-runtime/CommonManager.go:1942-1989 | Until Destroy has returned some goroutine can take its next step. |
| KeyValidator.ValidateKeyValueList | cloud-info-manager/KeyValueListValidator.go:19-40 | The loops on the shared, shifting array decide what the specification decides; the caller's list is not changed. |
| KeyValidator.SweepKey | cloud-info-manager/KeyValueListValidator.go:26-31 | One input key's loop, its bound fixed at the start, its elements read as the array stands. |
| KeyValidator.RemoveSlice | cloud-info-manager/KeyValueListValidator.go:42-50 | The shift within the array, the stale last element included. |
| KeyValidator.AcceptedIsMatched | cloud-info-manager/KeyValueListValidator.go:19-40 | For all inputs: an accepted list matches every valid key. |
| KeyValidator.DistinctAccepts | cloud-info-manager/KeyValueListValidator.go:19-40 | For valid keys distinct ignoring case: accepted if and only if every valid key is matched. |
| KeyValidator.ValidatesIff | cloud-info-manager/KeyValueListValidator.go:19-50 | Every valid list is decided rightly for all inputs if and only if no sweep stumbles among its keys of any two sorts: jumps over a key to cross off that is spelled otherwise than the last one. |
| KeyValidator.OnlyLastRepeatedIsSound | cloud-info-manager/KeyValueListValidator.go:42-50 | That holds when only the last key is repeated, always in the same spelling. |
| KeyValidator.ValidatesIffDistinct | cloud-info-manager/KeyValueListValidator.go:19-50 | Where the last key is like no other that means: if and only if the keys are distinct ignoring case. |
| KeyValidator.StumblingRejected | cloud-info-manager/KeyValueListValidator.go:26-31 | The inputs that show it, for every list that is not decided rightly: they match every valid key and are rejected. |
| KeyValidator.SpellingMatters | cloud-info-manager/KeyValueListValidator.go:42-50 | Two spellings of one key are decided rightly, the same two with the first one again are not. |
| ConnCache.ConnectionCache.CommonGetCloudConnection | cloud-control-manager/CloudDriverHandler_common.go:116-154 | One caller at a time: a hit changes nothing; a miss drops what has expired and stores the new connection, after which no entry has expired and no unexpired one is gone. |
| ConnCache.StepKeepsInv | cloud-control-manager/CloudDriverHandler_common.go:129-154 | Every load, test, visit, deletion and store by concurrent callers keeps the invariant. |
| ConnCache.CachedIsInTime | cloud-control-manager/CloudDriverHandler_common.go:129-136 | In every interleaving a cached connection is given out less than the TTL after it was stamped. |
| ConnCache.RightIffInjective | cloud-control-manager/CloudDriverHandler_common.go:129-134 | In all interleavings all callers get connections built for what they asked for if and only if no two ConnectionInfos share a key. |
| Backup.NameOrder | info-store/backup.go:24-26 | The string order of backup names is the order of their times, up to the year 9999. |
| Backup.NamesSortIff | info-store/backup.go:24-26 | Names sort by their times for all times up to the end of a year if and only if that year is at most 9999. |
| Backup.YearTenThousand | info-store/backup.go:24-26 | The failing pair: names of the year 10000 sort before those of 9999. |
| Backup.BackupDir.RotateBackups | info-store/backup.go:72-98 | The rotation removes the first names in string order, down to the maximum. |
| Backup.BackupDir.ListBackupFiles | info-store/backup.go:101-122 | The names with the prefix and the suffix, each once. |
| Backup.BackupDir.PerformBackup | info-store/backup_scheduler.go:50-80 | The effect of one cycle, a failed backup included. |
| Backup.KeepsLatest | info-store/backup_scheduler.go:50-80 | After any run of cycles at increasing times, with removals that succeed, the directory holds its other files and exactly the latest min(n, maxCount) backups. |
| RdbmsRouter.StatementReadsBack | api-runtime/common-runtime/RDBMSManager.go:1311-1333 | The CREATE DATABASE text reads back as the three values if and only if none of them holds a backtick. |
| RdbmsRouter.StatementText | api-runtime/common-runtime/RDBMSManager.go:1311-1333 | The statement word for word, with both clauses and with none. |
| RdbmsRouter.ValidatedReadsBack | api-runtime/common-runtime/RDBMSManager.go:1483-1503 | For validated values it always does. |
| RdbmsRouter.Instance.CreateRDBMSDatabase | api-runtime/common-runtime/RDBMSManager.go:1531-1667 | In the request's own values, trimmed: exactly when it succeeds; the new database has the given charset and collation and the engine's own where none is given, a collation bringing its charset along; an error leaves a database behind exactly when the ALTER of the charset API fails and nothing cleans up. |
| Strings.TrimSpaceTakesOff | api-runtime/common-runtime/RDBMSManager.go:1550-1556 | Trimming takes off spaces at both ends and nothing else. |
| RdbmsRouter.Instance.Dispatch | api-runtime/common-runtime/RDBMSManager.go:1590-1667 | For every set of interfaces and every failure point: when the chosen way succeeds, what database it leaves, and when an error leaves one behind; with drivers that manage databases too only a failed cleanup does. |
| RdbmsRouter.Instance.CreateByCharsetApi | api-runtime/common-runtime/RDBMSManager.go:1613-1635 | The two-step creation and its rollback. |
| AzureBlocks.Base64RoundTrip | api-runtime/common-runtime/S3Manager_azure.go:137-142 | Base64 decoding undoes encoding, for all byte sequences. |
| AzureBlocks.BlockIDDecodes | api-runtime/common-runtime/S3Manager_azure.go:137-142 | A block ID decodes to prefix and number. |
| AzureBlocks.BlockReadsBack | api-runtime/common-runtime/S3Manager_azure.go:829-853 | A block is listed under an upload ID exactly when it was staged under one with the same eight-character prefix, and then with its own part number, for all 64-bit numbers. |
| AzureBlocks.BlockIDsEqual | api-runtime/common-runtime/S3Manager_azure.go:137-142 | Block IDs are equal if and only if prefix and part number are. |
| AzureBlocks.BlockIDSize | api-runtime/common-runtime/S3Manager_azure.go:135-142 | They have one length if and only if the number fits six places. |
| AzureBlocks.ListAzureParts | api-runtime/common-runtime/S3Manager_azure.go:817-857 | The listing's loop, with the slice that can be out of range. |
| AzureBlocks.ListsStagedParts | api-runtime/common-runtime/S3Manager_azure.go:817-857 | The listing is exactly the parts staged under the prefix, in the blob's order. |
| AzureBlocks.ShortPrefix | api-runtime/common-runtime/S3Manager_azure.go:817-842 | With k < 8 characters: a panic for k < 2, else the right number if and only if it is below 10^(k-2). |

## Left out

- Everything behind a driver, SQL or gorm call, minio, TLS, REST, CLI, logging and environment parsing: only the results of calls are modelled, as parameters.
- PERMISSION_BASED_CONTROL_MODE: it widens name checks across connections while the locks stay per connection, so these invariants are not its.
- Generation of SP-XIDs (iidm.New): XIDs are parameters; that a stored pair is readable is a stated condition where it matters.
- GetKey, ListKey and the other read-only requests of the key pair, cluster and PublicIP managers: they take read locks and change nothing. KeyRegistry grants its lock to one request at a time; readers and writers are SpLock's and LockOrder's subject.
- KeyRegistry.EveryKeyAccounted: UnregisterResource is modelled for key pairs only; UnregisterResource of a cluster leaves node group rows behind (CommonManager.go:699-709) and is not a request of ClusterOwnership.
- ClusterStores.Stores.CreateCluster: the return after a timed-out NCP wait, which leaves the created cluster in the cloud (ClusterManager.go:626-631), and everything before the existence check are not modelled; the node groups are those after the wait. The cloud's own deletion in DeleteCluster is an answer, not a change of the model's cloud.
- ClusterOwnership.GroupsOwned: node group rows only, not the node groups in the cloud.
- NLB and RDBMS row uniqueness: create checks names inside one VPC while delete goes by connection and name, so there is none to prove.
- LockOrder.NoDeadlock: requests are their lock sequences; what they do inside is one step that always ends. VM and VPC managers are not part of this model.
- PublicIpSteps.LostIff: within one connection. RegisterPublicIP of an address that is already attached is not modelled: users' PublicIPs start unattached. Row names map straight to the CSP ID that the codec would decode.
- The wait for a VM's public IP to become visible after an Assign: it changes nothing.
- ConnCache.CachedIsInTime: the time meant is that of the test of the entry, not of the caller's later use. The retries of GetCloudConnection on "dial" errors are not modelled.
- Backup.KeepsLatest: the formatted times must increase; a local clock that is set back does not do that. Other writers of the directory are not modelled.
- RdbmsRouter.Instance.CreateRDBMSDatabase: the engine is its default charset, its collations and the rules for combining them; PostgreSQL's statement, which never carries either, is not parsed.
- AzureBlocks.BlockIDDecodes: upload IDs are ASCII (the code itself makes them so), since "%.8s" counts runes and the listing counts bytes.
- Destroy: what the individual delete calls do; listing errors end a type as they do in the code.
- Per-type copies of the same create/delete code (Disk, MyImage, NIC, FileSystem), TagManager, Topology, price, spec, region and quota calls, ForceEmptyBucket, kubeconfig text: easy or repeated members.
- Strings.EqualFold: case folding is a function parameter where the argument needs no particular one, and ASCII folding for the provider names and engines that the code compares with; `strings.ToLower` on engine names is taken as ASCII.
