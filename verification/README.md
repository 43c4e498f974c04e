# Verified model of the tenant control plane

This project models the parts of the control plane that are hard to get right, and proves what they promise: the
concurrent life of a tenant (create, provision, suspend, resume, delete) over shared rows, node RAM and Proxmox
containers; the Proxmox client cache; the login limiter; address allocation; shell and LIKE escaping; billing
webhooks; token revocation; listener paging; and the WireGuard and Caddy reconcilers.

`dafny verify dfyconfig.toml` checks all of it.

## How it is built

Code that changes state is written as classes and methods whose contracts give the whole new state, most often as a
function of the old one; what the program promises is then proved of those functions for every input or every run.

- `Stores` holds the SQL statements on tenant and node rows and the Proxmox calls, each one atomic step that a fault
  may turn into no effect. `ProvisionJob` is one provisioning goroutine, as steps and as straight-line code.
  `ControlPlane` interleaves any number of creates, goroutines, deletes, suspends and resumes; `Step` is total, so a
  sequence of actions is any schedule with any faults. `Safety` is the inductive invariant, `Guarantees`, `JobHistory`
  and `RamLedger` draw the theorems, and `Lifecycle` proves the handlers' and the service's straight-line code equal to
  their actors running alone.
- `ClientCache`, `LoginLimiter`, `IpAlloc`, `ShellQuote`, `LikePattern`, `Billing`, `Tokens`, `Paging`, `WireGuard`
  and `Caddy` are one component each.

Faults, clocks, generated ids, VMIDs and tokens, the order in which Go meets map keys, and the live listener counts are
parameters. Ghost state (the reservation ledger, the limiter's history) records what happened and is never read by code.

## What the proofs turned up

- Deleting a tenant whose provisioning failed returns its RAM a second time. The allocation is exact on a run if and
  only if no reservation is released twice, and a concrete run is given where a node counts 0 MB with 50 MB in use.
- A failed attempt whose error mark and release go through leaves no other trace if and only if it leaves no container:
  one stays behind when the clone's task reports failure after creating it, when a panic comes between the clone and
  the delete, or when the best-effort delete fails.
- A node update that changes only the URL does not invalidate the cached client. The cached URLs are coherent on a run if
  and only if no such update hits a node whose URL is held with no invalidation on its way. For tokens the cache is
  always coherent.
- The limiter's eviction scan uses the empty string both as a key and as "none yet". Whatever the map's order it drops a
  least recent entry if and only if the empty address is not strictly the oldest of several; otherwise any other entry
  may go, on a full limiter too. Addresses of nothing but blanks are the ones that normalise to it.
- Webhook handlers are described as idempotent so that a replay converges. A repeat changes nothing if and only if it
  writes nothing or the last event that wrote its target decided the same; so a late repeat of a live update brings a
  deleted subscription's tier back.
- The DNS address in a peer configuration is taken from the CIDR as configured. It can be handed out to a peer exactly
  when the CIDR has host bits set and the next address lies below the broadcast.
- `has_more` is right exactly as long as offset plus limit fits an `int`.
- A peer's preshared key or endpoint that is dropped from the table stays on the interface through every sync.
- When the second half of a route upsert fails the tenant is left without a route, not with its old one.

## Model

| member | source | states |
|---|---|---|
| Stores.TenantStore.CompareAndSwap | internal/tenant/store.go:254-347 | a conditional status update changes that one row's status if it is in the from-set, reports a conflict otherwise, and does nothing when the database is down |
| Stores.TenantStore.SetActive | internal/tenant/store.go:284-298 | provisioning to active with the container id recorded in the same statement |
| Stores.TenantStore.SetError | internal/tenant/store.go:300-314 | only a provisioning or deleting tenant can be marked failed |
| Stores.TenantStore.SetDeleting | internal/tenant/store.go:316-331 | only active, failed and suspended tenants can start being deleted |
| Stores.TenantStore.SetDeleted | internal/tenant/store.go:333-347 | only a deleting tenant becomes deleted |
| Stores.TenantStore.SetSuspended | internal/tenant/store.go:254-267 | only an active tenant is suspended |
| Stores.TenantStore.SetResumed | internal/tenant/store.go:269-282 | only a suspended tenant is resumed |
| Stores.NodeStore.ReserveRAM | internal/node/store.go:242-256 | reserves only what the node has left, and the ledger gains that reservation |
| Stores.NodeStore.ReleaseRAM | internal/node/store.go:258-267 | subtracts down to zero at most, and the ledger loses the tenant's reservation |
| Stores.NodeStore.SetTotal | internal/node/store.go:115-182 | a total below the allocation matches no row |
| Stores.Hypervisor.Delete | internal/proxmox/errors.go:8-36 | a container that is already gone counts as deleted; any other failure leaves it |
| Stores.TransitionFollowsGraph | internal/tenant/store.go:254-347 | a compare-and-swap along edges of the status graph keeps every row on the graph |
| Stores.ActivationFollowsGraph | internal/tenant/store.go:284-298 | so does an activation, which may only fill in a container id while provisioning |
| ProvisionJob.JobNextOk | internal/provisioner/provisioner.go:319-567 | every call of a provisioning goroutine, whatever its outcome, keeps the shape of what it has done and undone |
| ProvisionJob.StartComesLast | internal/provisioner/provisioner.go:371-472 | in one goroutine a start is never issued before that container was cloned, its mounts set and, if the goroutine found a network in its project, its network set |
| ProvisionJob.FinishedJob | internal/provisioner/provisioner.go:319-567 | a finished goroutine either activated the tenant with no delete, no error mark and no release, or made exactly one error mark and at most one release, with a delete of the cloned container attempted first unless it panicked |
| ProvisionJob.RowsAreLogged | internal/provisioner/provisioner.go:319-567 | tenant rows change only at a logged activation or error mark |
| ProvisionJob.BoxesAreLogged | internal/provisioner/provisioner.go:319-567 | containers change only at the clone or at a logged delete |
| ProvisionJob.RamIsLogged | internal/provisioner/provisioner.go:715-725 | RAM changes only at a logged release |
| ProvisionJob.ActivationRecords | internal/provisioner/provisioner.go:505-510 | an activation puts status and container id into the row |
| ProvisionJob.Provisioner.SetError | internal/provisioner/provisioner.go:715-725 | marks the error, then releases if there is RAM, each best effort |
| ProvisionJob.Provisioner.CleanupAndError | internal/provisioner/provisioner.go:727-739 | deletes the container first, then as setError |
| ProvisionJob.Provisioner.DoProvision | internal/provisioner/provisioner.go:319-567 | the straight-line routine, up to its return or its first panic |
| ProvisionJob.Provisioner.Provision | internal/provisioner/provisioner.go:297-317 | with the deferred recover: the world the one-expression specification gives for every pattern of failures and panics |
| ProvisionJob.AttemptEnds | internal/provisioner/provisioner.go:297-567 | how an attempt run alone ends for every pattern of outcomes: the tenant up; or marked and released, with the container still there exactly if it was created and left behind by a lost clone, a panic before its delete, or a failing delete |
| ProvisionJob.ProvisionIsAllOrNothing | internal/provisioner/provisioner.go:297-567 | if the error mark and the release go through, the world is as before but for these two, or the tenant is up, if and only if no container is left behind |
| ProvisionJob.LostCloneLeavesBox | internal/provisioner/provisioner.go:371-390 | the exception: a clone that fails after creating its container leaves it on a failed tenant whose row does not name it |
| ProvisionJob.SoloRun | internal/provisioner/provisioner.go:297-567 | the goroutine's single calls, run without interference, come to exactly the world of Provision, panics included |
| ProvisionJob.RunJobOk | internal/provisioner/provisioner.go:319-567 | a goroutine left alone finishes, in one of the two ways |
| Lifecycle.LifecycleService.Create | internal/tenant/lifecycle.go:185-230 | refused exactly if the node has not the RAM, successful exactly if reservation and insert go through, and then the row is new and provisioning and the node's figure raised; on failure rows and figures are as before once the release went through; equals the machine's create running alone |
| Lifecycle.LifecycleService.Delete | internal/tenant/lifecycle.go:243-299 | success exactly if the project lookup answers, the stored row can go into deletion, and each call that is not best effort works, the closing read included; refused exactly if the tenant as seen or as stored is in no state for it; the whole state it leaves: row deleted, container gone and RAM returned, or, when the container cannot be removed, row failed and all else kept; equals the machine's delete running alone |
| Lifecycle.LifecycleService.Deprovision | internal/provisioner/provisioner.go:590-667 | the same from the compare-and-swap on: when it answers what, and the state it leaves |
| Lifecycle.LifecycleService.Toggle | internal/tenant/handler.go:230-348 | success exactly if the tenant as seen and as stored is in the status needed and every call works, the closing read included; refused exactly if it is not in that status; the row is swapped unless the first update failed or a rollback took it back, and nothing else changes; equals the machine's suspend or resume running alone |
| Safety.StepKeepsInv | internal/provisioner/provisioner.go:300-739 | every step of every actor keeps the invariant that ties program counters, rows, reservations and containers together |
| Safety.RunKeepsInv | internal/provisioner/provisioner.go:300-739 | hence every run does |
| Safety.ReachableInv | internal/provisioner/provisioner.go:300-739 | and every reachable state satisfies it |
| Safety.OtherKeeps | internal/tenant/lifecycle.go:243-299 | a call by one actor leaves what every other actor relies on, on the same tenant too |
| Guarantees.StepFollowsGraph | internal/tenant/store.go:254-347 | in every reachable state every step moves statuses only along the graph, and never changes node, project or a recorded container id |
| Guarantees.NeverRevived | internal/tenant/handler.go:253-275 | no run, rollbacks included, takes a failed, deleting or deleted tenant back to life; deleted stays deleted |
| Guarantees.RequestsStart | internal/tenant/lifecycle.go:245-249 | a create, delete, suspend or resume starts exactly when its id is fresh and project known, or its tenant is in a status for it |
| Guarantees.TogglesTakeEffect | internal/tenant/handler.go:253-275 | in any state a suspend or resume whose update meets the row it needs swaps that row and goes on to the container, and a rollback swaps it back |
| Guarantees.TeardownsTakeEffect | internal/provisioner/provisioner.go:593-667 | in every reachable state each call of a delete that works has its effect: deleting, container gone, RAM returned, deleted; and a teardown that cannot go on ends in error |
| Guarantees.FreeSlotIsTaken | internal/provisioner/provisioner.go:309-313 | a queued goroutine goes on exactly if fewer than ten are inside |
| Guarantees.OneTeardown | internal/provisioner/provisioner.go:590-667 | between a won SetDeleting and its end the row is deleting and exactly one actor is tearing that tenant down |
| Guarantees.OnlyTheHolderActs | internal/provisioner/provisioner.go:590-667 | a deleting tenant changes status or loses a container only by a call of that actor |
| Guarantees.BystandersAreHarmless | internal/tenant/handler.go:253-275 | any other actor of a deleting tenant leaves rows and containers alone |
| Guarantees.LosersTouchNothing | internal/provisioner/provisioner.go:593-606 | a delete that has not won the transition touches neither container nor RAM |
| Guarantees.LiveTenantsHaveTheirBox | internal/provisioner/provisioner.go:505-510 | an active or suspended tenant's row names an existing container cloned for it |
| Guarantees.LiveTenantsShareNoBox | internal/provisioner/provisioner.go:505-510 | no two of them name the same one |
| Guarantees.OnlyOwnBoxesGo | internal/provisioner/provisioner.go:623-642 | nobody deletes another tenant's container |
| Guarantees.EveryJobIsOk | internal/provisioner/provisioner.go:319-567 | what is proved of one goroutine holds of each in every interleaving |
| Guarantees.UnsettledMeansProvisioning | internal/provisioner/provisioner.go:319-567 | until a goroutine activates or fails its tenant the row is provisioning, the reservation is out, and no other actor brings that tenant up |
| JobHistory.StepKeepsTrue | internal/provisioner/provisioner.go:319-567 | every step keeps each goroutine's network flag equal to its project's and each tenant's recorded container equal to what its goroutine has activated |
| JobHistory.NetworkBeforeStart | internal/provisioner/provisioner.go:387-472 | in every reachable state a started container was cloned before, its mounts set and, when the tenant's project has a CIDR, its network set |
| JobHistory.ActivationIsRecorded | internal/provisioner/provisioner.go:505-510 | in every reachable state a goroutine's log holds an activation exactly if its tenant's row names a container, and then the one it cloned |
| JobHistory.LogIsHistory | internal/provisioner/provisioner.go:319-567 | a goroutine's log is, effect for effect, what its calls did in the run |
| JobHistory.FinishedAttempt | internal/provisioner/provisioner.go:319-567 | over any run a finished goroutine whose tenant's row names a container made no delete, error mark or release, and one whose tenant's row does not made exactly one error mark and at most one release |
| Guarantees.SlotsAndShutdown | internal/provisioner/provisioner.go:248-317 | at most ten goroutines are inside doProvision, and the wait group is at zero exactly when none that started is still running |
| RamLedger.AllocationIsBounded | internal/node/store.go:244-267 | in every reachable state an allocation lies between 0 and the total and never exceeds the reservations that are out |
| RamLedger.ExactIffNothingReleasedTwice | internal/node/store.go:244-267 | it equals them throughout a run if and only if the run releases no reservation twice |
| RamLedger.ExactWithoutFailedDeletes | internal/tenant/lifecycle.go:269-285 | runs that delete no tenant without a container are such runs, and the floor at zero never fires on them |
| RamLedger.DeletingAFailureIsExactIff | internal/tenant/lifecycle.go:269-285 | on runs whose releases go through, deleting a tenant without a container whose goroutine is done keeps the figure exact if and only if the node counts 0 MB already |
| RamLedger.DeletingAFailedTenantReleasesTwice | internal/provisioner/provisioner.go:716-725 | a concrete run in which a node counts 0 MB while 50 MB are reserved |
| ClientCache.StepKeepsInv | internal/provisioner/provisioner.go:240-295 | every interleaved access to cache, lock and node table keeps the cache invariant, for the token always and for the URL on runs whose URL updates carry a token |
| ClientCache.StaleMeansPending | internal/node/handler.go:199-220 | on every run, for the token, and on every run whose URL updates carry a token, for the URL: a cached client older than what is stored means that each newer version's update has still to invalidate |
| ClientCache.GetIsFresh | internal/provisioner/provisioner.go:253-295 | on the same runs a getClient delivers a client at least as new, in that field, as every version whose invalidation had returned when it was called, although it reads URL and token one after the other |
| ClientCache.CoherentIffNeverSilent | internal/node/handler.go:217-220 | on every run from empty tables: each URL that is cached or about to be is current or on its way out at every point, if and only if no step sets a URL without a token while the node's URL is held and nobody is about to invalidate it |
| ClientCache.UrlWriteIsCovered | internal/node/handler.go:199-220 | one write on a node whose cached URL is current leaves it current or an invalidation on its way exactly unless it sets the URL without a token and no other update of the node has yet to invalidate |
| ClientCache.CarefulRunsAreNeverSilent | internal/node/handler.go:217-220 | runs whose URL updates all carry a token have no such step |
| ClientCache.UrlChangeLeavesClientStale | internal/node/handler.go:217-220 | such a step happens: a run after which a URL-only update has left a stale client with nothing pending |
| ClientCache.Clients.GetClient | internal/provisioner/provisioner.go:253-295 | a hit returns the cached client; a miss looks again at what others have cached before the write lock was taken, and else caches and returns what the two lookups give; if either fails nothing is cached or returned |
| ClientCache.SoloInvalidate | internal/provisioner/provisioner.go:240-246 | a waiting update's accesses, alone, drop exactly its node's entry, and what it wrote is in the floor of every later getClient |
| ClientCache.SoloGet | internal/provisioner/provisioner.go:268-295 | one thread under the write lock, alone, for every outcome of its reads: the client it finds, or one built and cached from both reads, or, if either fails, an unchanged cache; the lock is free again |
| ClientCache.SoloPeek | internal/provisioner/provisioner.go:255-266 | a cached client is taken under the read lock |
| ClientCache.SoloUpdate | internal/node/handler.go:199-220 | a node update alone: the fields it carries are new, the others as they were, and the cached client gone exactly if a token was among them; a failing write changes nothing |
| LoginLimiter.Login | internal/auth/handler.go:269-323 | a refused address is one the history-based specification refuses; while nothing was evicted it refuses exactly those, with sweeps anywhere |
| LoginLimiter.Limiter.Check | internal/auth/handler.go:47-61 | refusal implies at least five failures in the open streak, and conversely without evictions; only an expired entry is dropped |
| LoginLimiter.Limiter.RecordFailure | internal/auth/handler.go:63-79 | one more failure on the streak and in the history, map still bounded; no other entry changes, and none goes below the cap |
| LoginLimiter.Limiter.MakeRoomLocked | internal/auth/handler.go:81-103 | nothing below the cap; at the cap expired entries go, and only if none has expired the scan's pick |
| LoginLimiter.Limiter.FindOldest | internal/auth/handler.go:95-103 | the loop over the map computes the scan of some enumeration of its keys |
| LoginLimiter.Limiter.SweepLocked | internal/auth/handler.go:112-120 | exactly the entries whose window has closed go, and their number is returned |
| LoginLimiter.Limiter.Sweep | internal/auth/handler.go:105-110 | the same under the lock, at any time |
| LoginLimiter.Limiter.Reset | internal/auth/handler.go:122-127 | a success forgets the address |
| LoginLimiter.StreakCounts | internal/auth/handler.go:48-79 | the running count of an entry is the specification's streak |
| LoginLimiter.ScanFindsOldest | internal/auth/handler.go:95-103 | for one order of the keys the scan finds a least recent entry exactly unless the empty key is strictly oldest and not met last |
| LoginLimiter.EveryScanFindsOldestIff | internal/auth/handler.go:95-103 | for any map, every order of its keys leads to a least recent entry if and only if the empty key is not strictly the oldest of several |
| LoginLimiter.AnyOtherCanGo | internal/auth/handler.go:95-103 | when it is, each other entry is the one that goes under some order |
| LoginLimiter.FillLimiter | internal/auth/handler.go:81-103 | recorded failures fill a limiter to its 10000 open entries so that the scan may drop the entry that failed last |
| LoginLimiter.EmptyKeyIffBlank | internal/user/model.go:25-27 | an address normalises to the empty key exactly if it is nothing but blanks |
| LoginLimiter.EvictionIsLeastRecent | internal/auth/handler.go:81-103 | without an empty key at least 9999 retained entries failed no earlier than the evicted one |
| IpAlloc.LastAddr | internal/ipalloc/ipalloc.go:71-79 | setting the host bits one by one in a byte array gives network + 2^(32-bits) - 1 for every prefix |
| IpAlloc.Next | internal/ipalloc/ipalloc.go:39-69 | for every prefix and used set the lowest unused address from network+2 to below the broadcast, or an error exactly when there is none; terminates at the top of the address space |
| IpAlloc.NextIsUnique | internal/ipalloc/ipalloc.go:39-69 | that description fits one answer only |
| IpAlloc.HandsOutInOrder | internal/ipalloc/ipalloc.go:81-117 | allocate-then-record from empty hands out network+2, network+3, ... exactly max(0, 2^h - 3) times and then fails |
| IpAlloc.ReleasedIsNext | internal/tenant/store.go:425-437 | a released address below every other free one is the next one given |
| IpAlloc.MaskedPrefix | internal/ipalloc/ipalloc.go:50-52 | masking keeps network and broadcast, and both stay within 32 bits |
| IpAlloc.DnsAddressCanBeHandedOut | internal/wireguard/service.go:172-186 | the derived DNS address is allocatable if and only if host bits are set and the address after it is below the broadcast; so never for a masked CIDR |
| IpAlloc.DnsOfMaskedIsGateway | internal/wireguard/service.go:172-186 | the derived DNS address is the one after the CIDR's own; for a masked CIDR that is the gateway, never handed out |
| ShellQuote.QuoteIsOneWord | internal/sshexec/client.go:79-105 | for every string the shell reads its quoted form as that one word |
| ShellQuote.QuotesApart | internal/sshexec/client.go:79-105 | quoting loses nothing |
| ShellQuote.PlainStaysPlain | internal/sshexec/client.go:77-105 | a value comes back unquoted exactly if it is not empty and made of letters, digits and the listed marks |
| ShellQuote.QuoteThenSafe | internal/sshexec/client.go:79-105 | a quoted value followed by safe characters is one word, their concatenation |
| ShellQuote.RenderedLineIsRead | internal/provisioner/provisioner.go:430-439 | any line of safe literals and quoted values is read as the words it means, whatever the values hold |
| ShellQuote.ExecCarriesCommand | internal/sshexec/client.go:107-117 | the pct exec line is seven words, the one after -c exactly the command |
| ShellQuote.DecimalIsNumber | internal/sshexec/client.go:112 | the container id in the line reads back as the number it is |
| ShellQuote.TwoLevels | internal/sshexec/client.go:107-117 | a line of quoted values survives the node's shell and the container's |
| ShellQuote.MountLineIsRead | internal/provisioner/provisioner.go:438-440 | the mount point line keeps each configured directory inside its word |
| ShellQuote.MkdirLineIsRead | internal/provisioner/provisioner.go:429-432 | the directory line is two commands, with the configured root inside its words |
| LikePattern.PatternMatchesOccurrence | internal/station/store.go:35-46 | for every term and text the pattern matches if and only if the term occurs literally, and the pattern never has an invalid escape |
| LikePattern.IPatternMatchesOccurrence | internal/station/store.go:48-60 | the same for ILIKE, up to case |
| LikePattern.BuildListPublicQuery | internal/station/store.go:48-80 | the clauses and numbered arguments select exactly the public stations that hold the term in a field and have the genre; the listener sort orders by name |
| Billing.Handler.Webhook | internal/billing/handler.go:214-273 | what each event does to the rows and how it is answered, for every fault, column by column; an answer that asks for redelivery means nothing was written |
| Billing.Handler.HandleCheckoutCompleted | internal/billing/handler.go:275-317 | the user's newest tenant gets customer, subscription and tier; without user, tier or tenant nothing; any failure asks for the event again and leaves the rows |
| Billing.Handler.HandleSubscriptionUpdated | internal/billing/handler.go:319-383 | three statuses leave the customer's first tenant free without subscription, two give it the event's subscription and the tier of its price, all others write nothing and never fail |
| Billing.Handler.HandleSubscriptionDeleted | internal/billing/handler.go:385-415 | the customer's first tenant becomes free, without subscription |
| Billing.Handler.FindCustomer | internal/tenant/store.go:489-505 | the first tenant in the store's order that carries the customer, or none exactly if nobody does |
| Billing.Handler.UpdateBilling | internal/tenant/store.go:464-478 | an absolute overwrite of three columns of one existing row |
| Billing.LogStutters | internal/billing/handler.go:245-273 | any log with transient failures and repeats leaves the rows of its successful events with neighbouring repeats dropped |
| Billing.HandledTwice | internal/billing/handler.go:265-269 | handling an event again at once changes nothing, though lookups read a column the handler writes |
| Billing.LastDecisionStands | internal/billing/handler.go:275-415 | a tenant's billing columns are those of the last event that wrote it |
| Billing.EndMakesFree | internal/billing/handler.go:335-415 | after a deletion or terminal update it stays free without subscription until a live update or a checkout writes it |
| Billing.CheckoutThenDeleted | internal/billing/handler.go:275-415 | a checkout and then the deletion of its customer, whom no other tenant carries, leave the user's tenant free |
| Billing.UnresolvedChangesNothing | internal/billing/handler.go:354-363 | unresolved statuses change nothing under any fault |
| Billing.OneCarrier | internal/tenant/store.go:489-505 | with one tenant per customer the lookup does not depend on row order |
| Billing.RepeatIsHarmlessIff | internal/billing/handler.go:265-269 | for every log, a repeat of an event with any events since changes nothing if and only if it now writes nothing, or the last event that wrote its current target made the same decision (or nobody did and the tenant started so) |
| Billing.HarmlessIffStanding | internal/billing/handler.go:265-269 | the same for an event delivered after any log, repeated or not |
| Billing.StandingRow | internal/billing/handler.go:275-415 | a tenant's row after any log is what the log's last event to write it decided, or what it started with |
| Billing.LateRepeatRevives | internal/billing/handler.go:265-269 | repeats are not harmless everywhere: a late copy of a live update brings a deleted subscription's tier back |
| Billing.NewService | internal/billing/stripe.go:29-47 | the loop over the price list, in any order, gives a reverse map |
| Billing.TierRoundTrip | internal/billing/stripe.go:194-208 | a tier survives the way to its price and back under every order exactly when no other tier has its price, or it has none and is free |
| Tokens.RevokedIsRefusedForGood | internal/auth/middleware.go:41-65 | once revoked a server-issued token is never let through again, with cleanups anywhere, although its row may be gone |
| Tokens.AcceptedIff | internal/auth/middleware.go:41-92 | after any run, with cleanups anywhere, a server-issued token is let through for exactly its own user, if that user is found, until it expires, and, when it has a jti, only if the lookup works and no event of the run revoked it |
| Tokens.ValidIff | internal/auth/token_store.go:69-102 | over any run a refresh token created once is valid for exactly its own user until it expires, unless it or all of that user's have been revoked since; one never created is never valid |
| Tokens.CleanupIsInvisible | internal/auth/token_store.go:42-50 | removing every cleanup from a run changes no refresh-token validation and no authorisation |
| Tokens.TokenStore.Revoke | internal/auth/token_store.go:26-32 | inserts the jti unless it is there |
| Tokens.TokenStore.Cleanup | internal/auth/token_store.go:42-50 | two deletes of expired rows, the second skipped when the first fails |
| Tokens.TokenStore.CreateRefreshToken | internal/auth/token_store.go:69-75 | inserts a row unless the hash exists |
| Tokens.TokenStore.ValidateRefreshToken | internal/auth/token_store.go:77-86 | the owner of an existing, unexpired, unrevoked token |
| Tokens.TokenStore.RevokeRefreshToken | internal/auth/token_store.go:88-94 | marks one live token |
| Tokens.TokenStore.RevokeAllUserRefreshTokens | internal/auth/token_store.go:96-102 | marks every live token of the user |
| Tokens.Sessions.ChangePassword | internal/auth/handler.go:467-490 | on success the new refresh token is the user's only valid one exactly when the revocation went through or there was none to revoke; other users are untouched |
| Tokens.Sessions.RefreshSession | internal/auth/handler.go:325-373 | rotation: the new token is valid for the same user, the presented one dead exactly when its revocation went through, all others as before |
| Tokens.Sessions.Logout | internal/auth/handler.go:375-426 | the access token is listed with its own expiry and the presented refresh token dead when the calls went through; no other row of the list changes |
| Tokens.CleanOnce | internal/auth/janitor.go:83-95 | the limiter is swept whether or not the database answered |
| Paging.RankedIsStable | internal/station/handler.go:141-157 | the ranking is non-increasing, keeps ties in store order and holds every station once |
| Paging.OneRanking | internal/station/handler.go:141-157 | there is only one such ranking |
| Paging.PageOf | internal/station/handler.go:53-64 | the window of the list at an offset, empty past the end |
| Paging.Enrich | internal/station/handler.go:126-139 | each station gets the poller's count for its tenant where there is one, in place, and keeps everything else |
| Paging.List | internal/station/handler.go:93-166 | the answer to a request: a page of the ranked scan, or of all rows for other sorts, the total, and has_more in 64-bit arithmetic |
| Paging.PagesCoverTheScan | internal/station/handler.go:105-165 | a client that goes on while the answers say has_more visits every scanned station, the first 1000 rows when ranking, exactly once with its live count, in ranked order |
| Paging.PageHoldsItsRanks | internal/station/handler.go:53-64 | every single answer, whatever its offset, holds the stations that rank there |
| Paging.HasMoreMeansMore | internal/station/handler.go:159-165 | has_more is true exactly when the next page is not empty, if and only if offset plus limit fits an int |
| Paging.ParseLimit | internal/response/pagination.go:34-53 | a valid limit up to 200 is served as it is, a larger one as 200, anything else as 50 |
| WireGuard.Service.SyncPeers | internal/wireguard/service.go:262-298 | for every interface, table and fault pattern, which keys stay, come and go, with which configuration |
| WireGuard.Service.ApplyPeer | internal/wireguard/service.go:220-251 | the key's allowed IPs are replaced, an endpoint or preshared key that is not given stays |
| WireGuard.SyncConverges | internal/wireguard/service.go:262-298 | each key left is enabled or its removal failed, each enabled key is there or its apply failed; without faults the sets are equal |
| WireGuard.EnabledPeersFollowTheTable | internal/wireguard/service.go:220-281 | after a pass every enabled peer whose apply worked has the table's allowed IPs, and its endpoint and key where the table gives them |
| WireGuard.SyncTwice | internal/wireguard/service.go:262-298 | a second faultless run changes nothing |
| WireGuard.DroppedSettingsStay | internal/wireguard/service.go:220-245 | a preshared key or endpoint dropped from the table survives the sync exactly when the peer was there with one |
| WireGuard.ValidateAllowedIPs | internal/wireguard/validate.go:15-53 | a list is accepted if and only if every listed prefix lies from end to end in 10.10.0.0 to 10.10.255.255; otherwise the first bad part is named for what is wrong with it |
| WireGuard.MaskTestIsContainment | internal/wireguard/validate.go:38-48 | one address and the mask decide containment of the whole range, host bits or not |
| Caddy.Client.Reconcile | internal/caddy/reconciler.go:26-53 | success and failed add up to the tenants under every fault pattern, other routes keep content and order, and each tenant's id is as its own two calls left it |
| Caddy.Client.UpsertRoute | internal/caddy/client.go:214-224 | succeeds only if both calls do; a failed addition leaves no route under the id |
| Caddy.Client.RemoveRoute | internal/caddy/client.go:137-161 | takes the route out, and accepts a missing one |
| Caddy.Client.AddRoute | internal/caddy/client.go:110-135 | appends the tenant's route |
| Caddy.Client.ListRoutes | internal/caddy/client.go:163-212 | the loop lists the routes whose id has the prefix, with the stripped address |
| Caddy.ReconcileRepairs | internal/caddy/reconciler.go:26-53 | without faults each tenant has exactly one route: its id, its host under the domain, its address and port |
| Caddy.ReconcileTwice | internal/caddy/reconciler.go:26-53 | a second run changes nothing but the order of the routes |
| Caddy.TargetRoundTrip | internal/caddy/client.go:92-108 | a built route reads back its address exactly when the address is not empty and the port has no colon |
| Caddy.ListedIff | internal/caddy/client.go:184-210 | a listing holds exactly the routes whose id has the prefix, with subdomain and target |
| Caddy.ListingReadsBack | internal/caddy/client.go:163-212 | after a faultless run the listing names each tenant once with its own address |
| Caddy.SameId | internal/caddy/client.go:66-69 | route ids tell subdomains apart |

## Left out

- ProvisionJob.Provisioner.DoProvision: address and dashboard-token bookkeeping, deploy, station, route and health check are best
  effort, touch none of the modelled state and have no step of their own, so a deleted tenant may still have a route.
- Stores.NodeStore.SetTotal: only the RAM column and its guard; a node that does not exist answers like one whose guard refuses.
- Stores.Hypervisor.Delete: that an error text means not found is an outcome of the call; the matching of texts is not modelled.
- Lifecycle.LifecycleService.Create: subdomain validation, the audit log, the lookup that resolves project and node, and the conflict
  answer for a name that is taken are not modelled.
- Lifecycle.LifecycleService.Deprovision: the stop before the delete, whose errors are ignored, and the removal of the route are not modelled.
- Lifecycle.LifecycleService.Toggle: whether the container really runs is not modelled; stopping and the status update are separate steps
  in the program and can disagree under concurrent requests.
- Guarantees.SlotsAndShutdown: giving back the slot and leaving the wait group are part of the step that ends a goroutine's work.
- Panics inside `setError` or after the activation, process crashes, expired contexts and commits whose answer is lost are excluded. A
  Proxmox delete that is reported as failed has no effect, so a VMID is not handed out again while its row still names it.
- Node deletion: a node that has tenants is never removed in the model.
- Node and project RAM do not change while tenants use them, except a node's total through its guarded update.
- ClientCache.Clients.GetClient: the locks themselves are steps of the interleaved threads; here what others do between them is a parameter.
- LoginLimiter.Login: a login's check and its record happen at one instant; two logins between each other's check and record are not
  modelled.
- IpAlloc.HandsOutInOrder: speaks of allocate-then-record. The program's lock ends before the address is recorded, so concurrent
  allocations are not claimed to be distinct. CIDR strings are modelled as parsed, and used addresses as numbers, their canonical text.
- ShellQuote.TwoLevels: strings are characters; encodings and NUL bytes are not modelled. Unquoted characters with a meaning of their own
  stop the tokenizer, which is enough because none ever appears unquoted.
- LikePattern.IPatternMatchesOccurrence: case folding works character by character and fixes the wildcards and the escape.
- Billing.LogStutters: tenants and their owners are fixed while events arrive, and a customer lookup meets rows in a fixed order.
  Signatures and JSON are not modelled.
- Tokens.RevokedIsRefusedForGood: jtis are unique, as generated, and signatures are trusted.
- Paging.PagesCoverTheScan: rows and live counts do not change between the pages of one walk, and row count plus limit fits an `int`.
- WireGuard.Service.SyncPeers: an allowed address that two peers claim moves between them on a real interface; here configurations are independent.
- WireGuard.ValidateAllowedIPs: splitting at commas, trimming and prefix parsing are not modelled.
- Caddy.Client.Reconcile: assumes distinct subdomains and at most one route per tenant id to start with.
- Tier limits, CRUD handlers, templates, cookies, CSRF, rate limits, WebAuthn and the audit log would only add easy members.
- HTTP, SQL, SSH, Stripe, Proxmox, bcrypt, JWT and AES calls are succeed-or-fail parameters.
