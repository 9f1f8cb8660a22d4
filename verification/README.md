# Vellar facilitator: models and proofs

The facilitator settles x402 payments on Stellar, keeps a public catalog of the resources paid for, and is backed by two Soroban contracts. This project models the parts whose promises are facts about whole runs, and proves those promises. `dafny verify dfyconfig.toml` checks it.

| part | files | modelled code |
|---|---|---|
| bond escrow contract | `BondEscrow` (the entry points), `BondInvariant`, `BondRuns`, `BondHistory` (records against calls), `BondCalls` (when each call goes through), `BondGate` (withdrawals and claims), `BondParties`, `BondWitness`, `BondContract` (the contract object) | `contracts/bond-escrow/src/lib.rs` |
| `upto` settlement contract | `UptoSettlement` | `contracts/upto-vellar/src/lib.rs` |
| spend policy | `SpendPolicy`, `SpendHistory`, `SpendRuns`, `SpendLimits` (verdicts and budgets counted), `SpendRestart`, `SpendWhole` (the history across restarts), `SpendCeiling`, `SpendClass` (the policy object) | `src/policy.ts` |
| channel pool and monitor | `ChannelPool`, `ChannelMonitor` | `src/channelPool.ts`, `src/channelMonitor.ts` |
| ownership tables | `OwnershipStore`, `StoreHistory`, `LoadFold` | `src/store.ts`, the load loop of `src/catalog.ts` |
| catalog ownership | `Catalog`, `CatalogRuns`, `CatalogBadges`, `CatalogGates`, `CatalogProbes`, `CatalogSpacing`, `CatalogServing`, `CatalogOverlaps`, `CatalogLoaded` (runs after a load), `CatalogClass` (the catalog object) | `src/catalog.ts` |
| keys and paths | `PathNormal`, `PathMeaning`, `ResourceKeys`, `BadgeSpelling` | `src/catalog.ts` |
| search | `Ranking`, `SearchOrder` | `src/catalog.ts` |
| address guard | `Ipv6`, `Ipv6Text`, `Ipv6Reading`, `AddressBlocking` | `src/ownership.ts` |
| shared | `Basics`, `Windows`, `Sorting`, `OrderedMaps`, `Tokens` | |

Code that changes state in place is a class whose methods are proved against pure step functions (`Abs()` after a call is the step function of `Abs()` before it); the promises are then proved about the step functions, over every run. A TypeScript method that waits is one function, and one method, for each stretch between two waits.

What the models take from outside:

- Ledger time and the ledger sequence do not go back. An error return and a trap both leave the contract state unchanged. `sha256` and the signature check are arbitrary functions, authorization is a set of signers, and the contracts, which hold no key, never sign. Token balances are exact; whether a token refuses an affordable transfer is an input of the call.
- A temporary record stays until its time-to-live has passed and may be dropped at any moment after that. Replacing it is not possible while it is there.
- The verdict of an ownership probe, the answer of a balance check, the scores of search and the parse of a URL are arbitrary; where a key is derived twice, the parser leaves an origin with a normal path as it is and escapes separators. `lastUpdated` is the instant it spells.
- A store transaction is one atomic step, rows keep their row-id order, and persisted spend rows land at once.
- Strings are sequences of characters; lower-casing is that of ASCII letters, which decides every character the IPv6 parser accepts.

Where the code and its comments differ, the code is modelled:

- A bond's withdrawal gate covers no claim at all as long as every settlement of the listing was registered before its first deposit: the unlock time is then still 0 (`GateCoversClaims`, `WithdrawalClosesExactly`, `EarlyClaimOutlivesWithdrawal`).
- The filing limit does not hold in windows that reach back past ledger time 0 (`RateLimitHoldsExactly`, `NoLimitAtTimeZero`).
- The schema comment on rotation markers says a failed attempt still consumes the marker; the transaction rolls that back (`RotationIsExact`).
- The load loop's rule "the row already stored under the canonical spelling wins" is asked of the incoming row only; `CanonicalSpellingWinsExactly` says what it comes to.
- The comments on the keys promise a fixed point; a key whose path had a forged escape is not one (`StoredKeyIsFixedExactly`, `ForgedEscapeChangesKey`).
- The compound-key comments speak of a NUL separator; the code uses U+001F.
- The NAT64 and IPv4-translated tests of the address guard look at 32 bits and at bytes 0 to 9, not at the whole /96 prefixes their comments name; `BlockedIpv6Exactly` states the prefixes that are tested.
- The parser of IPv6 literals also reads a double colon that stands for no group, which RFC 4291 section 2.2 does not allow, and skips whatever ends in a line break before a spelling with a dotted quad, since its pattern's dot does not match line breaks and nothing anchors it at the start (`ReadExactly`).

Properties that fail are stated with the input that breaks them and with the exact condition under which they hold: `IdempotentExactly`, `BadgesAreProvenExactly`, `DisciplineIsExact`, `GateCoversClaims`, `WithdrawalClosesExactly`, `PruningIsExact`, `RateLimitHoldsExactly`, `AdjustmentFitsExactly`, `SpendStaysUnderCeilingExactly`, `OwnerStaysExactly`, `ServedExactlyWithoutOverlaps`, `MonitoredLanesAreExclusiveExactly`, `StrangerLastsExactly`, `AliasedExactly`, `SplitInvertsExactly`, `BaseIsFixedExactly`, `StoredKeyIsFixedExactly`, `CanonicalSpellingWinsExactly`.

## Model

| member | source | states |
|---|---|---|
| BondRuns.Solvency | contracts/bond-escrow/src/lib.rs:720-1402 | In every run and for every token, deposited = withdrawn + slashed + still bonded, and the contract holds its bonds plus whatever it was given |
| BondRuns.StepMoney | contracts/bond-escrow/src/lib.rs:720-1402 | Each single call changes the sum of bonds and the held tokens by exactly what it moved |
| BondRuns.PayoutsAreFunded | contracts/bond-escrow/src/lib.rs:855-1402 | In a reachable state a withdrawal traps only when unsigned and a slash never, unless the token refuses: funds are never lacking |
| BondHistory.PaymentsMatchHistory | contracts/bond-escrow/src/lib.rs:605-670 | A payment is recorded if and only if a call registered it, with that call's payer, seller, resource and amount and a deadline a day after it, for good |
| BondHistory.DisputesMatchHistory | contracts/bond-escrow/src/lib.rs:989-1402 | A payment is under dispute exactly from its filing to the receipt or slash that ends it, with that filing's payer and time |
| BondHistory.BondsMatchHistory | contracts/bond-escrow/src/lib.rs:720-1402 | Each listing's bond is what was deposited for it less what was withdrawn and what its own payments were paid |
| BondHistory.UnlocksMatchHistory | contracts/bond-escrow/src/lib.rs:639-667 | A listing unlocks a day after the last payment registered while it existed, and at 0 before any |
| BondHistory.AdminMatchesHistory | contracts/bond-escrow/src/lib.rs:545-555 | The admin is whoever first initialized the contract |
| BondCalls.InitializesExactly | contracts/bond-escrow/src/lib.rs:545-555 | Initialization goes through if and only if none did before and the admin to be signs |
| BondCalls.RegistersExactly | contracts/bond-escrow/src/lib.rs:605-670 | A payment is registered if and only if the admin signs, the amount is positive and the id was never registered |
| BondCalls.DepositsExactly | contracts/bond-escrow/src/lib.rs:720-777 | A deposit goes through if and only if the seller signs a positive amount it has, the listing is new or its own in this token, the bond still fits and the token accepts; it moves that amount and raises the bond by it |
| BondCalls.WithdrawsExactly | contracts/bond-escrow/src/lib.rs:855-898 | A withdrawal goes through if and only if the first depositor signs, the unlock time is reached, no payment of the listing is under dispute, there is a bond and the token accepts; it pays all of it |
| BondCalls.FilesExactly | contracts/bond-escrow/src/lib.rs:989-1035 | A dispute is filed if and only if the registered payer signs within a day of the registration, the resource was bonded, the payment is not under dispute, and the payer filed fewer than 5 times in the last hour |
| BondCalls.ReceiptsExactly | contracts/bond-escrow/src/lib.rs:1221-1267 | A receipt goes through if and only if the payment is under dispute, it comes less than 300 seconds after the filing, and its signature over this payment verifies under the key last registered |
| BondCalls.FinalizesExactly | contracts/bond-escrow/src/lib.rs:1345-1402 | A dispute is finalized if and only if it is open and 300 seconds old and the token accepts or nothing is left; the registered payer then gets the registered amount or the rest of the bond, and nobody else gets anything |
| BondCalls.SetsKeyExactly | contracts/bond-escrow/src/lib.rs:1077-1102 | A delivery key is registered if and only if the first depositor signs |
| BondCalls.RefusalsAreTrue | contracts/bond-escrow/src/lib.rs:545-1402 | Every error a call returns is one of its own and names a cause that holds in the history |
| BondInvariant.ReachableInv | contracts/bond-escrow/src/lib.rs:605-1402 | Always: no bond is negative, each open count is the number of disputes on the listing, each dispute has its settlement (same payer, same hash) and listing, and the held tokens cover all bonds |
| BondInvariant.CountIsPositive | contracts/bond-escrow/src/lib.rs:1247-1399 | Closing a dispute never meets the floor of the saturating subtraction |
| BondInvariant.CountsAfterClose | contracts/bond-escrow/src/lib.rs:1247-1399 | Deleting a dispute and lowering its listing's count keeps every count equal to its set of disputes |
| BondRuns.FilingBound | contracts/bond-escrow/src/lib.rs:989-1469 | In every run no payment registered after ledger time 0 is disputed more than 125 times, and its slashes total at most 125 times its amount |
| BondRuns.FilingBoundAfterZero | contracts/bond-escrow/src/lib.rs:989-1469 | A payment registered at ledger time 0 is disputed at most 120 times after that instant |
| BondRuns.FilingsForInWindow | contracts/bond-escrow/src/lib.rs:639-1005 | Every filing of a payment lies in its 24-hour claim window, both ends included |
| BondRuns.FilingsEndOnce | contracts/bond-escrow/src/lib.rs:989-1402 | Filings of a payment = its receipts + its slashes + 1 if it is under dispute: each filing ends at most once |
| BondRuns.SlashesAreCapped | contracts/bond-escrow/src/lib.rs:1345-1402 | All slashes of a payment together stay within its amount times their number |
| BondRuns.OneEndingAtATime | contracts/bond-escrow/src/lib.rs:1221-1402 | A receipt succeeds only strictly before the response deadline and moves no money; a slash only from it on, and pays the payer min(amount, bond) |
| BondRuns.FilingsAreLimited | contracts/bond-escrow/src/lib.rs:1441-1469 | Against the full unpruned history, in every run: from time 0 on at most 5 filings by one payer in any hour, with the hour cut off at 0 as the saturating subtraction does |
| BondRuns.RateLimitHoldsExactly | contracts/bond-escrow/src/lib.rs:1441-1469 | Every window (t-3600, t] of every run holds at most 5 filings of a payer if and only if the first hour does, time 0 included |
| BondRuns.LogMatchesHistory | contracts/bond-escrow/src/lib.rs:1441-1469 | In every run the pruned log and the full history agree on every cutoff a later call can use |
| BondRuns.LogIsBounded | contracts/bond-escrow/src/lib.rs:1441-1469 | The log never holds more than 5 entries |
| BondRuns.PruningIsExact | contracts/bond-escrow/src/lib.rs:1441-1455 | The pruned length is the rolling-window count if and only if no filing at time 0 is within the hour |
| BondGate.GateCoversClaims | contracts/bond-escrow/src/lib.rs:639-667 | In every run the listing's unlock time covers a payment's claim deadline if and only if the unlock time was ever set |
| BondGate.RegisteredClaimsAreCovered | contracts/bond-escrow/src/lib.rs:639-667 | Registering a payment while its listing exists sets the unlock time for good, so its claim is covered from then on |
| BondGate.WithdrawalClosesClaims | contracts/bond-escrow/src/lib.rs:855-1005 | At a withdrawal no payment of the listing is under dispute; and if the unlock time was ever set, no payment registered before, whenever it was, is disputed at any time after |
| BondGate.WithdrawalClosesExactly | contracts/bond-escrow/src/lib.rs:855-1005 | A claim is closed for good by the withdrawal if and only if the unlock time was ever set or the claim's own window is over |
| BondParties.PartiesMatchHistory | contracts/bond-escrow/src/lib.rs:720-1102 | A listing belongs to its first depositor, in that token, for good, and its delivery key is the one last registered |
| BondParties.ReceiptsAreTheSellers | contracts/bond-escrow/src/lib.rs:1077-1267 | A receipt that defeats a dispute came in time and verifies, over this very payment, under a key the first depositor registered by a signed call |
| BondParties.WithdrawalPaysTheDepositor | contracts/bond-escrow/src/lib.rs:855-898 | A withdrawal pays the whole bond to the first depositor, who signed, and changes nobody else's balance |
| BondWitness.BoundIsReached | contracts/bond-escrow/src/lib.rs:989-1469 | Every number of filings up to 125 happens, to a payment registered after time 0, in some run: the bound is tight |
| BondWitness.NoLimitAtTimeZero | contracts/bond-escrow/src/lib.rs:1441-1469 | A payment registered at ledger time 0 is disputed any number of times in that instant: the bound needs a later registration |
| BondWitness.EarlyClaimOutlivesWithdrawal | contracts/bond-escrow/src/lib.rs:605-1035 | The other side of the exact statement: with the unlock time still 0 and the claim's window open, the bond is withdrawn and the payment disputed after |
| BondWitness.ReceiptMessageIsInjective | contracts/bond-escrow/src/lib.rs:1415-1429 | The 72 signed bytes determine payment, response and timestamp, so a receipt for one payment fits no other |
| BondContract.BondEscrowContract.DoInitialize | contracts/bond-escrow/src/lib.rs:545-555 | The object's method does what the step function says |
| BondContract.BondEscrowContract.DoRegisterSettlement | contracts/bond-escrow/src/lib.rs:605-670 | The object's method does what the step function says |
| BondContract.BondEscrowContract.DoDeposit | contracts/bond-escrow/src/lib.rs:720-777 | The object's method, token transfer included, does what the step function says |
| BondContract.BondEscrowContract.DoWithdraw | contracts/bond-escrow/src/lib.rs:855-898 | The object's method, token transfer included, does what the step function says |
| BondContract.BondEscrowContract.EnforceAndRecordRateLimit | contracts/bond-escrow/src/lib.rs:1441-1469 | The loop that rebuilds the log yields the filings after the cutoff, refuses at 5 and else appends now |
| BondContract.BondEscrowContract.DoFileDispute | contracts/bond-escrow/src/lib.rs:989-1035 | The object's method does what the step function says |
| BondContract.BondEscrowContract.DoSetDeliveryKey | contracts/bond-escrow/src/lib.rs:1077-1102 | The object's method does what the step function says |
| BondContract.BondEscrowContract.DoPostReceipt | contracts/bond-escrow/src/lib.rs:1221-1267 | The object's method does what the step function says |
| BondContract.BondEscrowContract.DoFinalize | contracts/bond-escrow/src/lib.rs:1345-1402 | The object's method, payout included, does what the step function says |
| UptoSettlement.NonceOutlivesAuthorization | contracts/upto-vellar/src/lib.rs:108-152 | After a settlement the nonce's record is there for as long as the authorization could still be settled |
| UptoSettlement.SecondUseIsAfterExpiry | contracts/upto-vellar/src/lib.rs:108-152 | Two successes with one payer and nonce have the second strictly after the first's expiry, whatever records lapse |
| UptoSettlement.AuthorizationSettlesOnce | contracts/upto-vellar/src/lib.rs:70-204 | No signed authorization ever settles twice |
| UptoSettlement.CeilingHoldsForever | contracts/upto-vellar/src/lib.rs:70-204 | Over a whole run one authorization moves at most the amount signed |
| UptoSettlement.SettlesExactly | contracts/upto-vellar/src/lib.rs:70-204 | A settlement goes through if and only if it is signed, within the ceiling, not expired, its nonce has no live record, the ledger can keep the record, the token accepts and the payer has the amount |
| UptoSettlement.RefusalsAreTrue | contracts/upto-vellar/src/lib.rs:70-204 | Every panic names a cause that holds |
| UptoSettlement.SettlementLeaves | contracts/upto-vellar/src/lib.rs:108-203 | A settlement leaves the nonce's record to the expiry or for the shortest life, the rest of the ceiling as allowance, and every other record and allowance as it was |
| UptoSettlement.UsedBySettling | contracts/upto-vellar/src/lib.rs:228-230 | A nonce is used only by a settlement that went through with it |
| UptoSettlement.LeftoverIsNeverDrawn | contracts/upto-vellar/src/lib.rs:191-203 | Every draw is checked against the allowance, and yet what earlier settlements left of it makes no difference to any outcome, balance or nonce of any run: the approval before each draw replaces it |
| UptoSettlement.NoCustody | contracts/upto-vellar/src/lib.rs:191-203 | The contract's own balance changes only by what payers addressed to it |
| UptoSettlement.SettlementIsDirect | contracts/upto-vellar/src/lib.rs:191-203 | A settlement takes the metered amount from the payer and gives it to the recipient, and touches nobody else |
| UptoSettlement.NonceComesBack | contracts/upto-vellar/src/lib.rs:228-230 | Once its record has lapsed a nonce settles again under a later expiry: the bound is exact |
| UptoSettlement.UptoVellar.DoSettle | contracts/upto-vellar/src/lib.rs:70-204 | The object's method gives the outcome and state of the step function, reverting everything on a panic |
| UptoSettlement.UptoVellar.ApproveAndDraw | contracts/upto-vellar/src/lib.rs:191-203 | Approval and draw leave the ceiling minus the amount as allowance and move the amount, or change nothing when the allowance or the balance falls short or the token refuses |
| SpendRuns.VerdictsMatchHistory | src/policy.ts:213-298 | Every verdict, with reason and token, equals the one computed from the complete unpruned history |
| SpendRuns.PolicyAgrees | src/policy.ts:213-439 | After any run of checks, refunds and adjustments the pruned counters and the history agree on every later window |
| SpendRuns.RefusalIsInvisible | src/policy.ts:213-234 | A refused check changes no later verdict |
| SpendRuns.RatesAreLimited | src/policy.ts:236-298 | On pubnet every window of the rate length grants at most each budget's maximum |
| SpendLimits.VerdictIsExact | src/policy.ts:213-266 | Every verdict, counted over all grants: the reason is the first full budget in the order recipient, URL of a bound settle or else the pool, ceiling; it refuses on pubnet only |
| SpendLimits.HistoryIsWhatWasGranted | src/policy.ts:213-234 | The history those counts are over has one more grant exactly when the policy allows a check |
| SpendLimits.RecipientsAreLimited | src/policy.ts:236-298 | On pubnet every rate window grants one recipient at most its budget |
| SpendLimits.UrlsAreLimited | src/policy.ts:236-298 | On pubnet every rate window grants settles bound to one URL at most its budget |
| SpendLimits.UnboundShareOnePool | src/policy.ts:236-298 | On pubnet every rate window grants all settles that are unbound or have no URL, together, at most the one pool |
| SpendLimits.GrantsTidy | src/policy.ts:268-360 | After a grant no recipient or URL is kept without a settle in the window, and a table last tidied ten minutes ago holds no elapsed row |
| SpendLimits.BootTidies | src/policy.ts:181-196 | A new process books what it loads and leaves no row outside the spend window in the table |
| SpendLimits.AdjustmentFinds | src/policy.ts:419-439 | An adjustment finds nothing for a token never issued or refunded, and every grant not refunded that is in the window |
| SpendWhole.WholeAlwaysAgrees | src/policy.ts:181-439 | In every run, restarts from the store included, the spend list agrees on every later window with all that was ever booked, refunded and adjusted |
| SpendCeiling.AdjustmentFitsExactly | src/policy.ts:419-439 | An adjustment keeps every window within the ceiling if and only if it is at most what was booked plus the smallest headroom of the windows that hold it |
| SpendCeiling.SpendStaysUnderCeilingExactly | src/policy.ts:181-439 | On pubnet, restarts included, every window of the whole history stays within the ceiling at every moment of a run if and only if each adjustment fits when it is made |
| SpendCeiling.SpendStaysUnderCeiling | src/policy.ts:181-439 | On pubnet, restarts included, with adjustments that only lower, the spend in every window stays within the ceiling |
| SpendCeiling.RaisingBreaksCeiling | src/policy.ts:419-439 | For every ceiling, the first reservation raised to one more takes its window over |
| SpendCeiling.WholeIsHistory | src/policy.ts:213-439 | Without restarts the history the ceiling is about is the one the verdicts are judged by |
| SpendHistory.TotalAgrees | src/policy.ts:236-266 | The sum over the kept reservations is the spend of the history's window |
| SpendHistory.EvictionIsInvisible | src/policy.ts:348-360 | Dropping elapsed buckets changes no later window |
| SpendHistory.RefundAgrees | src/policy.ts:377-391 | Splicing out a refunded reservation is erasing that grant's spend from the history |
| SpendHistory.AdjustAgrees | src/policy.ts:419-439 | Rewriting a reservation is rewriting that grant's spend in the history |
| SpendRestart.TableAlwaysAgrees | src/policy.ts:181-341 | In every store-backed run, restarts included, the table holds the whole in-window spend |
| SpendRestart.RestartKeepsSpend | src/policy.ts:181-196 | A restarted process charges every later window what the old one would have and reissues no live id |
| SpendClass.Policy.DoBoot | src/policy.ts:181-196 | The seeding loop gives the booted state |
| SpendClass.Policy.DoEvaluate | src/policy.ts:236-266 | The method gives the verdict and the pruned spend list of the step function |
| SpendClass.Policy.Evicted | src/policy.ts:348-360 | The eviction loop removes exactly the buckets with nothing in the window |
| SpendClass.Policy.DoReserve | src/policy.ts:268-310 | The method counts, books and persists what the step function says |
| SpendClass.Policy.DoCheckSettle | src/policy.ts:213-234 | The method gives the verdict and state of the step function |
| SpendClass.Policy.DoRefundUnspent | src/policy.ts:377-391 | The method gives the state of the step function |
| SpendClass.Policy.DoAdjustReservation | src/policy.ts:419-441 | The method gives the state of the step function |
| ChannelPool.DisciplineIsExact | src/channelPool.ts:85-157 | An event keeps lanes exclusive and the three sets a partition if and only if it is allowed: only members disabled, no second release of a lane in use, no enabling of a held lane |
| ChannelPool.LanesAreExclusiveExactly | src/channelPool.ts:70-157 | Throughout a run the sets partition the constructed lanes and no lane is held twice, if and only if every event of it is allowed |
| ChannelPool.LanesAreExclusive | src/channelPool.ts:70-157 | In every disciplined run the sets partition the constructed lanes and no lane is held twice |
| ChannelPool.AcquireKeepsGood | src/channelPool.ts:85-115 | A lane handed out is held by nobody at that moment |
| ChannelPool.ExhaustedExactly | src/channelPool.ts:85-115 | The pool is exhausted exactly when every lane is held or disabled |
| ChannelPool.LongestFreeGoesFirst | src/channelPool.ts:85-157 | Over every run the lane handed out is one that has been free for as long as any |
| ChannelPool.ConfiguredOrder | src/channelPool.ts:70-84 | At first the lanes are free in the order they were configured, each once |
| ChannelPool.ReleaseFrees | src/channelPool.ts:122-133 | A first release leaves the lane free behind all others that are, unless it is disabled |
| ChannelPool.Pool.DoAcquire | src/channelPool.ts:85-115 | The object's method takes the first available lane or reports exhaustion |
| ChannelPool.Pool.DoRelease | src/channelPool.ts:122-133 | The object's method does what the step function says |
| ChannelPool.Pool.DoDisable | src/channelPool.ts:139-147 | The object's method does what the step function says |
| ChannelPool.Pool.DoEnable | src/channelPool.ts:150-157 | The object's method does what the step function says |
| ChannelMonitor.DisabledIffAlarmed | src/channelMonitor.ts:123-191 | A lane is disabled exactly when, since its last healthy reading, there was a below-floor reading or 5 failures in a row |
| ChannelMonitor.FewFailuresAreHarmless | src/channelMonitor.ts:169-191 | Fewer than 5 failures after a healthy reading take no lane out |
| ChannelMonitor.MonitoredLanesAreExclusiveExactly | src/channelMonitor.ts:116-191 | Under the monitor lanes stay exclusive throughout a run if and only if no hold is released again while its lane is in use and no healthy reading re-enables a lane that is still held |
| ChannelMonitor.OnlyReEnablingBreaks | src/channelMonitor.ts:140-167 | When every settlement releases its lane once, re-enabling a held lane is the only thing that breaks it |
| ChannelMonitor.ReEnabledLaneIsHandedOutTwice | src/channelMonitor.ts:140-167 | The monitor re-enables a lane that is still held, and two settlements then hold it |
| ChannelMonitor.Monitor.DoRecordFailure | src/channelMonitor.ts:169-191 | The object's method, pool call included, does what the step function says |
| ChannelMonitor.Monitor.DoCheckOne | src/channelMonitor.ts:123-167 | The object's method, pool calls included, does what the step function says |
| ChannelMonitor.Monitor.CheckAll | src/channelMonitor.ts:116-121 | The loop checks the lanes one after the other up to the one during whose wait `stop()` was called, and none if it was stopped before |
| OwnershipStore.RotationIsExact | src/store.ts:996-1047 | A rotation moves ownership if and only if its marker is live and the first row is its old owner, to the single proven row of the new one; else both tables are unchanged |
| OwnershipStore.MarkerMovesOnce | src/store.ts:853-1047 | Over every serial run a marker moves ownership at most once, however often its settlement is replayed |
| OwnershipStore.SpentStaysSpent | src/store.ts:853-880 | No operation re-arms a spent marker |
| OwnershipStore.RotationCannotFork | src/store.ts:996-1047 | Once one marker of an owner has moved a key, no other marker of that owner can |
| OwnershipStore.OnceBoundAlwaysBound | src/store.ts:760-1047 | A key once bound always has a row and a key once proven a proven row, over every run |
| StoreHistory.ProvenExactly | src/store.ts:760-1047 | An operation proves a key if and only if it is a proof of one of its rows, a displacement of it or a rotation that moved it: a settlement proves nothing |
| StoreHistory.ProvenByHistory | src/store.ts:760-1047 | Over every run a key is proven if and only if some operation of the run proved it |
| StoreHistory.BindIsExact | src/store.ts:760-779 | A binding goes through if and only if the key has no row for the recipient, and adds one unproven row of that moment and nothing else |
| StoreHistory.MarkIsExact | src/store.ts:797-835 | A proof marks the row it names unless it was proven before, and no other |
| StoreHistory.OwnerIsEarliest | src/store.ts:678-716 | The first owner is the recipient of the key's earliest row, and of equally early ones the first written |
| StoreHistory.MarkersMatchHistory | src/store.ts:853-1047 | A marker is there if and only if it was recorded, says what it was first recorded with, and is consumed when it moved its binding |
| StoreHistory.RotatesExactly | src/store.ts:996-1047 | Over every run a rotation goes through if and only if its marker was recorded, has not expired, never moved before, and the first owner is the one it names |
| OwnershipStore.OwnerStaysExactly | src/store.ts:760-1047 | A bound key that no displacement or rotation reassigns changes its owner if and only if a new row of it is bound strictly before its first, and then to that recipient: a proof, a marker or a settlement not bound earlier leaves it |
| OwnershipStore.DisplacedKeyIsTheClaimants | src/store.ts:837-851 | A displaced key has the one proven row of the claimant, other keys and all markers are as they were |
| OwnershipStore.KeysAlwaysHold | src/store.ts:760-1047 | The primary keys of both tables hold after every run |
| OwnershipStore.SortCommutes | src/store.ts:678-716 | Sorting the whole table and then taking a key's rows is sorting the key's rows: the first settler stays first |
| OwnershipStore.Store.DoBind | src/store.ts:760-779 | The object's transaction does what the step function says |
| OwnershipStore.Store.DoMarkVerified | src/store.ts:797-835 | The object's transaction does what the step function says |
| OwnershipStore.Store.DoDisplace | src/store.ts:837-851 | The object's transaction does what the step function says |
| OwnershipStore.Store.DoRecordMarker | src/store.ts:853-880 | The object's transaction does what the step function says |
| OwnershipStore.Store.DoConsume | src/store.ts:996-1047 | The object's transaction spends, looks and moves, or rolls everything back |
| OwnershipStore.Store.LoadOwnership | src/store.ts:678-716 | Each key with a row appears once, with its recipients in owner order, the earliest bound_at, and proven if any row is |
| LoadFold.FoldIsExact | src/catalog.ts:745-784 | A key is bound if and only if some stored binding is spelled again as it, proven if and only if one is, and its owners are those of one winner, proven whenever any is |
| LoadFold.WinnerIsUnique | src/catalog.ts:756-784 | There is at most one winner, so the owner list is never a union |
| LoadFold.CanonicalSpellingWinsExactly | src/catalog.ts:761-772 | The canonically spelled binding is kept if and only if no competing later one was bound before it |
| LoadFold.CanonicalSpellingCanLose | src/catalog.ts:761-772 | A canonically spelled binding can lose to another spelling's |
| LoadFold.FoldBindings | src/catalog.ts:745-784 | The loop over the stored bindings computes the fold |
| Catalog.EvictionKeepsNewest | src/catalog.ts:2464-2474 | Eviction brings the size to the cap, changes no kept entry, and drops nothing newer than what it keeps |
| CatalogRuns.LatchIsForGood | src/catalog.ts:1079-1103 | In every interleaving at the waits, from any state a process can be in, a key once proven stays proven and keeps its owner list for ever |
| CatalogRuns.ChangesHandsOnce | src/catalog.ts:1376-1622 | In every interleaving a bound key stays bound and changes hands at most once, and then it is latched |
| CatalogRuns.OnlyProofMovesOwners | src/catalog.ts:1501-1622 | An owner list changes only when the resource named the claimant and the key was never proven; a key becomes proven only so or when the resource named its present owners |
| CatalogRuns.FirstOwnerIsFirstSettler | src/catalog.ts:1849-2459 | A key's first owner is the recipient of a settlement offered for it, alone |
| CatalogRuns.EntriesMatchOwnership | src/catalog.ts:1861-1862 | In every interleaving an entry's bound payees are its key's owner list; one whose key has no binding was there at the start, with no payees |
| CatalogRuns.ReachableInv | src/catalog.ts:1023-2459 | What holds between any two stretches of the waiting methods, for the state and for every waiting call |
| CatalogBadges.BadgesAreProvenExactly | src/catalog.ts:1627-1633 | Badges stand on proofs in every interleaving if and only if no probed key is spelled again as another key in use |
| CatalogBadges.BadgesAreProven | src/catalog.ts:1627-1633 | For keys that spelling leaves alone, a served badge implies the latch in every interleaving |
| CatalogBadges.AliasMisplacesBadge | src/catalog.ts:1627-1633 | A key spelled again as another badges the other, which was never proven |
| BadgeSpelling.AliasedExactly | src/catalog.ts:902-1633 | For keys of URLs that parse, a probed key is spelled again as another in use if and only if the path of one had a forged escape and the spelling it leads to is in use |
| BadgeSpelling.ForgedEscapeMisplacesBadge | src/catalog.ts:902-1633 | Two URLs of one origin, with the paths `/%%34%31` and `/%41`, whose keys `/%41` and `/A` collide so: some run badges the second, never proven |
| CatalogProbes.OneProbeAtATime | src/catalog.ts:1079-1109 | Two probes of one key, or of one key for one claimant, never overlap |
| CatalogGates.ClaimStartsExactly | src/catalog.ts:1376-1485 | A displacement probe starts if and only if the key is listed, unproven, not templated and owned by others than the claimant, ownership is not frozen, no call is out for this claim, and its last verdict has rested: 24 hours after a mismatch, a minute after a timeout, else a quarter of an hour |
| CatalogGates.ProbeStartsExactly | src/catalog.ts:1023-1081 | A re-proof starts if and only if an owner settles, the key is listed without a badge and not templated, no call is out for it, and its last verdict has rested |
| CatalogGates.BootAsksExactly | src/catalog.ts:1150-1158 | A boot pass asks about exactly the proven, listed, unbadged keys with owners that are not templated or asked about already |
| CatalogGates.BootProbeStartsExactly | src/catalog.ts:1159-1175 | The boot queue goes through its keys one by one and probes each that is still listed without a badge and not asked about |
| CatalogGates.BootProbeIsExact | src/catalog.ts:1159-1190 | A boot probe notes its verdict, badges on a match only, frees the key, and changes no binding, latch or option |
| CatalogGates.RefusalsAreTrue | src/catalog.ts:1663-1860 | Every refusal of a settlement names a cause that holds |
| CatalogProbes.ProbesAreSpaced | src/catalog.ts:1066-1084 | Two settlement-triggered probes of one key start at least the shortest cooldown apart, whatever boot probes come between |
| CatalogSpacing.ProbesAreSpacedByVerdict | src/catalog.ts:1023-1485 | Two settlement-triggered probes in a row, of a key or of a key for one claimant, start at least the cooldown of the first one's verdict apart |
| CatalogServing.ServedPayeesAreBound | src/catalog.ts:1733-1862 | In every run of upserts, displacements, re-proofs and loads of any stored data, every payment option served pays an owner of its key |
| CatalogServing.UpsertIsExact | src/catalog.ts:1701-1888 | A settlement is cataloged if and only if its recipient is entitled to the key; refused, it changes no entry, binding or latch; an evicted key comes back only for an owner |
| CatalogServing.DisplacementIsExact | src/catalog.ts:1376-1622 | A displacement happens if and only if the gates, the probe and the write let it, else no binding, latch or entry changes; when it happens the claimant is the only owner, latched, and the key is listed, with a new entry of the claimant's option alone, if and only if the settlement is the claimant's own and usable: else the old entry is dropped and the proven owner unlisted |
| CatalogServing.ReverifyIsExact | src/catalog.ts:1023-1116 | A probe is noted, never touches a binding or an option, and badges and latches on a match only |
| CatalogServing.LoadServes | src/catalog.ts:2276-2404 | Whatever the store holds, loaded entries show the binding's owners and only options that pay them |
| CatalogLoaded.LoadedIsStart | src/catalog.ts:727-2404 | Whatever the store holds, the loaded process has every invariant that the results on runs start from |
| CatalogLoaded.LoadIsExact | src/catalog.ts:2276-2404 | A key is listed if and only if a stored row has it; its entry is the newest row's, the first of equally new ones, with the binding's owners, no badge, and all that row's options that pay an owner, in their order |
| CatalogLoaded.ProofOutlivesRestart | src/catalog.ts:745-2404 | A key of which one stored binding was proven is, throughout every run of the new process, proven and owned by whom a proven stored binding says |
| CatalogOverlaps.StepServesExactly | src/catalog.ts:1501-1862 | One step, with any calls waiting, keeps what is served and what waits to be cataloged paying owners if and only if no displacement goes through while a first catalog of its key waits |
| CatalogOverlaps.ServedExactlyWithoutOverlaps | src/catalog.ts:1501-1862 | Interleaved at every wait, what is served and what waits to be cataloged pays owners throughout a run if and only if no displacement goes through in it during a first catalog of its key |
| CatalogOverlaps.OverlapServesAnUnboundPayee | src/catalog.ts:1501-1862 | From any reachable state, after such an overlap the entry that the waiting catalog leaves pays somebody else under the proven claimant's binding, until the displacement goes on |
| CatalogOverlaps.StrangerLastsExactly | src/catalog.ts:1595-1862 | When the displacement then goes on, the entry still pays somebody else, now under the claimant's badge, if and only if the claimant's own settlement is refused; else it pays the claimant alone |
| CatalogOverlaps.StrangerIsServed | src/catalog.ts:1376-1875 | How it comes about: the entry under probe is evicted, an unproven owner settles again and waits, the probe names the claimant, the waiting catalog goes on, and then the displacement: the entry is listed after both, and pays the stranger then exactly when the claimant's settlement is refused |
| CatalogClass.BazaarCatalog.DoBindOwnership | src/catalog.ts:2424-2459 | The object's method binds once, freezes at the tombstone cap, and does not bind what was not written |
| CatalogClass.BazaarCatalog.DoEvictToCap | src/catalog.ts:2464-2474 | The deleting loop leaves what eviction keeps |
| CatalogClass.BazaarCatalog.DoBeginUpsert | src/catalog.ts:1663-1860 | The stretch up to the wait does what the step function says |
| CatalogClass.BazaarCatalog.DoEndUpsert | src/catalog.ts:1861-1875 | The stretch after the wait does what the step function says |
| CatalogClass.BazaarCatalog.DoUpsert | src/catalog.ts:1663-1888 | Both stretches together are the upsert of the exact statement |
| CatalogClass.BazaarCatalog.DoSetVerifiedOwner | src/catalog.ts:1627-1633 | The method badges the entry of the key spelled again, if there is one |
| CatalogClass.BazaarCatalog.DoBeginReverify | src/catalog.ts:1023-1081 | The gates before a probe, in their order |
| CatalogClass.BazaarCatalog.DoEndReverify | src/catalog.ts:1082-1109 | Badge, latch, cooldown and flight after a probe |
| CatalogClass.BazaarCatalog.DoBootCandidates | src/catalog.ts:1150-1158 | The loop selects exactly the latched entries that can be proven again |
| CatalogClass.BazaarCatalog.DoBeginDisplace | src/catalog.ts:1376-1485 | The gates before a displacement probe, without a rotation |
| CatalogClass.BazaarCatalog.DoEndDisplace | src/catalog.ts:1486-1614 | The latch looked at again, the binding moved, the entry dropped and cataloged anew |
| CatalogClass.BazaarCatalog.DoLoad | src/catalog.ts:2286-2337 | The loop over stored rows keeps the newest per key, bound again |
| CatalogClass.BazaarCatalog.DoBindLoadedEntry | src/catalog.ts:2352-2404 | Owners come from the binding, other payees are dropped, no badge is trusted |
| PathNormal.WellFormedIsNormalised | src/catalog.ts:144-158 | RFC 3986 section 6.2.2: idempotent, no double or trailing slash, only upper-case escapes of octets that are not unreserved |
| PathNormal.IdempotentExactly | src/catalog.ts:144-158 | For every path: normalising twice is normalising once if and only if no escape is forged out of a stray percent sign |
| PathNormal.ResultIsTidy | src/catalog.ts:155-157 | For every path the result is not empty, has no double slash, and no trailing one but the root |
| PathNormal.UnreservedExactly | src/catalog.ts:144-154 | The characters an escape is decoded to are the letters, the digits and the four marks of RFC 3986 section 2.3 |
| PathNormal.HexDigitsExactly | src/catalog.ts:144-154 | A hex digit's value is its place among the sixteen digits, in either case |
| PathNormal.EscapingChangesNothing | src/catalog.ts:150-154 | Spelling an unreserved character as an escape, in either hex case, changes nothing |
| PathNormal.StrayPercentForges | src/catalog.ts:150-154 | `/%%34%31` changes again when normalised a second time |
| PathMeaning.SameFormExactly | src/catalog.ts:144-158 | Two well-formed paths have one normal form if and only if they say the same: nothing else is merged, an escaped slash is no separator |
| ResourceKeys.SplitInvertsExactly | src/catalog.ts:913-989 | Splitting gives back the URL part and the stripped tool name if and only if the URL part has no separator |
| ResourceKeys.EqualKeysExactly | src/catalog.ts:913-947 | Two identities share a key exactly when URL part and stripped tool name agree; a plain URL never meets a tool's key |
| ResourceKeys.SameResourceExactly | src/catalog.ts:913-947 | Two URLs that name one tool have one key if and only if both parse, with one origin, and their paths have one normal form |
| ResourceKeys.KeyExistsExactly | src/catalog.ts:935-947 | A key exists if and only if no tool is named or its stripped name has 1 to 256 characters |
| ResourceKeys.KeyIsFixed | src/catalog.ts:902-947 | A derived key handed in again, as a URL or from the store, is returned unchanged |
| ResourceKeys.RestartsKeepKeys | src/catalog.ts:727-751 | A stored key stays the same however often it is derived again |
| ResourceKeys.BaseIsFixedExactly | src/catalog.ts:925-935 | The URL part is canonical if and only if its path has no forged escape |
| ResourceKeys.StoredKeyIsFixedExactly | src/catalog.ts:727-989 | A stored key comes back as it is, at the next restart and at all later ones, if and only if the path of its URL has no forged escape; for a URL that does not parse, if and only if it holds no separator or so much behind one that no tool can be called that |
| ResourceKeys.ForgedEscapeChangesKey | src/catalog.ts:144-158 | The path `/%%34%31` is cataloged under `/%41`, with any tool name or none, and derived again as `/A` |
| ResourceKeys.SeparatorInUrlChangesKey | src/catalog.ts:925-947 | A separator in a URL that does not parse makes the stored key another tool's; such a URL is refused at a settlement, so only a row of an older build can hold one |
| Ranking.FusedIsPermutation | src/catalog.ts:2078-2108 | The fused list holds every id of either ranking once, and nothing else |
| Ranking.ResultsAreExact | src/catalog.ts:1978-2062 | The results are exactly the candidates with a score or a vector, each once: nothing filtered out takes a place |
| SearchOrder.LexicalOrderIsExact | src/catalog.ts:1978-1989 | Without vectors each result has a better score than those after it, or at equal scores a later update, or at equal updates an earlier place among the candidates |
| SearchOrder.FusedOrderIsExact | src/catalog.ts:2060-2108 | With vectors each result is worth more than those after it, worth counted from how many candidates are ahead of it in score and in similarity; ties go by update, then by score and similarity |
| SearchOrder.BetterInBothComesFirst | src/catalog.ts:2060-2108 | A candidate that beats another in both score and similarity comes before it |
| SearchOrder.NoVectorsNoChange | src/catalog.ts:2047-2076 | Without document vectors the lexical order stands |
| Ranking.DominatingComesFirst | src/catalog.ts:2092-2108 | An entry at least as good in both rankings and better in one comes first, a miss counting as one past the end |
| Ranking.FirstBeatsTwoSecondsExactly | src/catalog.ts:2539-2541 | A first place beats second in both rankings exactly when its other place is at most third |
| Ranking.CursorsVisitEverything | src/catalog.ts:1966-2004 | Following cursors ends and visits every result exactly once in order, whatever the limits on the way |
| Ranking.PageIsNext | src/catalog.ts:1988-2004 | A page is the next stretch of results, with a cursor exactly when some are left |
| Ranking.ForeignCursorIsIgnored | src/catalog.ts:1965-1969 | A cursor of another query is the same as none |
| Ranking.RankMap | src/catalog.ts:2082-2085 | The map of 1-based ranks built entry by entry |
| Ranking.FuseRankings | src/catalog.ts:2078-2108 | The search's steps compute the fused list |
| Ipv6.ParseIpv6ToBytes | src/ownership.ts:631-666 | The loop that pushes two bytes per hextet computes the parse, with its refusals and its exception |
| Ipv6Text.LegalSpellingParses | src/ownership.ts:631-666 | Every legal spelling (RFC 4291 section 2.2: any double colon, hex case, leading zeros, dotted quad), in white space and with a zone, parses to exactly its sixteen bytes |
| Ipv6Reading.ReadExactly | src/ownership.ts:631-666 | Every string, dotted or not, is read as an address if and only if, cleaned, it spells it, where a double colon may stand for no group and anything that ends in a line break may stand before a spelling with a dotted quad |
| Ipv6Reading.ThrowsExactly | src/ownership.ts:631-666 | The parser throws if and only if one double colon stands among more than eight groups |
| Ipv6Text.DigitsCount | src/ownership.ts:631-666 | What decimal octets and hextets are worth, digit by digit |
| Ipv6Text.EveryAddressIsSpelled | src/ownership.ts:631-666 | Every sixteen bytes have a legal spelling |
| Ipv6Text.OneAddressOneReading | src/ownership.ts:631-666 | Two spellings of one address are read alike |
| AddressBlocking.BlockedIpv4Exactly | src/ownership.ts:566-580 | The octet tests block exactly nine address blocks |
| AddressBlocking.BlockedIpv6Exactly | src/ownership.ts:589-627 | The byte tests block exactly loopback, unspecified, link-local, site-local, unique local, and addresses with a blocked IPv4 one in them |
| AddressBlocking.VerdictIsOnTheBytes | src/ownership.ts:589-666 | However an address is legally spelled, the verdict is that on its bytes |
| AddressBlocking.VerdictExactly | src/ownership.ts:589-666 | Every string, legal or not: it passes if and only if it spells an address whose bytes pass; what spells none is blocked |
| AddressBlocking.MappedSpellingGetsIpv4Verdict | src/ownership.ts:618-626 | An IPv4-mapped address (RFC 4291 section 2.5.5.2), however spelled, is blocked exactly when its IPv4 part is |

## Left out

- HTTP routes, the admin console, metrics, the audit log, the MCP server and the RPC, Horizon and database clients: plumbing.
- Trust scores, settlement statistics and their gate, text sanitisers, synonyms, stemming and field scores: each settled by one or two branches; scores are arbitrary numbers here.
- Rotation through the catalog: the awaits between the catalog and its store are not interleaved; rotation is modelled as the store's transactions, and the catalog's displacement without a rotation marker.
- Expiry of persistent contract storage, upgrade and the read-only getters of the bond contract.
- The order of the map that `LoadOwnership` returns: the primary sort by key has no other effect, and `LoadFold` takes the bindings in any order.
- Passes of the monitor that overlap because one outlasts the interval: `DisabledIffAlarmed` is about checks in any order.
- How many boot probes run at once: any number may here, so what is proved holds for the code's three.
- The parse of a dotted quad handed to the guard on its own, and rounding in the fused scores: the octets and the ranks are exact.
- Cursors whose offset is not a finite number.
- Reentrancy and a token that moves balances other than by the transfers asked for: the token is an exact balance map.
