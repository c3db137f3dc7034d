# bitfyn: a verified model of the wallet's sync and payment logic

bitfyn is an SPV Bitcoin wallet. This project models the parts of it that decide
what the wallet believes and spends, in Dafny, and proves what they promise.

* **Header chain** (`chain.dfy`, `compact.dfy`, `mediantime.dfy`, `locator.dfy`):
  the validated header list with its hash index, the median time rule, difficulty
  and its compact encoding, and the block locator.
* **Wallet** (`transactions.dfy`, `ledger.dfy`, `wallets.dfy`): coins, balances,
  history and statistics rebuilt from the stored transactions, and why the four
  agree.
* **Scan** (`scan.dfy`): block by block scanning against a plain ledger of unspent
  outputs, over runs with reorganisations.
* **Tables and sync** (`store.dfy`, `syncstate.dfy`, `steps.dfy`, `engine.dfy`,
  `syncruns.dfy`, `peers.dfy`, `fanout.dfy`): the stored tables, header batches, the filter
  header chain and what several peers' answers are made of.
* **Rescan** (`rescan.dfy`, `rescan_example.dfy`): filters downloaded again and
  checked, the queue of late-watched addresses, and when a rescan makes the scan
  complete.
* **Payments** (`spend.dfy`, `path.dfy`, `amount.dfy`): sizes, dust, coin
  selection, derivation paths, and amounts as they are shown and entered.
* **Connections** (`pool.dfy`, `status.dfy`): admission to the connection pool
  and the synced status, as state machines of locked sections.

Objects whose methods update fields are classes (`Chain`, `Wallet`, `Store`,
`Engine`, `Manager`); their methods are proved against functions on values, and
the lemmas are about those functions and their runs. `dafny verify dfyconfig.toml`
checks everything.

## Assumptions

* Hash functions never collide and never give the null hash (`IdealHash`,
  `IdealFilterHash`); a genesis block has the null hash as its parent, and no
  transaction has it as its id. A header
  chain commits to valid blocks (`HonestBlocks`): transaction ids are distinct and
  inputs refer to earlier transactions. This is meant for the chains the wallet
  meets, whose work makes others too costly to build; it is stated of every linked
  list of headers.
* SQL tables are maps and sequences, a block filter is a match predicate, and a
  block is what its header hash commits to. The data of a received filter is never
  nil, however short. Network answers, the clock, failing writes and what other
  goroutines do meanwhile are arguments of the methods, so every statement is for
  all of them.
* The claims about a complete scan name their premises: filters that miss no
  watched script (`Truthful`, `FilterComplete`) and no payment below the filter
  start (`Quiet`).

## Where the code and its words differ

* A spending of a coin that is not known at the start of its block is not seen
  (`outpoints` are those before the block), unless the same transaction pays the
  wallet or spends a known coin too. `BalanceExactly` says when the balance
  is right all the same, and `HiddenSpendExample` shows one that is not.
* A rescan skips blocks matched for the address before, taking them for processed,
  though a coin they spend may have been found later (`SkippedSpendExample`). It
  starts at the first stored payment, and an earlier one, in a block that paid the
  late address alone, stays unseen (`EarlierPaymentExample`). `RunRescan` gives the
  exact condition (`NothingLost`): every transaction to store was stored before, or
  its block's original filter holds the script of some target started by then with
  no match recorded. It holds where neither failure occurs and the filters miss
  nothing (`NothingLostWhen`).
* `EstimateVSize` "never underestimates" up to 252 inputs and outputs only.
* `PlanSpend` with mixed coins may fail although some selection suffices, when a
  confirmed coin is worth less than its fee (`WorthlessCoinExample`);
  `PlanIsCompleteIff` says exactly when.
* A pending transaction conflicting with one of a block is not always dropped: of
  two that spend one outpoint, as a payment and its replacement do, only the later
  is noted, and when it confirms the other stays (`ReplacementExample`).
  `NoConflictLeftIff` gives the exact condition, which accepting a transaction
  keeps exactly when it shares no input with a pending one.
* `parseAmount` multiplies unchecked: very large BTC entries wrap around, even to
  accepted or negative amounts (`BtcEntryIsExactIff`, `WrappedEntryExample`,
  `NegativeEntryExample`). What is shown for a negative amount is no entry
  (`SwitchingUnitsKeepsAmount`).
* Pinning a peer while the pool is full takes it past `TargetPeers`
  (`PinWhileFullExample`, `PinExceeds`). So does the pinned peer connecting after
  the last place was taken while only a connection to a peer pinned before counted
  as pinned, or after its network was switched on with the pool full without it
  (`StepKeepsSafe`); `TargetHoldsIff` says that there are no other ways.

## Model

| member | source | states |
|---|---|---|
| Chains.HashesDistinct | internal/spv/chain.go:92-148 | no hash appears twice on a chain linked from the genesis block, by descent to the genesis block, whose parent is no block |
| Chains.RunsStayLinked | internal/spv/chain.go:92-156 | after every run of Add, AppendTrusted and Truncate the list is one chain from genesis and all its hashes differ |
| Chains.Chain.HeightOf | internal/spv/chain.go:57-60 | the height of a hash is where it is on the chain, and -1 exactly when it is not there |
| Chains.Chain.Add | internal/spv/chain.go:92-126 | appends the header exactly when no check rejects it, with the reason of the first check that does, and keeps the index the exact inverse of the list |
| Chains.Chain.AppendTrusted | internal/spv/chain.go:131-148 | appends a stored header exactly when it names the tip, or is the genesis block of an empty chain |
| Chains.Chain.Truncate | internal/spv/chain.go:151-156 | cuts the list at the height and removes exactly the cut hashes from the index |
| Chains.Chain.MedianTime | internal/spv/chain.go:158-169 | the loop over the last headers gives the median of the last up to eleven times |
| Chains.Chain.LastRealBits | internal/spv/chain.go:212-217 | the walk back ends at the last header of the period that is no minimum-difficulty exception |
| Chains.Chain.CheckBits | internal/spv/chain.go:178-207 | the bits are judged by the difficulty rule of the network, retargets and test network exceptions included |
| Chains.Chain.CheckProofOfWork | internal/spv/chain.go:221-235 | the hash is judged against the decoded target, a zero or negative target being refused |
| Chains.AcceptedIff | internal/spv/chain.go:92-235 | a header is accepted exactly when its bits name a positive target its hash does not exceed and, first on the chain, it is the genesis block or else names the tip, is later than the middle one of the last up to eleven times, at most two hours ahead of the clock and keeps the difficulty rule |
| Chains.RejectedFor | internal/spv/chain.go:92-235 | a rejected header fails the check of the reason given and passes those made before it |
| Chains.DifficultyIff | internal/spv/chain.go:178-207 | the difficulty rule refuses nothing on the regression networks and, off a retarget, nothing but a minimum-difficulty header that neither comes after the gap nor follows only such headers; at a retarget it demands the retargeted bits and, where it is enforced, a time at most 600 s before the parent |
| Chains.RealIsMinimum | internal/spv/chain.go:208-217 | the header the walk back ends at has the minimum difficulty exactly when every header of the period so far has |
| Chains.RunsKeepMedianRule | internal/spv/chain.go:108-112 | every header added over a run is later than the median of the up to eleven before it |
| Chains.MedianNeverGoesBack | internal/spv/chain.go:158-169 | along a chain built by Add and Truncate the median time past never decreases |
| MedianTimes.MedianStep | internal/spv/chain.go:158-169 | a time above the median, added to a grown or slid window, gives at least the old median |
| MedianTimes.MedianIsMiddle | internal/spv/chain.go:158-169 | the median is one of the last up to eleven times, at most half of which are earlier and more than half not later |
| MedianTimes.MedianOfPermutation | internal/spv/chain.go:158-169 | the median does not depend on the order the times are collected in |
| Chains.LastRealHeight | internal/spv/chain.go:208-217 | the height found is in the same period, no exception or the period start, and only exceptions lie between |
| Chains.AcceptedAtRetarget | internal/spv/chain.go:178-207 | an accepted header at a retarget carries exactly the retargeted bits and its hash meets their target |
| Chains.RetargetStaysBounded | internal/spv/chain.go:178-260 | an accepted header at a retarget has a target at most four times the one it scales and at most the limit, and not below the lesser of the limit and its quarter but for what encoding loses |
| Chains.Chain.Locator | internal/spv/chain.go:76-89 | lists the hashes at the locator depths from the tip down, in int32 arithmetic that never overflows |
| Locators.LocatorDecreases | internal/spv/chain.go:76-89 | locator heights start at the tip and strictly decrease |
| Locators.GapsDouble | internal/spv/chain.go:76-89 | the first eleven entries are one apart, and from there on each gap is twice the one before |
| Locators.ForkCovered | internal/spv/chain.go:76-89 | for a fork at some depth the first entry at or below it is at most twice as deep |
| Locators.LengthBound | internal/spv/chain.go:76-89 | a locator of more than eleven entries needs a chain exponentially long in its length |
| Compact.CompactToBig | internal/spv/chain.go:263-280 | the shifts and masks decode a word to its mantissa times the power of 256, with the two error cases |
| Compact.BigToCompact | internal/spv/chain.go:283-297 | the loop encodes a target as its leading three bytes, moved down when they reach the sign bit |
| Compact.DecodedIs | internal/spv/chain.go:263-280 | a word names its mantissa times 256 to the power three less than its exponent, rounded down, and is refused exactly when negative or without an exponent for its mantissa |
| Compact.EncodingRoundsDown | internal/spv/chain.go:263-297 | decoding an encoded target gives a target not above it, below it by less than its 2^-15th part |
| Compact.EncodingIsLargest | internal/spv/chain.go:263-297 | no word decodes to a target between the original and the encoded one |
| Compact.EncodingMonotone | internal/spv/chain.go:283-297 | a larger target is never encoded as a smaller word or target |
| Compact.EncodingIdempotent | internal/spv/chain.go:263-297 | encoding what an encoded target decodes to gives the same word |
| Compact.RoundTripExactly | internal/spv/chain.go:263-297 | a word that decodes is its own re-encoding exactly when it is zero or canonical: exponent 3 with a mantissa, or exponent at least 4 with a mantissa of at least 0x8000, and no sign |
| Compact.CanonicalOrder | internal/spv/chain.go:263-297 | canonical words are ordered and distinguished as the targets they name |
| Compact.NextRetargetBits | internal/spv/chain.go:250-260 | the time a period took, clamped to a quarter and four times the intended one, scales the target, which is capped by the limit and encoded |
| Compact.RetargetFollowsTime | internal/spv/chain.go:250-260 | the new target is the largest one any word names at or below the lesser of the limit and the old target times the time the period took over the intended one, a time below a quarter counting as a quarter and above four times as four times |
| Compact.ExactPeriodKeepsBits | internal/spv/chain.go:250-260 | a period that took exactly the intended time leaves canonical bits at or below the limit as they are |
| Compact.RetargetBounds | internal/spv/chain.go:250-260 | the new target lies between the lesser of limit and a quarter, less the 2^-15 part, and the lesser of limit and four times the old; its bits re-encode to themselves |
| Compact.RetargetMonotone | internal/spv/chain.go:250-260 | a period that took longer is never followed by smaller bits or a smaller target |
| Ledger.Conservation | internal/sync/wallet.go:160-180 | the unspent coins are worth the sum of the net amounts plus whatever value is spent more than once |
| Ledger.NothingTakenTwice | internal/sync/wallet.go:160-180 | where no outpoint is spent twice nothing is counted twice |
| Ledger.TakenTwiceIsZero | internal/sync/wallet.go:160-180 | with no negative values nothing is counted twice exactly when every repeated outpoint is worth nothing |
| Ledger.OrderDoesNotMatter | internal/sync/wallet.go:160-180 | listing the transactions in another order changes neither the coins left nor the sum of net amounts |
| Wallets.UnspentValue | internal/sync/wallet.go:160-180 | adding every wallet output and deleting every spent outpoint gives the value of the unspent coins |
| Wallets.ComputeBalance | internal/sync/wallet.go:150-156 | the two balances are the coins left by the confirmed transactions and the change the unconfirmed ones make |
| Wallets.Wallet.Load | internal/sync/wallet.go:47-123 | rebuilds ids, spenders, first payments, outpoints, coins, history and balances as functions of the stored rows; the coin list holds every unspent coin once, the largest first |
| Wallets.CollectFirstPaid | internal/sync/wallet.go:85-104 | every address with a stored payment has the lowest height of one, and no other address has any |
| Wallets.ListedValue | internal/sync/wallet.go:105-121 | a list with every coin once is worth the sum of the coins |
| Wallets.BuildHistory | internal/sync/history.go:51-82 | the history is the entry of every transaction, the unconfirmed first and then the newest first |
| Wallets.BuildEntry | internal/sync/history.go:51-110 | an entry holds the net amount of a transaction, and its fee when every input is the wallet's |
| Wallets.EntriesAre | internal/sync/history.go:51-110 | there is one entry for each transaction, with its id, time and state, and its outputs marked as the wallet's exactly by their scripts |
| Wallets.FeeIs | internal/sync/history.go:51-110 | the fee is what the inputs are worth less what the outputs are exactly when every input spends a wallet output of a listed transaction, and otherwise none |
| Wallets.HistoryOrder | internal/sync/history.go:51-82 | the unconfirmed transactions come first, either kind from the latest to the earliest, and none is lost or repeated |
| Steps.HistoryTells | internal/sync/history.go:51-82 | the history has a confirmed entry with the time of its block for every stored transaction and an unconfirmed one with the time it was seen for every pending one |
| Wallets.CoinTells | internal/sync/wallet.go:85-121 | a coin has the value and script of its output, an address and path of a watched script, and the time and state of its transaction |
| Wallets.PaymentShare | internal/gui/stats.go:30-47 | a transaction the wallet paid for counts as sent exactly what it pays to others |
| Wallets.ComputeStats | internal/gui/stats.go:30-47 | the loop gives the statistics function of the history, whose figures the following rows fix |
| Wallets.EntryAdds | internal/gui/stats.go:30-47 | an entry without a fee adds its net amount to received if it is positive and else takes it into sent; one with a fee adds nothing to received, the fee to fees and the rest to sent; each adds one transaction and as many outputs as are the wallet's |
| Wallets.ReceivedIsIncoming | internal/gui/stats.go:30-47 | what was received is the sum of the positive net amounts of the entries without a fee, and never negative |
| Wallets.IncomingPayment | internal/gui/stats.go:30-47 | a transaction that spends no wallet coin and has no negative output adds exactly what it pays to the wallet to received and nothing to sent |
| Wallets.PaidEntry | internal/gui/stats.go:30-47 | an entry with a fee takes from the wallet, beyond the fee, exactly what its transaction pays to others |
| Wallets.SentNonNegative | internal/gui/stats.go:30-47 | where no output has a negative value what was sent is never negative |
| Wallets.TotalsAgree | internal/gui/stats.go:30-47 | received less sent less fees is the sum of the history's net amounts, and that is the coins left less the value spent twice |
| Wallets.TotalsAgreeExactly | internal/sync/history.go:51-110 | with no negative values history and coins agree exactly when no wallet coin of any value is spent twice |
| Wallets.Wallet.FiguresAgree | internal/sync/wallet.go:47-123 | of a loaded wallet received less sent less fees, the net amounts of the history, the sum of the balances and the value of the coin list are one figure, but for the value spent twice; the same where nothing is |
| Scans.UtxoIsUnspent | internal/sync/wallet.go:160-180 | over all transactions of a chain the wallet's formula gives the watched part of the ledger of unspent outputs |
| Scans.ProcessMember | internal/sync/wallet.go:278-326 | processing a block stores its relevant transactions, replaces rows of the same ids and leaves every other row |
| Scans.ProcessCovers | internal/sync/wallet.go:278-326 | processing a block with every earlier coin known stores all that can be told from the blocks below it |
| Scans.NextStores | internal/sync/filters.go:306-347 | scanning a block whose filter holds a watched script stores of it just what pays the wallet or spends a wallet output of a stored or pending transaction, and any other nothing |
| Scans.NextRewinds | internal/sync/sync.go:279-294 | a rewind keeps just the blocks and rows up to its height |
| Scans.RewindCovers | internal/sync/sync.go:279-294 | what a rewind keeps covers the blocks that are left |
| Scans.RunCovers | internal/sync/filters.go:306-347 | after every run of scanned blocks and rewinds no transaction that can be told from the blocks below its own is missing |
| Scans.BalanceIsLedger | internal/sync/wallet.go:278-326 | the balance of a complete scan is the watched part of the ledger plus the coins whose spending was missed |
| Scans.MissedIsHidden | internal/sync/wallet.go:255-326 | a missed spending is one in the very block that made the coin |
| Scans.RunBalance | internal/sync/wallet.go:278-326 | so it is after every run of scanned blocks and rewinds |
| Scans.BalanceExact | internal/sync/wallet.go:278-326 | without spends hidden in their own block the unspent coins are exactly the watched ledger |
| Scans.RunSeen | internal/sync/wallet.go:278-326 | after every run, transactions pending or not, exactly those are stored that paid the wallet or spent an outpoint known when their block was processed |
| Scans.BalanceExactly | internal/sync/wallet.go:255-326 | after every run on a chain without double spends and with values never negative, from blocks that do not pay the wallet and with whatever was pending, the balance is the ledger's exactly when every coin whose spending was not found in its block is worth nothing |
| Scans.HiddenWithoutPending | internal/sync/wallet.go:255-326 | without pending transactions a spending is not found exactly when it is in the very block that made the coin and pays nothing to the wallet nor spends an earlier coin |
| Scans.ReorgIsScratch | internal/sync/sync.go:279-294 | however a branch was reached, through reorganisations or not, its coins are those of scanning it from scratch if nothing was pending in either run or nothing is hidden on the branch |
| Scans.ReorgAgreesIff | internal/sync/sync.go:279-294 | whatever was pending, on a branch without double spends they are the same exactly when the same coins were spent unseen in both runs |
| Scans.HiddenSpendExample | internal/sync/wallet.go:255-326 | a block with a payment and its spending leaves a coin in the balance that the ledger no longer has |
| SyncState.PutNewHeaders | internal/storage/sync.go:92-107 | storing the headers added to a chain keeps table and chain the same, the replacing insert notwithstanding |
| SyncState.TransactionsRewound | internal/storage/sync.go:322-325 | the transactions kept by a rewind lie on the kept chain with the hash of their block |
| SyncState.ProcessedRewound | internal/sync/sync.go:279-294 | after a rewind every payment in a block recorded as matched is still stored |
| SyncState.ProcessAgrees | internal/sync/wallet.go:278-326 | processing a block keeps every row on the chain and the ids distinct |
| SyncState.ChainExtends | internal/sync/filters.go:274-299 | the next filter row, linked to the last, extends the stored chain |
| SyncState.ChainRewound | internal/storage/sync.go:170-173 | deleting rows above a height leaves a filter chain without a gap |
| SyncState.ChainPinsFilters | internal/sync/rescan.go:229-243 | filters that reproduce the stored filter headers from some link are the filters the chain was built from, and so is the link |
| SyncState.AcceptCovers | internal/sync/filters.go:306-347 | accepting a filter that misses nothing completes the scan of its block |
| Steps.TablesRewound | internal/sync/sync.go:279-294 | cutting chain and tables at a fork keeps every row on the chain and every matched block processed |
| Steps.TablesMatched | internal/sync/filters.go:306-347 | processing a matched block and recording its matches keeps the tables so |
| Steps.AcceptableIff | internal/sync/filters.go:306-347 | a filter is accepted exactly when its height is on the chain, it decodes and, unless it holds no watched script, its block is at hand or can be had |
| Steps.AcceptedIs | internal/sync/filters.go:306-347 | it changes nothing unless it holds a watched script or its block came along; then the block is processed, just the addresses of the held scripts are recorded as matched, and no earlier record changes |
| Steps.NoConflictLeftIff | internal/sync/wallet.go:273-326 | no block ever leaves an unconfirmed transaction that spends what a transaction of the block spends exactly when no two unconfirmed ones spend one outpoint |
| Steps.DroppedFor | internal/sync/wallet.go:273-326 | an unconfirmed transaction is dropped only if the block confirms it or another of its transactions spends one of its inputs |
| Steps.CountedAre | internal/sync/wallet.go:278-326 | as many transactions are reported as the block has relevant ones |
| Steps.OneMoreDisjoint | internal/sync/wallet.go:354-375 | a further unconfirmed transaction keeps that so exactly when it shares no input with one there; so AcceptPending does |
| Steps.ReplacementExample | internal/sync/wallet.go:273-326 | of a payment and its replacement, both seen unconfirmed, the payment stays when the replacement confirms |
| Steps.HeldHeights | internal/storage/sync.go:112-130 | the ordered heights of a table holding a chain count it off from 0 |
| Steps.FilterStartHeight | internal/sync/sync.go:128-150 | filters start ten blocks below the first block at or after the creation time, or at genesis |
| Steps.FilterStartSettles | internal/sync/sync.go:144-165 | every block from the creation time on is at or above the start, and once the chain has passed that time the start does not move |
| Steps.FilterStartHighest | internal/sync/sync.go:128-150 | the start is no lower: unless it is genesis every block less than ten above it is older than the creation time, and the one ten above, if any, is not |
| Steps.ExtendTakes | internal/sync/sync.go:255-276 | of a batch a prefix is appended, each of its headers having passed every check against those below it; the whole batch exactly when the outcome says so, and else the next header fails a check for just the reason given |
| SyncRuns.RunsStayConsistent | internal/sync/sync.go:255-294 | after every run of header batches with forks, rejected headers and failing writes, accepted filters and rescanned blocks, the stored headers are the chain in memory and every row lies on it at or below the tip |
| SyncRuns.RunsCheckHeaders | internal/sync/sync.go:255-276 | after every such run each header above the starting chain has passed every check against the headers below it at some time |
| SyncRuns.RunsKeepTimes | internal/sync/sync.go:255-276 | so the median time rule that held of the starting chain holds of the chain |
| SyncRuns.BatchConsistent | internal/sync/sync.go:255-294 | one header batch keeps it so, whatever its fork, its rejected header or the failing write |
| SyncRuns.StoredDetermineChain | internal/sync/sync.go:360-373 | the stored headers determine the chain: no other chain has the same table |
| Stores.Store.SaveHeaders | internal/storage/sync.go:92-107 | a batch is stored whole, replacing rows of the same height or hash, or not at all |
| Stores.PutHeadersKeep | internal/storage/sync.go:92-107 | a stored batch leaves one row a hash, its last row among them, and every earlier row that shares neither height nor hash with the batch; no other rows appear |
| Stores.ListedByHeight | internal/storage/sync.go:299-317 | the stored transactions are listed in the order of their blocks, each once, those of one block as they were stored |
| Stores.Store.FilterResumeHeight | internal/storage/sync.go:220-230 | on rows without a gap the resume height is the first missing one |
| Stores.Store.SaveMatch | internal/storage/sync.go:255-261 | a match recorded before keeps its row |
| Stores.Store.SaveTransaction | internal/storage/sync.go:290-296 | a transaction stored again replaces its row |
| Stores.Store.SavePending | internal/storage/sync.go:329-332 | an unconfirmed transaction seen before keeps its row |
| Stores.Store.AddRescan | internal/storage/sync.go:407-414 | an address queued again keeps the lower height |
| Stores.Store.DeleteRescan | internal/storage/sync.go:436-439 | a rescan queued from a lower height meanwhile stays |
| Stores.EnqueueAllAt | internal/storage/sync.go:407-414 | after any additions the queue holds exactly the addresses queued, each with the lowest of its heights |
| Stores.DequeueAllAt | internal/storage/sync.go:436-439 | after any deletions exactly the addresses not deleted or queued from a lower height are left |
| Engines.Engine.Init | internal/sync/sync.go:59-122 | on the tables of an earlier run the same chain, filter chain and wallet come back; on empty ones the genesis block is stored |
| Engines.Engine.LoadHeaders | internal/sync/sync.go:59-93 | stored headers without a gap that link are loaded as the chain; a chain stored before is always loaded |
| Engines.Engine.RewindTo | internal/sync/sync.go:279-294 | chain, header, filter, match and transaction tables are all cut at the fork and the wallet is rebuilt |
| Engines.Engine.ExtendHeaders | internal/sync/sync.go:255-276 | nothing changes if no header on the chain has the hash the batch continues from; else the chain is cut there and, unless the write fails, just the prefix of headers that pass every check is on it, with the first failing check as the reason where that is not all; memory and store agree whatever fails |
| Engines.Engine.ConfirmedIsLedger | internal/sync/wallet.go:150-180 | once every block is scanned, with nothing hidden and nothing paid below the filter start, the confirmed balance is the wallet's part of the ledger of the chain |
| Engines.Engine.FiguresAgree | internal/sync/wallet.go:47-123 | in every state the operations lead to, received less sent less fees over the history, its net amounts, the two balances and the value of the coin list are one figure, but for the value spent twice |
| Engines.Engine.ProcessBlock | internal/sync/wallet.go:278-326 | stores the relevant transactions as of the block's start, drops exactly the confirmed and conflicting pending ones and reports how many were relevant |
| Engines.Engine.DescribeTx | internal/sync/wallet.go:255-271 | a transaction is relevant exactly when it spends a known outpoint or pays a watched script |
| Engines.Engine.AcceptPending | internal/sync/wallet.go:354-375 | a relayed transaction is stored exactly when it is not known and relevant |
| Engines.Engine.Watch | internal/sync/wallet.go:207-237 | an address watched late is queued for a rescan from its lowest stored payment, and only if it has one |
| Engines.Engine.ApplyFilter | internal/sync/filters.go:306-347 | a filter is accepted exactly when it is acceptable, its row chained to the previous header and the tables changed as the step says; the state stays valid |
| Engines.Engine.StoreFilters | internal/sync/filters.go:274-299 | filters are stored up to the first unacceptable one; the stored rows stay one hash chain and a complete scan is carried on |
| Engines.Engine.CheckFilterPrev | internal/sync/sync.go:303-330 | a batch is accepted exactly when its previous header is the stored one below, the anchor at a filter start above 0, which an unset anchor is set to, or at height 0 nothing or the genesis block |
| Engines.Engine.FilterHashes | internal/sync/filters.go:67-113 | the anchor is settled while unset; kept are exactly the places, in increasing order, of the answers whose previous header is the stored one below, the anchor at a filter start above 0, or at height 0 nothing or the genesis block; usable exactly when one is kept and, where the pinned peer is needed, the first is it |
| Engines.Engine.ContinuesOriginals | internal/sync/filters.go:67-113 | above the filter start an answer continues the stored chain exactly when it names the header the filters behind it chain to |
| Steps.AnchorIs | internal/sync/filters.go:83-94 | the anchor is named by more than half of the answers, or is the first answer's while none is named by more than half |
| Engines.Engine.SyncFilters | internal/sync/filters.go:29-62 | success leaves the resume height past the tip, a refused filter leaves it at the first height whose filter is not acceptable, and no usable peer at the start of its batch; the chain stays one chain of the accepted filters and a complete scan is carried on |
| PeerAnswers.MajorityUnique | internal/sync/sync.go:212-230 | at most one value has a strict majority |
| PeerAnswers.MajorityAnchor | internal/sync/sync.go:212-230 | the answer is the majority value if there is one, in whatever order the counts are walked |
| PeerAnswers.MajorityIff | internal/sync/sync.go:212-230 | a value has the majority exactly when more voted for it than did not |
| PeerAnswers.GroupVariants | internal/sync/filters.go:163-178 | the variants are the distinct filters served, in the order their first peers are listed |
| PeerAnswers.GroupsPartition | internal/sync/filters.go:163-178 | every peer is in exactly one variant, the one of its filter's hash |
| PeerAnswers.FilterHasOutputs | internal/sync/filters.go:251-268 | a filter is valid exactly when it holds every output script but empty and OP_RETURN ones |
| PeerAnswers.ResolveVariants | internal/sync/filters.go:226-245 | the winner is a valid variant with the most peers, the earliest on a tie; there is none exactly when no variant is valid |
| PeerAnswers.WinnerIsOne | internal/sync/filters.go:226-245 | unless no variant is valid exactly one of them wins |
| PeerAnswers.ChooseFilter | internal/sync/filters.go:185-220 | the accepted filter is the winner's, and exactly the peers outside it are dropped |
| PeerAnswers.CheckCommitted | internal/sync/filters.go:125-141 | a peer's filters pass exactly when each hashes to what the peer committed to for its height |
| PeerAnswers.CommittedIff | internal/sync/filters.go:125-141 | the check passes exactly when the hashes committed to for the range are those of the filters served |
| PeerAnswers.CommittedAgree | internal/sync/filters.go:125-141 | two peers whose filters pass served the same ones exactly when they committed to the same hashes |
| FanOuts.FanOut | internal/sync/peers.go:302-359 | exactly the peers that succeeded before the pace was set or by its deadline are kept, in their order, and the others dropped; the primary is dropped only if its request failed |
| FanOuts.PrimaryInTime | internal/sync/peers.go:302-359 | the primary is never dropped as too slow |
| FanOuts.StragglersGet | internal/sync/peers.go:302-359 | if the primary succeeds, exactly the requests that end by twice its time, or within five seconds of it, are in time |
| FanOuts.StragglersOfFailed | internal/sync/peers.go:302-359 | if it fails, the time counted from is that of the first success or of its own end, whichever is later |
| PeerAnswers.GetCFilters | internal/sync/peers.go:236-262 | the answers are filed under their heights, and a foreign, repeated or late one fails the request |
| PeerAnswers.CollectIff | internal/sync/peers.go:236-262 | a request is served exactly when every answer is a filter of the type for a block of the range and no two are for one block; each is then filed under its height |
| PeerAnswers.CollectComplete | internal/sync/peers.go:236-262 | a served request has the filter of every height, and it is what the answer for that height brought |
| Rescans.RescanTargets | internal/sync/rescan.go:87-108 | a job is idle exactly when its address is not watched or not paid or one of queued height, lowest payment and filter start lies above the end; every other is a target from the highest of the three, the lowest first |
| Rescans.CheckStoredChain | internal/sync/rescan.go:229-243 | filters pass exactly when, chained from the link, they reproduce the stored headers |
| Rescans.RefetchFilters | internal/sync/rescan.go:185-225 | the first offer reproducing the stored headers is taken, and exactly the peers before it whose filters do not link are dropped |
| RescanSteps.ForgedIs | internal/sync/rescan.go:185-225 | a peer is dropped exactly when it answered with filters other than the originals, or chained from another header |
| RescanSteps.GenuineIsOriginal | internal/sync/rescan.go:185-243 | an offer passes exactly when it is the filters the stored chain was built from, chained from the header it was built from, a header a peer supplied included |
| RescanSteps.GenuineByLink | internal/sync/rescan.go:185-225 | where the header below is stored an offer passes exactly when it is the original filters, whatever header it claims; at the filter start above height 0 it must name the one they are chained from too |
| RescanSteps.RescanRecords | internal/sync/rescan.go:128-177 | after a block was matched every active target its filter holds is recorded, and no earlier record is lost |
| Rescans.RescanBlock | internal/sync/rescan.go:128-177 | a block is processed and recorded for exactly the active targets it matches and was not matched for before |
| Rescans.QueueKept | internal/sync/rescan.go:33-81 | a rescan queued from a lower height while one ran stays queued; otherwise success removes what was queued and failure keeps it |
| RescanSteps.WalkedStep | internal/sync/rescan.go:123-177 | each block walked is processed exactly when its original filter holds the script of a target started by then with no match recorded before; nothing stored is lost and nothing else is added |
| RescanSteps.RescanStep | internal/sync/rescan.go:123-177 | where nothing is lost, one more block matched against the targets completes it for every script |
| RescanSteps.RescanStart | internal/sync/rescan.go:83-108 | where nothing is lost, nothing is missing below the lowest start of the targets |
| RescanSteps.RescanMisses | internal/sync/rescan.go:123-177 | what is complete after a rescan was stored before or lies in a block processed by it |
| RescanSteps.LateDecides | internal/sync/rescan.go:17-32 | where the scan was complete for the other scripts, nothing is lost exactly when nothing is lost for the targets' scripts |
| RescanSteps.NothingLostWhen | internal/sync/rescan.go:17-32 | nothing is lost where the filters miss nothing, no target is paid below its start and no block recorded as matched for it hides anything |
| Rescans.RunRescan | internal/sync/rescan.go:33-81 | on success every block from the highest of queued height, lowest payment and filter start to the last filter whose original filter holds the script of a queued, watched and paid address is recorded as matched for it, and a failure keeps the address queued; if no script is watched meanwhile and no block below the filter start pays the wallet, everything to store is then stored exactly when each such transaction was stored before or its block's original filter holds the script of a target started by then with no match recorded |
| RescanExample.SkippedSpendExample | internal/sync/rescan.go:123-161 | from what a scan leaves: a block recorded as matched before the coin it spends was known is skipped, and the coin stays in the wallet |
| RescanExample.EarlierPaymentExample | internal/sync/rescan.go:83-108 | from what a scan leaves: a payment below the lowest stored one is below the start of the rescan, and stays missing |
| Spends.EstimateVSize | internal/wallet/spend.go:53-59 | the estimate is 11 vbytes, 68 for every input and the size of the outputs |
| Spends.NeverUnderestimates | internal/wallet/spend.go:49-59 | it is at least the virtual size for all signature lengths exactly when there are at most 252 inputs and 252 outputs |
| Spends.EstimateIsWorst | internal/wallet/spend.go:49-59 | with up to 252 inputs and outputs it is the size of the transaction whose signatures all have 72 bytes |
| Spends.KnownDustLimits | internal/wallet/spend.go:61-70 | the limits are 294, 330 and 546 for the common scripts, as Bitcoin Core documents them |
| Spends.DustLimitIs | internal/wallet/spend.go:61-70 | the limit is three times the size of the output and of an input spending it, 67 vbytes for a witness program and 148 otherwise, for every script up to 65535 bytes |
| Spends.PlanSpend | internal/wallet/spend.go:77-111 | the loop over the prefixes gives the plan of the shortest that is funded, with the error cases |
| Spends.RefusedFor | internal/wallet/spend.go:77-83 | an amount below the dust limit of its script is refused first, a fee rate below 1 next, and spending all coins then fails exactly when they do not cover the cost |
| Spends.FundedIffPlanned | internal/wallet/spend.go:97-109 | a prefix is planned exactly when it covers the amount and the fee without change |
| Spends.PlanConserves | internal/wallet/spend.go:77-111 | inputs are given coins, each once, and are amount plus fee plus change; change is nothing or above dust; the fee is that of the size, and without change short of a change output's fee and dust limit on top |
| Spends.PlanPaysRate | internal/wallet/spend.go:72-111 | with up to 252 inputs the fee is the rate times the size of that transaction with change, and without change at least that and less than change would add |
| Spends.TriedInOrder | internal/wallet/spend.go:84-92 | coins are tried confirmed first and the largest first among either kind |
| Spends.PlanIsBest | internal/wallet/spend.go:72-111 | planning succeeds exactly when some selection without unconfirmed or with all confirmed coins covers the cost, takes the fewest such coins, and no unconfirmed one if confirmed ones suffice |
| Spends.PlanIsCompleteAndMinimal | internal/wallet/spend.go:72-111 | with coins of one confirmation state it fails exactly when no selection covers the cost and takes the fewest coins any does |
| Spends.PlanSucceedsIff | internal/wallet/spend.go:72-111 | planning succeeds exactly when the confirmed coins worth the fee of their input suffice, or all confirmed ones with the unconfirmed ones worth theirs |
| Spends.PlanIsCompleteIff | internal/wallet/spend.go:72-111 | planning fails only where no selection suffices exactly unless all coins worth their fee suffice together and neither of these two does |
| Spends.PlanIsCompleteWhenWorth | internal/wallet/spend.go:72-111 | so it is complete when every confirmed coin is worth the fee of its input |
| Spends.WorthlessCoinExample | internal/wallet/spend.go:84-111 | with a confirmed coin worth less than its fee a payment one unconfirmed coin covers fails |
| Spends.MaxAmount | internal/wallet/spend.go:115-125 | the value of the coins less the fee without change, or nothing when that is dust |
| Spends.MaxAmountIsExact | internal/wallet/spend.go:113-125 | spending all coins pays an amount exactly when it is not dust and at most the maximum; the maximum leaves no change |
| Pools.Manager.Connect | internal/sync/manager.go:706-793 | a finished handshake joins the pool exactly when the peer serves filters, the sync runs, its pinning and network are current, its address is new and, unpinned, a slot is open |
| Pools.Manager.SetPinned | internal/sync/manager.go:174-216 | changes the pinned peer and picks exactly the pinned connections and those to the new address |
| Pools.Manager.SetOverlay | internal/sync/manager.go:226-263 | switches a network and, if that changed anything, picks exactly the connections no longer allowed |
| Pools.Manager.Stop | internal/sync/manager.go:335-350 | stops once and picks every connection |
| Pools.Manager.SlotsLeft | internal/sync/manager.go:521-526 | the open slots, one kept for an absent pinned peer and none while no client is ready |
| Pools.NextOrderly | internal/sync/manager.go:174-263 | each locked section keeps addresses distinct, at most three unpinned connections, and what is not being disconnected allowed |
| Pools.RunsAreOrderly | internal/sync/manager.go:706-793 | so does every interleaving of joins, disconnections, pin changes, network switches and the stop |
| Pools.RunsUseAllowed | internal/sync/manager.go:226-263 | over every run a connection that is not being closed is direct while no network client is set, and over one of the networks set while any is |
| Pools.FixedPinnedBounds | internal/sync/manager.go:521-526 | with the pinned setting fixed from the start the pool never exceeds its target |
| Pools.LiveBounded | internal/sync/manager.go:706-793 | in any case at most one connection more than the target is not being disconnected |
| Pools.StepExceeds | internal/sync/manager.go:706-793 | the step that takes the pool past its target is the pinned peer, its network being allowed, joining a full pool it is not in, and no other |
| Pools.PinExceeds | internal/sync/manager.go:174-216 | pinning a peer that then connects exceeds the target exactly when the pool is full, the peer is not in it, its network is allowed and the sync runs |
| Pools.StepKeepsSafe | internal/sync/manager.go:521-526 | the place of the pinned peer goes exactly in three ways: a peer of an allowed network is pinned while the pool is full of others, the last place is taken while the only pinned connection is that of a peer pinned before, or the pinned peer's network comes to be allowed while the pool is full without it |
| Pools.TargetHoldsIff | internal/sync/manager.go:521-526 | a run stays within the target, at every time and should the pinned peer connect then, exactly when no step gives that place away |
| Pools.PinWhileFullExample | internal/sync/manager.go:174-216 | pinning a peer while the pool is full takes it to four connections |
| SyncStatus.SyncedLocked | internal/sync/manager.go:371-377 | shown as synced exactly when idle after a good round, nothing announced since it began and no peer ahead |
| SyncStatus.SyncedIff | internal/sync/manager.go:371-377 | shown after a run exactly when the last report was idle at no height below a peer's and the last round succeeded, with nothing announced since it began |
| SyncStatus.SyncedMeansCaughtUp | internal/sync/manager.go:799-847 | whenever it is shown, the last round succeeded and no block was announced since that round began |
| Amounts.GroupDigits | internal/gui/amount.go:39-48 | the loop gives the digits grouped from the right |
| Amounts.GroupedAt | internal/gui/amount.go:39-48 | every digit keeps its order, with a space before exactly those, other than the first, from which on the number of digits is a multiple of three |
| Amounts.UngroupedDigits | internal/gui/amount.go:39-48 | removing the spaces gives the digits back |
| Amounts.ParseAmount | internal/gui/amount.go:101-129 | an entry is read as the specification says, overflow of the product included |
| Amounts.SatsEntryIs | internal/gui/amount.go:101-129 | an entry in satoshis is taken exactly when, spaces aside, it is nothing, or digits with at most a sign that are not below zero nor above the supply; it is worth what the digits say |
| Amounts.BtcEntryIs | internal/gui/amount.go:101-129 | an entry in BTC that is taken is, spaces aside, digits with at most one point and at most eight digits after it; it is refused for its decimals exactly when there are more |
| Amounts.SpacesDoNotMatter | internal/gui/amount.go:101-105 | entries that differ in nothing but spaces, wherever they are, give the same amount or the same refusal |
| Amounts.CleanIs | internal/gui/amount.go:101-105 | what is read is, spaces taken out, exactly what lies between the white space at the ends |
| Amounts.ParseUndoesUnitText | internal/gui/amount.go:101-148 | entering what is shown for an amount up to the supply gives it back, in either unit |
| Amounts.NoSpareZeros | internal/gui/amount.go:131-148 | what is shown for an amount in BTC has no zeros at the end of its decimals nor before its whole part |
| Amounts.ShownIn | internal/gui/amount.go:18-37 | an amount is shown in satoshis exactly when it is below five million of them, and a negative one as its amount with a sign |
| Amounts.SwitchingUnitsKeepsAmount | internal/gui/amount.go:131-148 | switching the unit of a parsed amount keeps it exactly when it is not negative |
| Amounts.GroupingKeepsAmount | internal/gui/amount.go:39-48 | grouping the digits at the start of an entry does not change what is read, in either unit |
| Amounts.ShownReadsBack | internal/gui/amount.go:18-48 | entering an amount up to the supply as it is displayed gives it back |
| Amounts.BtcEntryIsExactIff | internal/gui/amount.go:112-128 | a BTC entry, with a point or without, is taken at its exact value or refused, except exactly where it is below the bound of its whole part and its value exceeds int64 and wraps to one not above the supply; amounts up to the supply are always taken |
| Amounts.SmallEntriesAreExact | internal/gui/amount.go:112-128 | entries below 92 233 720 368 whole bitcoins are exact |
| Amounts.WrappedEntryExample | internal/gui/amount.go:112-128 | 184467440738 BTC is taken for 90448384 satoshis |
| Amounts.NegativeEntryExample | internal/gui/amount.go:112-128 | 92233720369 BTC is taken for a negative amount |
| Amounts.UsdValue | internal/gui/amount.go:69-77 | the worth in cents is exact to half a cent, for either sign |
| Paths.KeyForPath | internal/wallet/spend.go:177-194 | the loop over the parts reads the steps of a path, or refuses it |
| Paths.StepIs | internal/wallet/spend.go:177-194 | a part stands for a number below 2^31 in digits, or with a mark at its end for 2^31 more, and nothing else stands for a step |
| Paths.ReadIs | internal/wallet/spend.go:177-194 | a path is read exactly when it is m and at least one part joined by slashes and every part stands for a step |
| Paths.ReadUndoesPrint | internal/wallet/wallet.go:99-114 | reading the path printed for an address gives its derivation steps exactly when the index is below 2^31 |
| Paths.PathsDiffer | internal/wallet/wallet.go:99-114 | addresses of different chains or indices have different paths |
| Paths.StepsNamed | internal/wallet/wallet.go:99-114 | the steps are those of BIP 84, purpose, coin and account with 2^31 added |

## Left out

- Filter start moving: the engine's filter start is fixed, as it is once the chain has passed the wallet's creation time (`FilterStartSettles`); before, it rises with the chain. Forks below it keep the old anchor.
- Failing writes other than `SaveHeaders`, and crashes between the deletes of a rewind.
- int64 overflow of coin sums, fees, balances and dollar values: these are unbounded integers; only the product in `parseAmount` and the int32 locator arithmetic wrap or are bounded.
- Chains.Chain.Truncate: a height outside the chain, a slice panic in the source, is required not to occur.
- Wallets.Wallet.Load: coins of equal value are in some order, not that of their outpoint texts, and the used addresses, kept apart in the source, are not modelled.
- Wallets.BuildEntry: of the counterparty addresses an entry shows, only which outputs are the wallet's is kept; script and witness parsing is left out.
- Wallets.BuildHistory: the addresses of inputs and outputs are not in the entries.
- Engines.Engine.Init: the filter start and the creation time it is computed from are given, not set by it.
- Engines.Engine.ProcessBlock: blocks are taken to be the verified ones their hash commits to; Merkle and witness checks are left out.
- Engines.Engine.SyncFilters: the filters agreed on or settled by `ChooseFilter` are an argument, one per height; that each peer's filters are checked against its committed hashes first (`CheckCommitted`) and that peers may be disconnected between batches is not part of this method.
- Engines.Engine.AcceptPending: the id is the hash of a transaction and so never null; the request and expiry of relayed transactions and broadcasting are left out.
- Rescans.RunRescan: the order of the queued jobs is not fixed, blocks are reachable or not by argument, other goroutines take their turns between batches, and what it says of the scan afterwards is for runs during which no further script is watched.
- Pools.Manager.Connect: which network an address is on is a parameter; the dial, the handshake and the records of peers; candidates and backoff are left out.
- SyncStatus.SyncedMeansCaughtUp: peers' advertised heights are taken as they are at the time of asking.
- Amounts.SpacesDoNotMatter: of the white space trimmed at the ends, the ASCII characters, U+0085 and U+00A0 are modelled, and spaces inside are plain ones.
- FanOuts.FanOut: outcomes are given with their times, one at the deadline itself counting as in time; that a pinned peer is only logged and never disconnected is left out.
- Header download, anchor proving by further peers, and everything of the user interface but amounts and statistics.
- Signing, address encoding, key derivation itself, SQL, serialisation and filter decoding.
