# HoboNickels: a verified model of the node's state machines

HoboNickels is a hybrid proof-of-work / proof-of-stake node. This project models the parts of it that keep
state consistent (the active chain and its transaction index, the synchronized-checkpoint protocol, the address
manager, the script-check queue, the block-download scheduler, message framing) and the algorithms consensus rests
on (Merkle branches, median time past, the stake modifier, the reward bisection, compact targets and retargeting,
Base58), and proves properties of them. `dafny verify dfyconfig.toml` checks everything.

## How it is laid out

| file | what it models |
|---|---|
| `Ledger.dfy`, `Supply.dfy` | the transaction index: spending, releasing, connecting, disconnecting, and the value it holds |
| `BlockTree.dfy` | the block index as a tree of `pprev` links, `pnext` links, the fork search |
| `Validation.dfy` | what ConnectBlock demands of a block, and the code that decides it over an overlay of queued changes |
| `Acceptance.dfy` | the same in plain terms: which inputs may be spent, what may be paid out, how far the supply may rise, when rewards are mature |
| `Replay.dfy`, `Switching.dfy` | what a database at a path is, and what a switch of chains does to links, database and best block, as functions |
| `ChainState.dfy`, `ChainWitness.dfy` | the chain object: ConnectBlock to AddToBlockIndex, and runs of the node: one on which the best block gets ahead of links and database and the supply goes wrong, one on which a shorter branch wins |
| `Checkpoints.dfy` | the synchronized-checkpoint protocol as a state machine, the code as steps of it, and whole runs of the node |
| `AddrMan.dfy`, `AddrManCheck.dfy`, `AddrManDisk.dfy` | the address manager, its self-check, its file format |
| `CheckShared.dfy`, `CheckProtocol.dfy`, `CheckQueue.dfy` | the script-check queue: its shared fields, every interleaving of its critical sections, and the code as steps of that protocol |
| `Scheduler.dfy` | the headers-first block-download scheduler |
| `Merkle.dfy`, `MedianTime.dfy`, `StakeModifier.dfy` | Merkle branches, median time past, stake-modifier selection |
| `Compact.dfy`, `Retarget.dfy`, `Headers.dfy`, `Reward.dfy` | compact targets, the version 2 retarget, the trust of a block and the tests of its bits and time, the reward |
| `Framing.dfy`, `Base58.dfy` | P2P message framing, Base58 text |
| `Basics.dfy`, `Bytes.dfy`, `Arithmetic.dfy`, `Sequences.dfy`, `Sorting.dfy` | shared definitions |

## The main results

- **The index is a function of the chain.** `Ledger.DisconnectUndoesConnect`: disconnecting a connected block
  always succeeds and gives back the index it was connected to, less the fully spent entries whose ids it reused; so
  it is restored exactly if and only if no id was reused (`Ledger.ReusedIdIsLost` is the counterexample).
  `ChainState.Chain.Reorganize` carries this through every reorganization: `Valid()` says the database is the replay of
  the path from genesis, up to such entries, and `Exact()` that it is that replay exactly. From an exact database, if
  the blocks left reused no id, a reorganization succeeds if and only if the new branch connects.
- **Money is conserved, exactly while switches complete.** `Checkpoints.Drive`: a node that starts consistent and in
  sync, fed any sequence of blocks and checkpoint messages, each with the rules then in force, stays in sync *if and
  only if* in every switch, those for pending checkpoints included, all postponed blocks connect; then at the end the
  database is the replay of the path to the best block and the unspent outputs are worth the supply recorded for it,
  through in-block spends, coinstakes, fees nobody collects, overwritten ids and reorganizations. A switch whose
  postponed block fails leaves a valid state out of sync, in which the value is the supply recorded for the block the
  database is at (`ChainState.Chain.MoneySupplyIsUnspent`), not that of the best block unless it is 0
  (`ChainState.Chain.AddToBlockIndex`). The next block on the best one then ends validity: from a valid state, a
  successful direct extension is valid *if and only if* the state was in sync, and whatever the supply was off by, it
  stays off by (`ChainState.Chain.SetBestChain`).
- **Nobody prints money.** `Acceptance.ConnectsExactly` and `Acceptance.AcceptedExactly` say which blocks connect and
  which transactions are accepted, as equivalences in terms of outputs, marks, heights and sums. So fees are never
  negative, and connecting a block raises the value of the unspent outputs by no more than its coinbase pays and its
  coinstakes may gain (`Acceptance.SupplyCapped`, per kind of block in `Acceptance.SupplyCappedByKind`); a transaction
  that pays out more than it takes in makes its block fail (`Acceptance.OverpaidFails`); and a reward is only spent out of
  an ancestor that is at least the maturity lower (`Acceptance.MatureSpends`).
- **The heaviest chain.** `Checkpoints.Drive`: over every run from genesis, the trust of an indexed block is that of the
  genesis block and the sum of what its ancestors and itself were added with. Fed blocks only, as long as no switch is
  refused, the best chain is the branch with the largest sum, however long the branches are; and a node on the heaviest
  chain stays there *if and only if* no switch is refused (`Checkpoints.RunHeaviest`). `ChainWitness.ShorterButHeavier`
  is a run in which a branch of one block displaces a chain of two.
- **The links are the path.** From a valid state in sync, after SetBestChain the `pnext` links are the path to
  `pindexBest` *if and only if* every postponed block reconnects (`ChainState.Chain.SetBestChain`). The condition is not
  vacuous: the code sets `pindexBest` also after a postponed block failed. `ChainWitness.Run` is a run of the node, from
  genesis through five blocks and a checkpoint message, that ends with the best block ahead of links and database and
  its supply wrong; with one more block, `ChainWitness.RunOn`, the node is in sync again, no longer valid, and its
  supply still wrong. All these blocks have the bits, times and trust the code demands (`ChainWitness.MadeFits`).
  In every state, also after that, only proper ancestors of the best block carry a link (`Switching.SwitchedOk`).
- **Checkpoints.** `Checkpoints.RunSafe`: over every interleaving of accepted blocks, checkpoint messages and pending
  checkpoints, the sync-checkpoint is on the main chain and later ones descend from earlier ones; `Checkpoints.Drive`
  shows that the code goes through such a run, failed reconnects included.
  `Checkpoints.Node.CheckSync`: the short cut gives the verdict of the full trace-back. A checkpoint on a block that has
  not arrived yet is taken once the block has, if that block is on the main chain or can be switched to
  (`Checkpoints.MessageThenBlock`).
- **Address manager.** Every operation keeps the five redundant indexes consistent, so the bail-out of Good is
  unreachable (`AddrMan.UntriedIsHeld`), the self-check always passes (`AddrManCheck.ConsistentPasses`), and saving
  then loading gives an isomorphic state with no tried entry lost (`AddrManDisk.SaveThenLoad`).
- **Check queue.** For any number of workers and any interleaving, the master returns true exactly when every check
  added since its last return is true, no wake-up is lost, and every wait ends within a bound on productive steps,
  whatever spurious wake-ups, arriving threads and quit signals come in between.
- **Scheduler.** Across all event sequences a tracked block is queued or in flight, leaves tracking only once
  accepted or held, and no peer owns more than 128 requests. After each pass over a peer its window is full, the queue
  is empty, or the front of the queue is too far ahead; with room left it is asked for the lowest block stuck on another
  peer (`Scheduler.Scheduler.SendMessages`).
- **Framing.** What the receiver holds is a function of the bytes received, so it does not depend on how they were
  cut into chunks (`Framing.Receiver.ReceiveMsgBytes`).
- **Algorithms.** Merkle branches lead to the root, and under a collision-free hash only they do; median time past
  never decreases; the stake modifier never fails to select, depends only on ancestors, and prefers any proof-of-stake
  block to a proof-of-work block whose hash is 2^224 or more; the reward rate is at the
  curve within a CENT and monotone, and the reward is right if and only if its 64-bit product fits or wraps above the
  cap; compact targets up to n keep their order if and only if the length of n fits its byte, encoding a decoded one
  again changes nothing if and only if its leading bytes fit the stored length, and targets stay in range; Base58
  decodes a string to b exactly when it is b's encoding with white space around it.

## Model

| member | source | states |
|---|---|---|
| Ledger.SpendMarks | src/main.cpp:1845-1896 | spending a transaction's inputs marks exactly those outputs, each of which was unspent, and changes nothing else |
| Ledger.ReleaseMarks | src/main.cpp:1643-1663 | releasing inputs clears exactly the marks of the outputs named, and changes nothing else |
| Ledger.SpentEntryKept | src/main.cpp:2050-2107 | a fully spent entry no transaction of the block re-creates survives the block unchanged |
| Ledger.UndoOneTx | src/main.cpp:1640-1673 | disconnecting a transaction that was just connected gives back the index before it, less its own id |
| Ledger.UndoTxs | src/main.cpp:1933-1941 | the same for a whole block in reverse order, also when fully spent entries were lost before |
| Ledger.DisconnectUndoesConnect | src/main.cpp:1933-1955 | disconnecting a connected block succeeds and restores the index less reused ids; exactly restored if and only if no id was reused |
| Ledger.ReusedIdIsLost | src/main.cpp:2054-2099 | concrete input: a fully spent entry with a reused id is overwritten and then erased |
| Ledger.ConnectCovered | src/main.cpp:2050-2107 | what connects to an index that lost fully spent entries connects to the full one, with the same correspondence after |
| Ledger.DisconnectCovered | src/main.cpp:1933-1955 | a successful disconnect of a connected block leaves the earlier index up to fully spent entries, whatever was lost before |
| Supply.SpendTotal | src/main.cpp:1845-1896 | spending lowers the unspent total by exactly the value of the inputs |
| Supply.ConnectTxTotal | src/main.cpp:2050-2100 | connecting a transaction changes the unspent total by value out minus value in, also when it overwrites a spent id |
| Supply.ConnectTotal | src/main.cpp:2050-2107 | connecting a block changes the unspent total by its value out minus its value in, through in-block spends |
| Supply.FeesAreDestroyed | src/main.cpp:2105-2112 | the supply change is what is minted less the fees: fees are destroyed |
| Supply.TotalCovers | src/main.cpp:2050-2059 | losing fully spent entries does not change the unspent total |
| BlockTree.PathShape | src/main.h:1306-1309 | the path to a block starts at genesis and has the block of height i at place i |
| BlockTree.LinksTellTip | src/main.h:1306-1309 | the links of a path differ from those of every proper ancestor's path |
| BlockTree.FindFork | src/main.cpp:2148-2160 | the two-cursor walk ends, at the highest common ancestor |
| BlockTree.BranchDown | src/main.cpp:2162-2171 | the list pushed while walking back is the branch above the fork, top first |
| BlockTree.ForkIsCommonLen | src/main.cpp:2148-2160 | the fork is where the two paths from genesis stop agreeing |
| BlockTree.ForkDisjoint | src/main.cpp:2162-2171 | above the fork the two branches share no block |
| Validation.TooYoung | src/main.cpp:1824-1828 | the walk back finds the generating block exactly when it is an ancestor closer than the maturity |
| Validation.FetchInputs | src/main.cpp:1676-1745 | succeeds exactly when every input refers to an existing output, and then holds the entries of the overlay |
| Validation.CheckInputs | src/main.cpp:1812-1839 | accepts exactly the inputs that are mature, not younger than their source, and in money range |
| Validation.SpendInputs | src/main.cpp:1845-1896 | succeeds exactly when all inputs can be spent in order and their scripts pass; the queued changes over the database are then that spend |
| Validation.ConnectInputs | src/main.cpp:1802-1931 | accepts exactly the acceptable transactions; an accepted one pays out no more than it takes in less its fee, a coinstake no more than its reward allows; the queued changes are the spend of its inputs |
| Validation.ConnectOne | src/main.cpp:2050-2100 | one transaction of a block: overwrite test, inputs, amounts; the overlay becomes the connected index |
| Validation.ConnectTransactions | src/main.cpp:1970-2124 | accepts exactly the blocks that satisfy Connects; queued changes are ConnectTxs, the supply change is value out minus value in, the mint is the minted value |
| Acceptance.SpendableExactly | src/main.cpp:1845-1896 | inputs can be spent one after the other if and only if each can be spent and no two are the same |
| Acceptance.AcceptedExactly | src/main.cpp:1802-1931 | a transaction is accepted if and only if its id is free or fully spent and, unless a coinbase, its inputs are different, unspent, mature, old enough and in range, their scripts pass, and its amounts are right: outputs and fee within inputs, or a coinstake's gain within its reward |
| Acceptance.ConnectsExactly | src/main.cpp:2547-2640 | a block connects if and only if its transactions are well shaped with one coinbase in front, its coinbase pays what it may, and each transaction is accepted in the index the earlier ones leave; the running sums the code tests follow from the totals |
| Acceptance.AmountsOfBlock | src/main.cpp:1898-1923 | in a block that connects every ordinary transaction pays out no more than it takes in and leaves its fee, and every coinstake gains no more than reward - fee + 1000 |
| Acceptance.OverpaidFails | src/main.cpp:1913-1919 | an ordinary transaction that pays out more than it takes in, or leaves less than its fee, makes the block fail |
| Acceptance.SupplyCapped | src/main.cpp:2105-2112 | a block's fees are not negative, and the unspent total rises by no more than its coinbase pays and its coinstakes may gain |
| Acceptance.SupplyCappedByKind | src/main.cpp:2577-2617 | a proof-of-stake block raises the total by no more than its coinstake may gain, a block without coinstakes by no more than the limit of its coinbase |
| Acceptance.MatureSpends | src/main.cpp:1824-1828 | every input of a block on a database at its parent's path spends out of an ancestor that holds the transaction, and a reward out of one at least the maturity lower |
| Acceptance.NewEntriesRecorded | src/main.cpp:2095-2100 | the entries a block creates are recorded under its hash and their places in it |
| Replay.SupplyIsTotal | src/main.cpp:2105-2107 | a database at a path holds unspent outputs worth the supply recorded for its last block |
| Replay.ConnectStep | src/main.cpp:2050-2124 | connecting a block to a database at a path puts it at the longer path with the new supply right, exactly so if it was exact |
| Replay.DisconnectStep | src/main.cpp:1933-1955 | disconnecting the tip of a path puts the database at the shorter path, exactly so if the tip reused no id |
| Replay.DisconnectExact | src/main.cpp:1933-1955 | a block on top of a replay that reused no id always disconnects, to the shorter replay |
| Switching.RelinkPath | src/main.cpp:2219-2227 | cutting the links of one branch and setting those of the other turns the links of one path into those of the other |
| Switching.RelinkFlags | src/main.cpp:2219-2227 | whatever the links were, if only proper ancestors of the old tip carried one, then only proper ancestors of the new tip do |
| Switching.ReorgFromExact | src/main.cpp:2144-2217 | from an exact database whose left blocks reused no id, a reorganization is the connection of the new branch to the replay of the common part |
| Switching.SwitchedOk | src/main.cpp:2268-2404 | in every state a switch keeps links on proper ancestors of the best block only, also when a postponed block fails |
| Switching.AddedOk | src/main.cpp:2473-2544 | so does the indexing of a block |
| Switching.ChildIs | src/main.cpp:2483-2493 | a new entry hangs under its parent, one higher, its trust added to the parent's; no other entry changes |
| Switching.IntermediateIs | src/main.cpp:2289-2301 | the intermediate block is on the branch, is genesis or has a parent of no more trust than the tip, and every block above it has a parent of more |
| Switching.AddedHeaviest | src/main.cpp:2527-2530 | from the heaviest chain, indexing a block leaves the node on the heaviest chain if and only if no switch is refused |
| Switching.SwitchedLinks | src/main.cpp:2268-2404 | from a state in sync the links after a switch are the path to the block the database is at, which is the new tip if and only if the postponed blocks connect |
| Switching.ExtendedLinks | src/main.cpp:2258-2266 | linking a block to the best one gives the links of its path if and only if the links were at the best one |
| ChainState.DriftKept | src/main.cpp:2105-2107 | what the recorded supply is off by the unspent value does not change from a block to the next, in any state |
| ChainState.Chain.DisconnectInputs | src/main.cpp:1640-1673 | succeeds exactly when the inputs can be released, and then is the release followed by erasing the id |
| ChainState.Chain.DisconnectBlock | src/main.cpp:1933-1955 | the reverse loop disconnects the block's transactions, or fails exactly when that is impossible |
| ChainState.Chain.ConnectBlock | src/main.cpp:1970-2124 | succeeds exactly when the block connects; writes the new index, the mint and the supply; changes nothing on failure |
| ChainState.Chain.DisconnectBranch | src/main.cpp:2176-2184 | disconnecting a list of tips in order puts the database at the shortened path |
| ChainState.Chain.ConnectBranch | src/main.cpp:2194-2207 | connecting a branch in order puts the database at its path; fails exactly when some block does not connect |
| ChainState.Chain.Relink | src/main.cpp:2219-2227 | the two loops cut the links to the blocks left and set those to the blocks entered |
| ChainState.Chain.Branches | src/main.cpp:2148-2171 | the two lists are exactly the two branches above the fork |
| ChainState.Chain.SwitchIndex | src/main.cpp:2176-2217 | the database part of a reorganization ends at the new path, exactly so if nothing had been lost and the blocks left reused no id |
| ChainState.Chain.Reorganize | src/main.cpp:2144-2240 | in every state: succeeds exactly when the old branch disconnects and the new one connects, and on failure disk and links are untouched; from a valid state in sync the result is at the new path with its links; from an exact one that reused no id above the fork it succeeds if and only if the new branch connects |
| ChainState.Chain.SetBestChainInner | src/main.cpp:2244-2266 | succeeds exactly when the block connects; on the tip of the database it keeps it the replay of its path; in any state it keeps what the supply is off by; on failure nothing changes |
| ChainState.Postpone | src/main.cpp:2289-2301 | the intermediate block is the lowest of the branch with more trust than the tip, and the list is what is above it |
| ChainState.Chain.ConnectPostponed | src/main.cpp:2314-2330 | the postponed blocks are connected up to the first failure; the database reaches the tip exactly when all connect |
| ChainState.Chain.SwitchOver | src/main.cpp:2285-2336 | a switch to another branch is the reorganization to the intermediate block followed by the postponed blocks up to the first failure |
| ChainState.Chain.SetBestChain | src/main.cpp:2268-2404 | in every state it leaves exactly what the switch function says; from a valid state in sync it keeps the state valid, and the links lead to the best block, and the database is at it, if and only if all postponed blocks reconnect; a direct extension keeps what the supply is off by, and from a valid state is valid if and only if the state was in sync |
| ChainState.Chain.AddToBlockIndex | src/main.cpp:2473-2544 | in every state: a known block is refused and nothing changes; a new one is indexed under its parent, one higher, with its trust added to the parent's, and no other entry changes; it becomes the best block if and only if that sum exceeds the trust of the best block and the switch works; from a valid state in sync the supply of the best block is the unspent value if and only if the node is still in sync or that value is 0 |
| ChainState.Chain.MoneySupplyIsUnspent | src/main.cpp:2105-2107 | in a valid state the unspent outputs are worth the supply recorded for the block the database is at |
| ChainState.Chain.TipSupplyIsUnspent | src/main.cpp:2105-2107 | in a valid state in sync, that is the supply of the best block; Checkpoints.Drive says on which runs the state is valid and in sync |
| ChainState.Chain.InMainChainIsOnPath | src/main.h:1306-1309 | in every state IsInMainChain holds only for blocks on the path to the best block; in a valid one exactly for those below the database's block and the best block, in sync exactly for those on the path |
| ChainWitness.ShapeOk | src/main.cpp:776-800 | the blocks of the run pass the context-free tests |
| ChainWitness.StrayFails | src/main.cpp:1676-1745 | the last block of the run does not connect: an output it spends does not exist |
| ChainWitness.MadeFits | src/main.cpp:2682-2687 | every block of the run has the bits required after its ancestors, is later than their median time, and adds the trust of its bits |
| ChainWitness.Run | src/main.cpp:2268-2404 | a run from genesis, four blocks, a checkpoint message and a fifth block, in which every call succeeds, the best block ends up ahead of links and database, and its recorded supply is not the unspent value |
| ChainWitness.RunOn | src/main.cpp:2268-2404 | one more block and the node is in sync again but not valid, its supply still wrong |
| ChainWitness.ShorterButHeavier | src/main.cpp:2527-2530 | a run in which one block with more trust than the two of the main chain together becomes the best block |
| Checkpoints.TraceBack | src/checkpoints.cpp:134-174 | following pprev down to a height finds the one ancestor there |
| Checkpoints.Node.ValidateSyncCheckpoint | src/checkpoints.cpp:134-174 | validates exactly the strict descendants of the current checkpoint; records as invalid exactly the blocks on another branch |
| Checkpoints.Node.CheckSync | src/checkpoints.cpp:261-297 | the check with its main-chain short cut equals the full ancestor check |
| Checkpoints.SyncOkExactly | src/checkpoints.cpp:261-297 | a new block passes the check if and only if its parent is the checkpoint or descends from it |
| Checkpoints.Node.Adopt | src/checkpoints.cpp:205-238 | adopting a descendant is a step of the protocol; on failure nothing moves and the block is marked invalid |
| Checkpoints.Node.AcceptPendingSyncCheckpoint | src/checkpoints.cpp:199-244 | retrying the pending checkpoint is a step of the protocol: while its block is unknown nothing changes; once known it is taken if and only if it strictly descends from the checkpoint and is on the main chain or can be switched to; else it is dropped if it does not descend, and kept if the switch failed |
| Checkpoints.Node.ProcessSyncCheckpoint | src/checkpoints.cpp:450-505 | a checkpoint message is a step of the protocol; an unknown block is left pending and nothing else changes; succeeds exactly for a strict descendant the chain can be moved to, which is then the checkpoint, on the main chain, with nothing pending; on failure checkpoint and chain stay |
| Checkpoints.Node.AcceptBlock | src/main.cpp:2654-2750 | in every state, a block that is not admitted changes nothing; accepting one is at most two steps of the protocol, every block accepted descends from the checkpoint, the node ends where the function of the event says, a pending checkpoint included, and from a valid chain in sync the chain is valid unless it got out of sync halfway and was switched again |
| Checkpoints.MessageThenBlock | src/checkpoints.cpp:199-244 | a message for an unknown block followed by that block, admitted and indexed, and on the main chain or able to be switched to, ends with it as the checkpoint and nothing pending |
| Checkpoints.AcceptedDescends | src/checkpoints.cpp:261-297 | a new block that passes the check descends from the checkpoint |
| Checkpoints.StepSafe | src/checkpoints.cpp:199-244 | every step keeps the checkpoint on the main chain and moves it only to a strict descendant |
| Checkpoints.RunSafe | src/checkpoints.cpp:199-297 | over every run, every checkpoint is on the main chain and an ancestor of every later one |
| Checkpoints.EventLevel | src/main.cpp:2654-2750 | from a node in sync, an event keeps it in sync, halfway too, if and only if every switch it causes connects its postponed blocks |
| Checkpoints.RunLevel | src/main.cpp:2654-2750 | the same for every run |
| Checkpoints.TrustIsSum | src/main.cpp:2493-2493 | the trust of a block is that of genesis and the sum of what its ancestors and itself were given |
| Checkpoints.TraceWeighed | src/main.cpp:2473-2544 | over every run the index grows by exactly the blocks admitted, each with its parent's trust and the trust it brought; earlier entries never change |
| Checkpoints.RunHeaviest | src/main.cpp:2527-2530 | fed blocks only, a node that starts on the heaviest chain is on it all along if and only if no switch is refused |
| Checkpoints.Drive | src/checkpoints.cpp:199-297 | fed any sequence of blocks and checkpoint messages, with the rules of each, the code goes through a run of the protocol; from genesis every block's trust is the genesis trust and the sum of its branch, and with blocks only and no switch refused the best chain has the largest sum; from a consistent node in sync it stays in sync if and only if all switches reconnect, and then ends consistent with the unspent value equal to the supply of the best block |
| AddrMan.AddrMan.Create | src/addrman.cpp:94-104 | a new id, filed in mapInfo, mapAddr and at the end of vRandom |
| AddrMan.AddrMan.SwapRandom | src/addrman.cpp:106-124 | exchanges two places of vRandom and keeps nRandomPos the inverse of vRandom |
| AddrMan.AddrMan.SelectTried | src/addrman.cpp:126-148 | the bucket is shuffled by the draws; the returned position is where the least recently successful of the entries inspected stood when drawn, and still holds it if and only if it was drawn at its own slot |
| AddrMan.DrawnFrom | src/addrman.cpp:133-144 | an entry, once drawn, stays at its slot through later draws |
| AddrMan.RecordedPlace | src/addrman.cpp:133-144 | the place recorded for an entry is where it stood when drawn, and holds it afterwards if and only if it was drawn at its own slot |
| AddrMan.YoungerIsEvicted | src/addrman.cpp:133-144 | concrete bucket: the older of two entries is drawn from the second place, and the place recorded is that of the younger |
| AddrMan.TerribleLaws | src/addrman.cpp:38-57 | an address tried within a minute is spared; else exactly those are terrible that are from the future, unseen for 30 days, failed 3 times without success, or failed 10 times since a success over a week ago |
| AddrMan.FindTerrible | src/addrman.cpp:155-173 | finds a terrible entry of a bucket exactly when there is one |
| AddrMan.PickOldest | src/addrman.cpp:175-190 | the entry with the oldest time among those drawn |
| AddrMan.AddrMan.DropFromBucket | src/addrman.cpp:160-171 | an id leaves one bucket and is forgotten exactly when that was its last |
| AddrMan.AddrMan.Forget | src/addrman.cpp:162-169 | forgetting an untried id keeps all indexes consistent and every other record |
| AddrMan.AddrMan.ShrinkNew | src/addrman.cpp:150-202 | throws out one entry: a terrible one if there is one, else the oldest of at most four inspected; everything else stays |
| AddrMan.AddrMan.LeaveNew | src/addrman.cpp:208-214 | an id leaves every new bucket and its reference count reaches 0 |
| AddrMan.AddrMan.MakeTried | src/addrman.cpp:204-260 | moves the id to its tried bucket; from a full one an entry goes back to its own new bucket if that has room, else to the one the id came from |
| AddrMan.AddrMan.TradePlaces | src/addrman.cpp:231-259 | the exchange with an entry of a full tried bucket keeps all indexes consistent |
| AddrMan.FindBucket | src/addrman.cpp:287-299 | finds a new bucket holding the id exactly when there is one |
| AddrMan.UntriedIsHeld | src/addrman.cpp:301-303 | an untried address is always in some new bucket: the bail-out is unreachable |
| AddrMan.AddrMan.Good | src/addrman.cpp:262-309 | the named address ends up tried in its bucket with its statistics reset; at most one other record changes, an entry of the full bucket that goes back to being untried; the state stays consistent if and only if the time is positive or nothing is recorded |
| AddrMan.AddrMan.EnterBucket | src/addrman.cpp:355-364 | an id enters a bucket, at most one other address is lost for it, all indexes stay consistent |
| AddrMan.AddrMan.Refresh | src/addrman.cpp:322-349 | updates time and services of a known address only; asks for another bucket if and only if it is untried, below the limit, the news is later and the roll is 0 among 2 to the number of its buckets |
| AddrMan.RefreshedIs | src/addrman.cpp:322-331 | services only grow, by those heard; the time heard, less the penalty, is taken over exactly when there was none or one older by the penalty and an hour, or a day for old news |
| AddrMan.AddrMan.Add | src/addrman.cpp:311-366 | true exactly for a routable unknown address, which is then recorded in its bucket; a known one is brought up to date and enters the bucket exactly when wanted there; at most one other address is lost |
| AddrMan.AddrMan.Attempt | src/addrman.cpp:368-385 | records the attempt for exactly the named service; the state stays consistent if and only if the time is not negative or nothing is recorded |
| AddrMan.AddrMan.GetAddr | src/addrman.cpp:491-505 | the promised number of distinct known addresses; only places in vRandom change |
| AddrMan.AddrMan.Connected | src/addrman.cpp:507-525 | updates the time of exactly the named service, when older than 20 minutes |
| AddrManCheck.CheckRecords | src/addrman.cpp:439-458 | no error exactly when every record is well placed |
| AddrManCheck.CheckTried | src/addrman.cpp:463-471 | no error and nothing left exactly when the tried buckets hold every tried id once |
| AddrManCheck.CheckBucket | src/addrman.cpp:475-481 | counts a bucket's ids down, with an error exactly at an id that has no count left |
| AddrManCheck.CheckNew | src/addrman.cpp:473-485 | no error and nothing left exactly when every reference count is the number of buckets holding the id |
| AddrManCheck.Check | src/addrman.cpp:432-488 | returns 0 exactly on tables that satisfy the stated invariant |
| AddrManCheck.ConsistentPasses | src/addrman.cpp:432-488 | every state the operations can reach passes the check |
| AddrManDisk.SaveNew | src/addrman.h:283-295 | the untried records are written once each and numbered in order |
| AddrManDisk.SaveTried | src/addrman.h:296-306 | the tried records are written once each |
| AddrManDisk.SaveBuckets | src/addrman.h:307-317 | the new buckets are written as the numbers of their records |
| AddrManDisk.Save | src/addrman.h:279-317 | the file describes the state up to the numbering |
| AddrManDisk.LoadNew | src/addrman.h:327-339 | rebuilds the untried records and their indexes |
| AddrManDisk.LoadTried | src/addrman.h:340-360 | rebuilds the tried records; none is lost |
| AddrManDisk.LoadBuckets | src/addrman.h:361-376 | rebuilds the new buckets and the reference counts |
| AddrManDisk.Load | src/addrman.h:318-376 | a well-formed file gives a consistent state with the tables it describes |
| AddrManDisk.DescribedIsWellFormed | src/addrman.h:248-380 | what a consistent state is saved as is well formed: no bucket overflows |
| AddrManDisk.RoundTrip | src/addrman.h:248-380 | the tables rebuilt from a description are isomorphic to those described |
| AddrManDisk.SaveThenLoad | src/addrman.h:248-380 | saving and loading gives a consistent isomorphic state with the same counts |
| CheckQueue.CheckQueue.TakeLock | src/checkqueue.h:73-117 | entering, or returning with a finished batch, is one step of the protocol; a sleeping master is signalled when a worker accounts for the last check; the master leaves with the conjunction of all checks added |
| CheckQueue.CheckQueue.WakeUp | src/checkqueue.h:86-117 | going on after a wait, signalled or not, is one step of the protocol; the last thread to leave signals the quitter |
| CheckQueue.CheckQueue.Add | src/checkqueue.h:142-153 | a step of the protocol that adds the checks, signalling one worker for one check and every sleeping worker for several |
| CheckQueue.CheckQueue.Quit | src/checkqueue.h:156-161 | a step of the protocol after which every sleeping worker is signalled |
| CheckQueue.StepSettles | src/checkqueue.h:73-117 | in every reachable state a thread in the loop can take its step, and what it then does follows from the fields it finds |
| CheckQueue.Execute | src/checkqueue.h:118-122 | the batch's result is the conjunction of its checks and the verdict so far |
| CheckShared.BatchSize | src/checkqueue.h:102-107 | a batch takes at least one check and no more than there are |
| CheckShared.BatchIsShare | src/checkqueue.h:102-107 | a batch of more than one is within the limit and an even share among the threads and one more, and the largest such |
| CheckProtocol.StepInv | src/checkqueue.h:65-165 | every step of every thread keeps nTodo equal to queued plus in flight, the counters right and the verdict exact |
| CheckProtocol.RunInv | src/checkqueue.h:65-165 | the invariant holds in every state of every run |
| CheckProtocol.VerdictIsExact | src/checkqueue.h:136-139 | in every run the master returns true exactly when every check added since its last return is true |
| CheckProtocol.QuiescentAsserts | src/checkqueue.h:179-186 | the three assertions of the control object hold whenever the master is outside and nothing is pending |
| CheckProtocol.SleepingMasterHasWorker | src/checkqueue.h:78-101 | an unsignalled sleeping master implies a worker holding work |
| CheckProtocol.MasterNeverStuck | src/checkqueue.h:65-124 | while the master waits some thread can go on |
| CheckProtocol.RankDecreases | src/checkqueue.h:65-124 | every productive step of a wait uses up a bound |
| CheckProtocol.RankStep | src/checkqueue.h:65-165 | spurious wake-ups, arriving threads and quit signals raise it by no more than their own cost |
| CheckProtocol.WaitEnds | src/checkqueue.h:136-139 | every wait, whatever steps come in between, has no more productive steps than the bound and those costs allow, and cannot run out of them before the master has left |
| Scheduler.Scheduler.OnHeaders | src/main.cpp:4329-4396 | tracks exactly the connecting headers the node does not hold, queued once, each with a height of one more than its parent; other heights stay; too many headers are refused and nothing changes |
| Scheduler.ConnectedExactly | src/main.cpp:4363-4379 | the headers that connect are exactly those that lead to an indexed block through earlier ones, at the height above it that their number gives |
| Scheduler.Scheduler.OnBlock | src/main.cpp:4463-4492 | an accepted block leaves the books; a rejected tracked one goes to the head of the queue |
| Scheduler.Scheduler.RequeueOverdue | src/main.cpp:5138-5158 | exactly the overdue requests move to the head of the queue |
| Scheduler.NotLate | src/main.cpp:5147-5151 | a request is never overdue within 30 seconds, always after 60, and in between exactly when its peer delivered nothing for 10 |
| Scheduler.CountOwned | src/main.cpp:5159-5164 | the number of requests a peer owns |
| Scheduler.Scheduler.Assign | src/main.cpp:5165-5191 | takes a prefix of the queue, each hash requested, in flight or held, until the window is full, the queue empty or its front too far ahead |
| Scheduler.FindWedge | src/main.cpp:5198-5222 | the lowest block stuck on another peer |
| Scheduler.Scheduler.BreakStall | src/main.cpp:5192-5231 | with room in the window and a request stuck on another peer, reassigns the lowest such block exactly when it is within reach and not held |
| Scheduler.Scheduler.SendMessages | src/main.cpp:5138-5232 | overdue requests return to the head of the queue; a prefix of the queue leaves it, each hash requested, in flight or held, until the window is full, the queue empty or its front beyond the download window; then, with room left, the lowest block stuck on another peer is requested exactly when in reach and not held; nothing else is requested; every tracked hash stays queued or in flight, every peer within 128, and only held blocks leave tracking |
| Scheduler.Handle | src/main.cpp:4329-5232 | over every event sequence a hash leaves tracking only when a later event accepted it or found it held |
| Merkle.LevelAt | src/main.h:1034-1044 | a parent hashes a node with its sibling on the side of the low bit, the last of an odd level with itself |
| Merkle.BranchLeadsToRoot | src/main.h:1048-1077 | for every list and leaf, hashing the leaf up its branch gives the root |
| Merkle.BranchBinds | src/main.h:1064-1077 | with a collision-free hash only the leaf and its own branch lead to the root |
| Merkle.BuildMerkleTree | src/main.h:1029-1046 | the flat tree is all levels in order and the result is the root |
| Merkle.GetMerkleBranch | src/main.h:1048-1062 | reading the flat tree gives the branch of the leaf |
| Merkle.CheckMerkleBranch | src/main.h:1064-1077 | the loop folds the branch onto the hash; index -1 gives 0 |
| MedianTime.GetMedianTimePast | src/main.h:1323-1335 | the middle of the sorted last eleven times |
| MedianTime.MedianRank | src/main.h:1333-1334 | the median is at least m exactly when at most half of the times are less than m |
| MedianTime.PastRank | src/main.h:1323-1335 | the median time past is at least m exactly when at most half of the last eleven times, or of all if fewer, are less than m |
| MedianTime.MedianStep | src/main.cpp:2686-2688 | a block later than the median does not lower it, in short windows and full ones |
| MedianTime.MedianNeverDecreases | src/main.cpp:2686-2688 | along every accepted chain the median time past never decreases |
| StakeModifier.GetLastStakeModifier | src/kernel.cpp:57-68 | finds the last ancestor that generated a modifier, failing exactly when none did |
| StakeModifier.SelectBlockFromCandidates | src/kernel.cpp:99-139 | fails exactly when every candidate is taken; else the pick is preferred to every candidate that may be picked: by hash among proof-of-work blocks, by the hash of the proof over 2^32 among proof-of-stake blocks, and across kinds by comparing the two, the earlier on a tie |
| StakeModifier.EligibleIs | src/kernel.cpp:109-113 | the candidates that may be picked are the unpicked ones up to the stop time and the first unpicked one |
| StakeModifier.PickIsPreferred | src/kernel.cpp:114-136 | being the pick is the same as being eligible and preferred to all eligible candidates, in terms of hashes and kinds |
| StakeModifier.StakePreferred | src/kernel.cpp:120-124 | with 256-bit hashes, no proof-of-work block with a selection hash of 2^224 or more is picked while a proof-of-stake block may be |
| StakeModifier.SectionIs | src/kernel.cpp:71-75 | section n is the fraction 63 / (189 - 2n) of the interval, rounded down |
| StakeModifier.StartIs | src/kernel.cpp:176-179 | the sections together end at the start of the interval the time is in |
| StakeModifier.SortedByTime | src/kernel.cpp:181-190 | the candidates are put in order of time, those of one time in order of hash, none lost |
| StakeModifier.Candidates | src/kernel.cpp:181-188 | the unbroken run of recent ancestors ending at the previous block |
| StakeModifier.SelectRounds | src/kernel.cpp:191-209 | min(64, n) picks, never failing; bit k is the k-th pick's entropy bit |
| StakeModifier.PicksDistinct | src/kernel.cpp:99-139 | the picked blocks are pairwise distinct |
| StakeModifier.ComputeNextStakeModifier | src/kernel.cpp:154-236 | genesis gets 0; otherwise fails exactly without any earlier modifier, keeps the modifier within its interval, and else makes a new one of picked bits |
| StakeModifier.NextKept | src/kernel.cpp:173-174 | the modifier is kept exactly within the interval of the block that generated it; a new one has at most as many bits as there are picks |
| StakeModifier.NextUnique | src/kernel.cpp:154-236 | a chain has one next modifier: the picks and their bits are determined |
| StakeModifier.DependsOnlyOnAncestors | src/kernel.cpp:154-236 | two nodes with the same ancestors of a block get the same modifier, whatever else they have indexed |
| Bytes.MpiRoundTrip | src/bignum.h:382-407 | reading the signed byte format back gives the number, of either sign |
| Bytes.MpiLength | src/bignum.h:393-407 | the format of a non-negative number has the least length with a clear top bit |
| Compact.CompactIs | src/bignum.h:421-432 | the compact form is the length and the first three bytes side by side |
| Compact.SetCompactIs | src/bignum.h:409-419 | decoding spreads the three bytes over the length |
| Compact.DecodeTruncates | src/bignum.h:409-432 | decode after encode drops exactly the bytes below the first three, if and only if the length is at most 255 |
| Compact.DecodeBounded | src/bignum.h:409-432 | decoding never gives more than was encoded, for every number |
| Compact.ReencodeIdempotent | src/bignum.h:409-432 | encoding the decoded number again changes nothing if and only if its leading bytes fit the stored length |
| Compact.FitsWhenShort | src/bignum.h:409-432 | that holds for every length up to 255 |
| Compact.OrderPreserved | src/bignum.h:421-432 | up to n larger numbers have larger compact forms, if and only if the length of n fits its byte |
| Compact.LengthWraps | src/bignum.h:421-432 | concrete number of length 256: it decodes to 0 and encodes below 1 |
| Retarget.GetLastBlockIndex | src/main.cpp:1461-1466 | the last block of the kind, or genesis |
| Retarget.GetNextTargetRequiredV2 | src/main.cpp:1523-1556 | the scaled target of the last block of the kind, capped at the limit |
| Retarget.NextFromLastTwo | src/main.cpp:1533-1556 | with two blocks of the kind after genesis the bits are those of target * ((timespan / spacing - 1) * spacing + 2 * actual) / ((timespan / spacing + 1) * spacing), capped; the spacing of proof of work grows with the gap up to 12 |
| Retarget.NextAtStart | src/main.cpp:1526-1535 | with fewer such blocks the limit is required |
| Retarget.ScaledDirection | src/main.cpp:1546-1550 | the target stands at the aimed spacing, rises when blocks came later, falls when earlier |
| Retarget.NextInRange | src/main.cpp:1523-1556 | after targets in [0, limit] the next decoded target is in [0, limit] |
| Retarget.TargetsStayInRange | src/main.cpp:1523-1556 | along every chain of version 2 blocks all targets stay in [0, limit] |
| Headers.TrustPositive | src/main.cpp:2782-2800 | a block with a target in range adds trust if and only if the target is positive |
| Headers.TrustMonotone | src/main.cpp:2782-2800 | a smaller target never adds less trust |
| Headers.TrustIs | src/main.cpp:2782-2800 | the trust is how often target + 1 goes into 2^256 for proof of stake, into the limit but at least 1 for proof of work |
| Headers.LimitTrust | src/main.cpp:2795-2799 | a proof-of-work block at the limit adds 1 |
| Headers.RegularOk | src/main.cpp:2682-2687 | proof-of-work blocks at the limit and at the spacing aimed at keep passing the tests of bits and time |
| Reward.BisectThreshold | src/main.cpp:1341-1353 | the bisection ends within a CENT of where the curve is crossed, or at an end of the range |
| Reward.BisectMonotone | src/main.cpp:1341-1353 | a larger target never gives a smaller result |
| Reward.RateRange | src/main.cpp:1355-1356 | the rates are whole CENTs in [10, 100] and [20, 100] CENT, no more than the bisection gives and less than a CENT below it |
| Reward.RateV2Crosses | src/main.cpp:1341-1356 | a CENT or more below the version 2 rate x^4 * limit is at most 100^4 * target, a CENT or more above it is more, in products of CENTs |
| Reward.RateV3Crosses | src/main.cpp:1388-1408 | the same for version 3 with the sixth power |
| Reward.RateMonotone | src/main.cpp:1323-1420 | both rates are monotone in the decoded target |
| Reward.GetProofOfStakeRewardV2 | src/main.cpp:1323-1368 | the loop computes the fourth-power rate, and the reward is the capped 64-bit product with the coin age |
| Reward.GetProofOfStakeRewardV3 | src/main.cpp:1370-1420 | the loop computes the sixth-power rate, and the reward is the capped 64-bit product with the coin age |
| Reward.SubsidyExact | src/main.cpp:1361-1365 | the reward is that of unbounded arithmetic if and only if the product fits in 64 bits or wraps above the cap |
| Reward.EarnedIs | src/main.cpp:1361-1365 | in unbounded arithmetic a coin age of 365 8/33 days earns the rate, rounded down, up to exactly 250 coins |
| Reward.OverflowPaysNegative | src/main.cpp:1361-1365 | concrete coin age: the product wraps and the reward is negative |
| Reward.RewardMonotone | src/main.cpp:1323-1420 | while the product fits, both rewards are between 0 and the cap and grow with coin age and target |
| Framing.ParseFlatten | src/net.cpp:662-691 | parsing finds whole messages again and parses what follows on its own |
| Framing.FlattenParse | src/net.cpp:662-691 | parsing loses nothing up to the point of rejection |
| Framing.ParseExtends | src/net.cpp:662-691 | more bytes keep the messages found so far, and a rejected stream stays rejected where it was |
| Framing.SizeField | src/net.cpp:709-716 | a header of marker, command, the four bytes of n, least significant first, and checksum announces n bytes |
| Framing.NetMessage.ReadHeader | src/net.cpp:693-721 | takes in header bytes, at least one; refuses exactly a header announcing more than MAX_SIZE |
| Framing.NetMessage.ReadData | src/net.cpp:723-738 | takes in data bytes, at least one; the buffer never exceeds the announced size |
| Framing.NetMessage.ViewIsParse | src/net.h:193-206 | the message is what its bytes parse to; a complete one holds exactly nMessageSize bytes |
| Framing.Receiver.Absorb | src/net.cpp:664-687 | one turn of the loop makes progress or refuses, and keeps the receiver equal to the parse of the stream |
| Framing.Receiver.ReceiveMsgBytes | src/net.cpp:662-691 | after any chunk the receiver holds what the whole stream parses to; false exactly when bytes arrive on a rejected stream |
| Framing.Receiver.Take | src/main.cpp:4837-4940 | removing a processed message keeps that correspondence |
| Base58.DecodedEncoded | src/base58.h:29-121 | decoding the encoding of any byte string gives it back, leading zeros included |
| Base58.EncodedDecoded | src/base58.h:29-121 | encoding what any text over the alphabet decodes to gives the text back |
| Base58.DecodeExactly | src/base58.h:77-121 | a string decodes to b exactly when it is the encoding of b with white space around it |
| Base58.SignTrimmed | src/base58.h:105-110 | the number's byte format with its sign byte trimmed is its bare digits |
| Base58.PlaceIs | src/base58.h:26-26 | the place of a letter is where the alphabet has it; other characters have none |
| Base58.EncodeBase58 | src/base58.h:29-67 | the division loop, zero letters and reversal give the encoding |
| Base58.DecodeBase58 | src/base58.h:77-121 | the multiplication loop, space handling and layout give the decoding, or fail exactly when there is none |

## Left out

Deliberate limits of members named above:

- Checkpoints.Node.AcceptBlock: the mode that enforces checkpoints; the advisory mode only warns.
- AddrManDisk.Load: reads well-formed files with the compiled-in bucket count; the branch that redistributes buckets after that count changed, and files that no node has written, are not modelled.
- AddrManDisk.LoadNew: as above.
- AddrManDisk.LoadTried: as above; the tried entries of such a file fit their buckets, so the branch that drops one is not modelled.
- AddrManDisk.LoadBuckets: as above.
- Reward.GetProofOfStakeRewardV3: the comment in the source says fifth power, the code uses the sixth, and the model follows the code.
- Retarget.GetNextTargetRequiredV2: the spacing and the timespan are parameters, because the spacing depends on a global height and the timespan constant is a floating-point product that truncates to 13823 or 13824 depending on the arithmetic; the claims hold for both.
- StakeModifier.SelectBlockFromCandidates: candidates are index entries rather than (time, hash) pairs looked up by hash, so the look-up that cannot miss is not a branch.
- Merkle.BranchBinds: assumes a hash without collisions; `BranchLeadsToRoot` assumes nothing.
- Framing.Receiver.Take: stands for the removal of one processed message; processing itself is not modelled.
- AddrMan.AddrMan.Add: the number GetRandInt draws for a known address is an input, reduced to the range asked for.
- Scheduler.Scheduler.OnBlock: whether the block was accepted is an input.

What the model abstracts:

- 64-bit amounts, sums and trust are unbounded integers, except the product of the stake reward, where signed overflow, undefined in C++, is taken to wrap around.
- Hashes are opaque numbers; scripts, signatures, proof of work, signature-operation counts, the Merkle root of a block and the schedules of fees, of coinbase limits and, in ConnectInputs, of stake rewards are an oracle (`Validation.Rules`), and so are the tests of AcceptBlock that do not concern checkpoints (`checksOk`), of which `Headers` models those of bits and time.
- The genesis block's own bits and trust are those of a block at the limit.
- Validity of the chain: a switch whose postponed block fails leaves the chain out of sync, and the next switch from there can leave it invalid; only what `Sound` says holds in every state.
- Script checks run inline in the model of ConnectInputs; that the parallel queue gives the same verdict is proved separately in `CheckProtocol`.
- Disk reads succeed, a disk position is a (block, slot) pair, and a failed database commit is not modelled.
- Maps and sets are walked in an arbitrary order, which covers the order the containers have.
- Random draws are arbitrary values in range; clocks are parameters.
- Check_ reads missing keys with `operator[]`, which inserts a zero; the model reads that as the value 0.
- CheckQueue.CheckQueue.Quit: the raising of the flag and the waking of the workers, not the wait for them to leave.
- A C string is its characters before the terminating NUL.

Parts of the repository that are not part of this model:

- RPC, HTTP, JSON, init, IRC, UPnP, DNS, SOCKS and the socket loops: input and output.
- Berkeley DB and LevelDB access, block files, snapshots.
- ECDSA, AES, scrypt, SHA and the big-number library's own arithmetic.
- Script evaluation, the wallet, coin selection, the memory pool and its validation path.
- GetNextTargetRequiredV1: a negative spacing is not clamped there, so its range claims do not hold.
- Select_ and GetChance of the address manager, and miner priorities: floating point.
- ResetSyncCheckpoint, AutoSelectSyncCheckpoint and the signing of checkpoints.
- setStakeSeenOrphan and setStakeSeen: duplicate stakes are sometimes allowed, so no exact set is promised.
- GetKernelStakeModifier, GetWeight and the kernel hash check.
- Alerts, mruset, keystore flags, page locking, PBKDF2 and coin control: easy members.
