# A verified model of a DPoS blockchain node

The node keeps its state in object tables with an undo log, its recent blocks in a tree, and
its final blocks in an append-only log. Builders take turns by a schedule that follows from
votes; contracts describe their data by an ABI; transactions are authorised by weighted keys.
This project models those parts and proves what each of them promises, for every input and
every run.

`dafny verify dfyconfig.toml` checks everything. Each source component has its modules:

| component | modules |
|---|---|
| undo log of a table | `UndoLog` (operations as functions), `SnapshotStack` (what the log means), `GenericIndex` (the table, updated in place) |
| database of tables | `Database` (all tables in step) |
| transactions and blocks | `Replay` (meaning of blocks without any log), `BlockSession` (the open block over the database) |
| the node: storing, confirming, committing, switching | `ChainHistory` (what a node in order is), `ChainSwitch`, `ChainAdd`, `ChainState` (the node itself, over database and fork database), `ChainSeal` (final branches away from the head) |
| fork database | `BlockId`, `ForkTree`, `ForkBranch`, `ForkConfirm`, `ForkMarks`, `ForkLog`, `ForkReport`, `ForkDb`, `ForkCases` |
| irreversibility window and schedule | `DposWindow`, `Schedule`, `BlockPack` |
| votes and tokens | `Sums`, `Totals`, `Voting`, `VotingHandlers`, `Ledger`, `NativeContract`, `Erc20`, `Erc20Contract` |
| ABI serializer | `Chains`, `AbiTypes`, `AbiAccept`, `AbiCodec`, `AbiRoundTrip`, `AbiMisread`, `AbiFormat`, `AbiStream` |
| authority checker | `Authority`, `AuthExact`, `AuthKeys`, `AuthChecker` |
| block log | `LogFormat`, `BlockLog`, `IrreversibleLog` |
| smaller pieces | `GasQueue`, `Asset`, `Price` |

The pattern is the same throughout. Code that updates things in place is a class or a method
with loops, proved against a function; the function is proved against a reference that knows
nothing of the code: a stack of full copies for the undo log, a replay without any log for the
chain, paths in a tree for the fork database, runs of builders among all ancestors for the
window, sums over all accounts for votes and tokens, derivations of any depth for authorities,
a list of blocks for the log.

A node in order (`ChainHistory.Healthy`) is one in which exactly the head and its ancestors are
flagged as main chain, each copy of the database is the content between two successive blocks of
that chain, the revision is the head's number, and marks and log fit the stored blocks. Every
operation of `ChainState.Chain` says exactly when it leads from such a node to such a node, and a
fork switch never pops a block that can no longer be undone.

Assumptions: header summaries do not collide; packing and unpacking of built-in types and of
blocks are inverse to each other; no struct repeats a field name of its bases; the index by
votes orders by descending votes; fields of a new row that are not set are zero or empty;
arithmetic checked by SafeMath is exact; an exception undoes the session of its transaction.

What the proofs brought to light:

- If a block of another branch becomes final before that branch has been switched to, pruning
  removes the common ancestor, and with it the node's own head unless that lies higher. No later
  look for a better branch leads to the final one, whatever is stored, marked, pruned or built
  meanwhile (`FinalSeals`, `LookKeepsSealed`, `PushForkKeepsSealed`, `ExtendKeepsSealed`);
  `PushFork` says exactly when the head is lost.
- A confirmation on another branch tears the next block built on the head: the block is stored
  and its report made, then `block_head` is set to a block that was never applied, and only then
  an assertion fails. `TornAfterConfirmation` gives the case, `ConfirmBlock` all cases.
- A block added below a confirmed block inherits that block's mark and is listed with its path;
  after confirmations on two branches the common ancestors carry only the later mark and are missing
  in the list of the earlier one. The log then refuses a part of the list, nothing is removed
  (`AddedBelowIsRefused`, `MarkedTwiceIsRefused`), and growing the same confirmation again is refused
  again (`RefusedAgain`). What is taken completely is always the right path (`CompleteIsPath`).
- Before the refusal the log may have taken a block that nobody confirmed. A node that builds on the
  predecessor of a confirmed block of another branch finds its own block in the log, in place of the
  confirmed one of the same number, since the main chain comes first in the scan (`StrayInTheLog`;
  `AddedBelowEnters` and `EntersExactly` say when).
- A read of block number zero, or from an empty log, fails and leaves the file stream unusable
  for every later read and append. With one entry, `read_indices` returns nothing and
  `last_block_num` zero (`ReadByNum`, `ReadIndices`, `LastBlockNum`).
- Whether an authority is accepted can depend on what else is declared: one that is refused
  alone passes together with one it relies on (`CompanyMatters`); `AcceptsExactly` says when.
  A threshold above the signed integers is met without any key (`HugeThreshold`).
- A typedef that turns a struct into an array of itself is accepted, and then the question
  whether it is a type has no answer (`NeverAnswered`).
- An ERC20 balance can never be emptied by transfers, since the balance must exceed the value
  sent; the total a token is created with may be negative (`Erc20.EveryRun`,
  `CreatedNonNegative`).
- Of negative amounts only whole units survive printing and parsing, and no asset without
  decimals does (`NegativeComesBack`, `NoDecimalsLost`), although nothing in the code excludes
  them.
- Converting at a positive price and back can gain, since the converted amount is cut down to 64
  bits without a check: two units come back as four (`Gains`).
- Rows of `resource_token` are created nowhere among the native handlers, so `lock` fails in a
  state that never had any. The theorems about locking hold for every set of such rows.

## Model

| member | source | states |
|---|---|---|
| `SnapshotStack.StepRefines` | foundation/basechain/include/basechain.hpp:206-526 | every table operation keeps the log consistent and does to the stack of full copies exactly what that operation does on a plain stack of copies |
| `SnapshotStack.RunRefines` | foundation/basechain/include/basechain.hpp:206-526 | the same over every run of operations: the log is the stack of copies in every reachable state |
| `SnapshotStack.SessionRestores` | foundation/basechain/include/basechain.hpp:294-338 | whatever runs inside a session, commits of older sessions included: once its own session is the newest again, undoing it gives back the objects and the next id it began with, and of the older copies all that were not committed |
| `SnapshotStack.RunKeepsCopy` | foundation/basechain/include/basechain.hpp:294-466 | as long as a session stays open and uncommitted, no run of operations changes its copy or reorders those below it; a commit may drop some of them |
| `SnapshotStack.RefinesObjectOp` | foundation/basechain/include/basechain.hpp:484-526 | create, modify and remove change the table and no copy that any open session leads back to |
| `SnapshotStack.RefinesStart` | foundation/basechain/include/basechain.hpp:294-303 | starting a session saves a copy of the present table |
| `SnapshotStack.RefinesUndo` | foundation/basechain/include/basechain.hpp:313-338 | undo restores the newest copy: objects, next id and revision |
| `SnapshotStack.RefinesUndoAll` | foundation/basechain/include/basechain.hpp:462-466 | undo of all sessions restores the oldest copy |
| `SnapshotStack.RefinesCommit` | foundation/basechain/include/basechain.hpp:451-457 | commit forgets exactly the copies numbered at or below the revision and changes none of the others |
| `SnapshotStack.ForgetsExactly` | foundation/basechain/include/basechain.hpp:451-457 | a copy is there after a commit exactly if it was there before and is numbered above the revision, with its number and content |
| `UndoLog.CommitDrops` | foundation/basechain/include/basechain.hpp:451-457 | states go from the front while their revision is not above the given one, and no further |
| `SnapshotStack.DropOldest` | foundation/basechain/include/basechain.hpp:451-457 | dropping the oldest undo state changes nothing that later undos restore |
| `SnapshotStack.RefinesSquash` | foundation/basechain/include/basechain.hpp:346-446 | squash joins the two newest sessions; with a single session the copy goes and the revision stays |
| `SnapshotStack.MergeIsMatrix` | foundation/basechain/include/basechain.hpp:354-377 | the combinations marked impossible do not occur, and the merge gives for each object the entry of the table of combinations |
| `SnapshotStack.MergeComposes` | foundation/basechain/include/basechain.hpp:346-446 | undoing the merged state is undoing the newer state and then the older one, for every object and the next id |
| `SnapshotStack.BeforeAt` | foundation/basechain/include/basechain.hpp:313-338 | what an undo state leads back to, object by object |
| `GenericIndex.Index.Emplace` | foundation/basechain/include/basechain.hpp:206-223 | the new object gets the next id, every other object and every copy stays |
| `GenericIndex.Index.Modify` | foundation/basechain/include/basechain.hpp:225-230 | one value changes; every other object and every copy stays |
| `GenericIndex.Index.Remove` | foundation/basechain/include/basechain.hpp:232-235 | one object goes; every other object and every copy stays |
| `GenericIndex.Index.RemoveObject` | foundation/basechain/include/basechain.hpp:474-479 | removal by id fails exactly on an unknown id |
| `GenericIndex.Index.StartUndoSession` | foundation/basechain/include/basechain.hpp:294-303 | a copy is saved under the next revision, or nothing happens if sessions are not wanted |
| `GenericIndex.Index.Undo` | foundation/basechain/include/basechain.hpp:313-338 | the three loops restore the newest copy; every object looked up is found and every id put back is free |
| `GenericIndex.Index.Squash` | foundation/basechain/include/basechain.hpp:346-446 | the loops over the newer state compute the merge; the table does not change |
| `GenericIndex.Index.Commit` | foundation/basechain/include/basechain.hpp:451-457 | the loop drops states from the front exactly while their revision is not above the given one; the table stays |
| `GenericIndex.Index.UndoAll` | foundation/basechain/include/basechain.hpp:462-466 | the loop undoes every session |
| `GenericIndex.Index.SetRevision` | foundation/basechain/include/basechain.hpp:468-472 | the revision can be set only without open sessions |
| `GenericIndex.PutBack` | foundation/basechain/include/basechain.hpp:318-323 | old values are put back over objects that are there |
| `GenericIndex.Erase` | foundation/basechain/include/basechain.hpp:325-328 | created objects are erased |
| `GenericIndex.Reinsert` | foundation/basechain/include/basechain.hpp:331-334 | removed objects come back under free ids |
| `GenericIndex.MergeInto` | foundation/basechain/include/basechain.hpp:399-442 | the three loops of squash give the merged state |
| `GenericIndex.MergeUpdated` | foundation/basechain/include/basechain.hpp:399-414 | updates of the newer session are folded in; the impossible case is not met |
| `GenericIndex.MergeRemoved` | foundation/basechain/include/basechain.hpp:421-442 | removals of the newer session are folded in |
| `Database.Db.StartUndoSession` | foundation/basechain/basechain.cpp:185-197 | one copy of the whole database is saved; all tables keep the same number of sessions and the same revision |
| `Database.Db.Undo` | foundation/basechain/basechain.cpp:153-159 | all tables go back to the newest copy together; all tables keep the same number of sessions and the same revision |
| `Database.Db.Squash` | foundation/basechain/basechain.cpp:161-167 | the newest session of every table is joined to the one below; all tables keep the same number of sessions and the same revision |
| `Database.Db.Commit` | foundation/basechain/basechain.cpp:169-175 | the same copies are forgotten in every table; all tables keep the same number of sessions and the same revision |
| `Database.Db.UndoAll` | foundation/basechain/basechain.cpp:177-183 | all tables go back to the oldest copy; all tables keep the same number of sessions and the same revision |
| `Database.Db.Exec` | foundation/basechain/include/basechain.hpp:206-235 | an edit of one object changes the present content and no copy, or fails and changes nothing |
| `Database.ApplySays` | foundation/basechain/include/basechain.hpp:206-235 | an edit inserts under the next id, replaces one value or removes one object; every other table and object stays |
| `Database.TogetherPop` | foundation/basechain/basechain.cpp:153-159 | undoing every table is undoing the copies of the whole database |
| `Database.TogetherJoin` | foundation/basechain/basechain.cpp:161-167 | squashing every table is joining the copies of the whole database |
| `Database.TogetherForget` | foundation/basechain/basechain.cpp:169-175 | committing every table is forgetting copies of the whole database |
| `BlockSession.Workspace.ApplyTransaction` | blockchain/chain/chain_xmax.cpp:538-575 | a transaction succeeds exactly if it does not throw and every edit applies where it is made; one that fails leaves every table as it was; one that succeeds becomes part of the block session; copies and revision do not change |
| `BlockSession.Workspace.PlayInSession` | blockchain/chain/transaction_context_xmax.cpp:14-37 | the transaction runs in a session of its own, above a copy of the content before it |
| `BlockSession.Workspace.ApplyBody` | blockchain/chain/chain_xmax.cpp:719-732 | inside the block session: all transactions in order; the block is accepted exactly if its header matches the content before it and which transactions succeeded, and its closing update, made on what they leave, does not throw and applies |
| `BlockSession.Workspace.AbortBuild` | blockchain/chain/chain_xmax.cpp:824-830 | aborting the block under construction restores the content before it |
| `BlockSession.Workspace.ApplyInSession` | blockchain/chain/chain_xmax.cpp:719-732 | an open block is dropped first; the block then stands on a copy of the content before it; a failed block can be aborted without trace |
| `BlockSession.Workspace.ApplySigned` | blockchain/chain/chain_xmax.cpp:702-732 | the signer is looked up in the present content, that of an open block included, before that block is dropped; a wrong signer refuses the block and changes nothing; the block applies exactly if signer, header and closing update are right |
| `BlockSession.Workspace.ApplyTransactions` | blockchain/chain/chain_xmax.cpp:723-726 | which transactions succeed, and that the content is that of the successful ones |
| `Replay.KeptApplies` | blockchain/chain/chain_xmax.cpp:538-575 | a block made of the transactions that succeeded for its builder succeeds completely for everyone else and gives the same content |
| `Replay.OutcomeExactly` | blockchain/chain/chain_xmax.cpp:538-575 | a script has an outcome exactly if it does not throw and there is a chain of contents along which every edit applies; the outcome is the last of them |
| `Replay.TxsInOrder` | blockchain/chain/chain_xmax.cpp:723-726 | each transaction runs on what the ones before it left; it succeeds exactly if it does not throw and all its edits apply, and otherwise leaves nothing |
| `Replay.BodyExactly` | blockchain/chain/chain_xmax.cpp:719-732 | exactly when a block body is acceptable, and where its closing update leads |
| `ChainState.Chain.PopBlock` | blockchain/chain/chain_xmax.cpp:762-774 | the flag of the head is cleared, the head moves to its predecessor and the content to the copy before the block |
| `ChainState.Chain.PushBlock` | blockchain/chain/chain_xmax.cpp:802-809 | a stored child of the head is applied, becomes the head, gets the flag and adds one copy; if it fails nothing changes but the session left open |
| `ChainState.Chain.AddFork` | blockchain/chain/chain_xmax.cpp:687-697 | a block of another branch is stored, what the best block knows takes effect, and every block that the log took is committed; when the node is then in order, and that every stored block can then be undone to |
| `ChainState.Chain.ConfirmBlock` | blockchain/chain/chain_xmax.cpp:682-685 | a block that does not follow the head, does not apply or is a duplicate leaves head, stored blocks and copies as they were; one is accepted exactly if it follows the head, applies, its report is taken completely and it is the best block, and leaves a node in order; otherwise torn, with the head set to whatever the fork database prefers and the session left open |
| `ChainState.Chain.StoreOwn` | blockchain/chain/chain_xmax.cpp:995-1027 | the order of the steps: store, commit what the log took while the session is open, take over the best block as the head, and only then compare it with the new block |
| `ChainAdd.AcceptedKeeps` | blockchain/chain/chain_xmax.cpp:995-1027 | an accepted block stays stored and leaves a node in order in which every stored block can be undone to |
| `ChainAdd.BestIfNothingBetter` | blockchain/chain/chain_xmax.cpp:1002-1005 | a block after the head becomes the best block exactly if no stored block ranks above it |
| `ChainAdd.TornAfterConfirmation` | blockchain/chain/chain_xmax.cpp:1002-1005 | after a higher confirmation on another branch, and before that branch is switched to, every block built on the head is torn |
| `ChainState.Chain.PushConfirmation` | blockchain/chain/chain_xmax.cpp:611-615 | a confirmation marks an unconfirmed stored block and keeps the node in order |
| `ChainState.Chain.PopBlocks` | blockchain/chain/chain_xmax.cpp:786-798 | popping a branch leads to the block where it begins, with as many copies fewer, and stays in order |
| `ChainState.Chain.PushBlocks` | blockchain/chain/chain_xmax.cpp:802-818 | the blocks of a branch are applied in order up to the first that fails, each on the content of the one before |
| `ChainState.Chain.CheckFork` | blockchain/chain/chain_xmax.cpp:776-822 | stays if the best block is on the main chain; finds no common ancestor; finds the head on the other branch; or pops the one branch and replays the other up to the first bad block. The node is in order afterwards, and every block it popped could be undone |
| `ChainSwitch.CheckedSays` | blockchain/chain/chain_xmax.cpp:776-822 | from a node in order: nothing happens exactly if the best block is the head or an ancestor of it; a switch is made exactly if there is a stored common ancestor and the head is not an ancestor of the best block |
| `ChainState.Chain.SwitchTo` | blockchain/chain/chain_xmax.cpp:781-817 | the content becomes that of the fork block with the new branch replayed as far as it goes |
| `ChainState.Chain.PushFork` | blockchain/chain/chain_xmax.cpp:687-700 | the whole step for a block of another branch: store, settle, commit, switch. After a complete report the node is in order exactly if its head lies above the block that took effect, or is that block, whatever was stored, made final or switched to; after one cut short, exactly if no open session was committed |
| `ChainAdd.ForkAddOutcome` | blockchain/chain/chain_xmax.cpp:687-697 | storing a block of another branch keeps the chain of copies, flags and history in order if the head stays stored; a complete report then never reaches the open session and leaves nothing that cannot be undone to |
| `ChainSwitch.OriginUndoable` | blockchain/chain/chain_xmax.cpp:786-798 | where every stored block can be undone to, the branch to pop is never longer than what can be undone |
| `ChainSwitch.SwitchReady` | blockchain/chain/chain_xmax.cpp:781-798 | the same for a node in order: pops reach the fork block, the new branch is linked to it, and the origin branch is empty exactly if the head is an ancestor of the best block |
| `ChainSwitch.FinalElsewhereIsUnreachable` | blockchain/chain/forkchain.cpp:442-481 | once a block that is not below the head has become final, the head and every block above the final one have no stored common ancestor |
| `ChainSeal.FinalSeals` | blockchain/chain/forkchain.cpp:256-304 | a block away from the head that takes effect seals its branch: nothing below it is stored, and the head is not above it |
| `ChainSeal.SealedIsUnreachable` | blockchain/chain/forkchain.cpp:442-481 | no block of a sealed branch, stored now or later, has a stored ancestor in common with the head |
| `ChainSeal.LookKeepsSealed` | blockchain/chain/chain_xmax.cpp:776-822 | no look for a better branch leads to a sealed one, and it stays sealed |
| `ChainSeal.PushForkKeepsSealed` | blockchain/chain/chain_xmax.cpp:687-700 | storing a block of another branch, with all it makes final, prunes and switches, keeps it sealed |
| `ChainSeal.ExtendKeepsSealed` | blockchain/chain/chain_xmax.cpp:995-1027 | so does a block after the head, unless the fork database then prefers another one |
| `ChainSeal.ConfirmKeepsSealed` | blockchain/chain/forkchain.cpp:384-399 | so does a confirmation |
| `ChainSwitch.SwitchPreservesMeaning` | blockchain/chain/chain_xmax.cpp:776-822 | after a switch the content is that of the fork block with the new branch replayed, older copies are untouched, and there is one copy and one revision per applied block |
| `ChainHistory.PopKeepsHealthy` | blockchain/chain/chain_xmax.cpp:762-774 | popping a block keeps flags, history and copies those of one chain, and the oldest block that can be undone |
| `ChainHistory.PushKeepsHealthy` | blockchain/chain/chain_xmax.cpp:802-809 | pushing a stored child does |
| `ChainHistory.ForeignKeepsHealthy` | blockchain/chain/forkchain.cpp:131-153 | storing a block of another branch does |
| `ChainHistory.OwnKeepsHealthy` | blockchain/chain/chain_xmax.cpp:995-1027 | storing and taking an own block does |
| `ChainHistory.ConfirmKeepsHealthy` | blockchain/chain/forkchain.cpp:384-399 | marking a block as confirmed does |
| `ChainHistory.SettleKeepsHealthy` | blockchain/chain/chain_xmax.cpp:1101-1125 | a report with its commits and its pruning does if the head stays stored; taken completely, it leaves only blocks that can be undone to |
| `ChainHistory.CommittedExactly` | blockchain/chain/chain_xmax.cpp:1101-1109 | what the log took can no longer be undone, everything above it still can |
| `Replay.PopNRestores` | blockchain/chain/chain_xmax.cpp:762-774 | popping k blocks restores the content before the oldest of them, or the oldest content there is |
| `Replay.ReplayCopiesIsReplay` | blockchain/chain/chain_xmax.cpp:702-760 | keeping copies does not influence what blocks do |
| `Replay.InSession` | blockchain/chain/transaction_context_xmax.cpp:14-37 | undoing a session, keeping it, and joining it to the one below |
| `BlockId.NumberReadsBack` | blockchain/chain/chain_utils.cpp:17-27 | the number put into an id is read back, whatever the summary |
| `BlockId.IdBytes` | blockchain/chain/chain_utils.cpp:17-27 | the number stands in the low half of the first word, highest byte first, and nothing else of the summary changes |
| `BlockId.ChildNumber` | blockchain/chain/block.cpp:14-22 | a block's id carries its predecessor's number plus one |
| `BlockId.BitsDetermineId` | blockchain/chain/chain_utils.cpp:22-27 | comparing split ids is comparing the stored bits |
| `ForkTree.IdAfterNumber` | blockchain/chain/block.cpp:14-22 | a block whose id was made after its predecessor has the next number |
| `ForkTree.NumberedByIdIsTree` | blockchain/chain/forkchain.cpp:102-112 | numbers carried by ids make the links a tree |
| `ForkBranch.FetchBranchFromFork` | blockchain/chain/forkchain.cpp:442-481 | a result exactly if the heads have a stored common ancestor; then the deepest one, and two disjoint linked paths down to it; the walk ends |
| `ForkConfirm.ReportIsPath` | blockchain/chain/forkchain.cpp:193-305 | right after a block has been marked, the list to be reported is exactly the unreported blocks of its path, oldest first, if and only if no other block already carried its mark |
| `ForkConfirm.GrowReportIsPath` | blockchain/chain/forkchain.cpp:115-118 | for an earlier confirmation that list is the unreported path if and only if no block off the path carries the mark and every unreported block on it does |
| `ForkCases.AddedBelowIsRefused` | blockchain/chain/forkchain.cpp:102-118 | a block added below a confirmed one before the report is listed with the path; the log refuses a part of that list, and nothing is removed |
| `ForkCases.AddedBelowEnters` | blockchain/chain/forkchain.cpp:256-293 | where no other stray block is about: the added block enters the log exactly if it is on the main chain, the path block of its number is not, and the log reaches its predecessor; with equal flags only the one listed first can |
| `ForkCases.MarkedTwiceIsRefused` | blockchain/chain/forkchain.cpp:193-305 | after confirmations on two branches the common ancestors are missing in the report of the first; the log takes nothing above them, and nothing is removed |
| `ForkCases.StrayInTheLog` | blockchain/chain/forkchain.cpp:102-129 | three blocks, a confirmation and an own block: the log takes the own block in place of the confirmed one of the same number, and then refuses the confirmed one |
| `ForkCases.StrayRefused` | blockchain/chain/forkchain.cpp:102-129 | with the confirmed block on the main chain, the block added beside it does not enter the log |
| `ForkCases.TwiceRefused` | blockchain/chain/forkchain.cpp:193-305 | four blocks with two confirmations: nothing above the common ancestor enters the log, and nothing is removed |
| `ForkCases.CleanIsTaken` | blockchain/chain/forkchain.cpp:187-191 | without a stray mark, a path that follows the log is taken completely, and only the confirmed block and higher ones stay |
| `ForkCases.ConfirmedElsewhere` | blockchain/chain/chain_xmax.cpp:1002-1005 | a confirmed block of the other branch ranks above every child of the head; the log takes its whole path, and the head is removed |
| `ForkConfirm.PendingOnPath` | blockchain/chain/forkchain.cpp:256-305 | the unreported part of a path, in ascending order |
| `ForkConfirm.PendingIsChain` | blockchain/chain/forkchain.cpp:256-305 | the report is a linked chain that ends at the confirmed block and starts after a reported or removed block |
| `ForkConfirm.InsertKeepsMarksRelated` | blockchain/chain/forkchain.cpp:102-112 | marks stay on one line with their blocks after an insertion exactly if the predecessor is not below the confirmed block it knows |
| `ForkConfirm.RelatedMarksAreNotStray` | blockchain/chain/forkchain.cpp:256-305 | marks on one line with their blocks make every report right |
| `ForkConfirm.ConfirmKeepsSound` | blockchain/chain/forkchain.cpp:193-254 | a confirmation keeps the database in order |
| `ForkConfirm.GrowKeepsSound` | blockchain/chain/forkchain.cpp:256-305 | pruning keeps the database in order |
| `ForkConfirm.InsertKeepsSound` | blockchain/chain/forkchain.cpp:102-112 | an insertion keeps the database in order |
| `ForkDb.ForkContext.UpdateHead` | blockchain/chain/forkchain.cpp:182-185 | no stored block has a higher confirmation than the head; of those with the same confirmation none a higher irreversible number; of those none a higher number; of those none is on the main chain unless the head is |
| `ForkReport.BestRanks` | blockchain/chain/forkchain.cpp:61-68 | the order of the four keys, for any best block |
| `ForkDb.ForkContext.SetLastConfirmed` | blockchain/chain/forkchain.cpp:193-254 | exactly the stored ancestors, the block and the stored descendants get the mark |
| `ForkConfirm.ConfirmedSays` | blockchain/chain/forkchain.cpp:193-254 | the mark of a block changes exactly if it is a stored ancestor or descendant of the confirmed one, or that block |
| `ForkDb.ForkContext.OnLastConfirmedGrow` | blockchain/chain/forkchain.cpp:256-305 | due blocks are handed to the log once, lowest first and main chain first among equals; if it takes all of them, they were the unreported path, and exactly the block and higher blocks stay; if it refuses one, nothing is removed |
| `ForkDb.ForkContext.HandToLog` | blockchain/chain/chain_xmax.cpp:1117-1125 | the log takes a block exactly if it follows its head by number and by id |
| `ForkDb.ForkContext.AddConfirmation` | blockchain/chain/forkchain.cpp:384-399 | a block is marked unless it knows a confirmation at or above itself; marks stay in order |
| `ForkDb.ForkContext.ChangeMainChainFlag` | blockchain/chain/forkchain.cpp:426-440 | one flag changes, and only of a stored block |
| `ForkDb.ForkContext.ForceConfirm` | blockchain/chain/forkchain.cpp:187-191 | mark and prune: the report is the pending path exactly if there is no stray mark |
| `ForkDb.ForkContext.Insert` | blockchain/chain/forkchain.cpp:102-112 | a block is linked to its stored predecessor, takes over its confirmation, and the head is chosen by confirmation, irreversible number, number and main chain, in this order; or it is refused; marks stay on one line exactly if the predecessor is not below the confirmed block it knows |
| `ForkConfirm.InsertedSays` | blockchain/chain/forkchain.cpp:131-153 | what the new block knows and brings along; every other block stays |
| `ForkDb.ForkContext.Settle` | blockchain/chain/forkchain.cpp:113-129 | the confirmation the best block knows takes effect, otherwise its irreversible block; the list is right exactly under the conditions of GrowReportIsPath or ReportIsPath, and always right when taken completely; the database stays in order |
| `ForkDb.ForkContext.AddBlock` | blockchain/chain/forkchain.cpp:102-129 | both together: what is stored, reported, taken by the log and pruned, with the same exact condition for the report |
| `ForkReport.KeptAfter` | blockchain/chain/forkchain.cpp:256-305 | after a confirmation only the block and higher-numbered blocks are stored |
| `ForkReport.SettlementReports` | blockchain/chain/forkchain.cpp:113-129 | whichever branch is taken: the exact condition for a right list, that what is taken completely is always right, and that nothing is removed otherwise |
| `ForkReport.GrowthSays` | blockchain/chain/forkchain.cpp:256-305 | what is listed, what stays and what is flagged, whether the report was taken completely or cut short |
| `ForkReport.SettlementClears` | blockchain/chain/forkchain.cpp:113-129 | after a complete report nothing is stored below the confirmation that the best block knows, and below its irreversible block neither, if the confirmation had cleared everything before |
| `ForkReport.OutlivesExactly` | blockchain/chain/forkchain.cpp:256-304 | a block stays stored exactly if it lies above the block that takes effect, or is that block |
| `ForkReport.RefusedAgain` | blockchain/chain/forkchain.cpp:256-304 | a report that was cut short is cut short again when the same confirmation grows the next time |
| `ForkReport.BestStays` | blockchain/chain/forkchain.cpp:102-129 | a block that is the best as soon as it is stored stays stored |
| `ForkReport.SettlementCovers` | blockchain/chain/forkchain.cpp:256-305 | after a complete report nothing below the highest block it made final is stored; after one cut short, some block still knows a confirmation that will clear it |
| `ForkReport.BestKnowsMost` | blockchain/chain/forkchain.cpp:113-129 | the best block knows the highest confirmation, and its irreversible block is never one that is already confirmed |
| `ForkLog.FlagKeepsValid` | blockchain/chain/forkchain.cpp:284-292 | the log only takes what follows it, so that reported blocks stay those at or below its head |
| `ForkLog.EntersExactly` | blockchain/chain/forkchain.cpp:256-293 | of a list of due blocks the log takes one exactly if its unreported path is due and follows the log, no other due block comes before it, and it is the first of its number |
| `ForkLog.MainChainFirst` | blockchain/chain/forkchain.cpp:46-52 | of two due blocks with the same number at most one enters the log, and never one off the main chain before one on it |
| `ForkLog.AloneEnters` | blockchain/chain/forkchain.cpp:256-293 | the converse without regard to the list: a due block that continues the log enters it if no other has its number and flag |
| `ForkLog.CompleteIsPath` | blockchain/chain/forkchain.cpp:284-304 | a list that the log takes completely is the unreported path to the confirmed block, without a stray block and without a gap |
| `ForkLog.CompleteExactly` | blockchain/chain/forkchain.cpp:284-304 | and it is taken completely exactly if it is that and the path follows the log |
| `ForkMarks.ConfirmKeepsMarksOk` | blockchain/chain/forkchain.cpp:193-254 | confirming a block keeps: every ancestor of a block up to the number it knows as confirmed is itself marked from above |
| `ForkMarks.InsertKeepsMarksOk` | blockchain/chain/forkchain.cpp:102-112 | inserting keeps the same |
| `ForkMarks.GrowKeepsMarksOk` | blockchain/chain/forkchain.cpp:256-305 | pruning keeps the same |
| `ForkMarks.ConfirmKeepsCovered` | blockchain/chain/forkchain.cpp:193-254 | a confirmation never takes away the mark that will clear what lies below the committed block |
| `ForkDb.Descendants` | blockchain/chain/forkchain.cpp:224-239 | the growing work list ends with exactly the stored descendants |
| `ForkDb.Collect` | blockchain/chain/forkchain.cpp:264-283 | the scan by number, main chain first, finds what to report, in order, and what to remove |
| `ForkDb.MarkUp` | blockchain/chain/forkchain.cpp:201-222 | the walk up marks exactly the path |
| `DposWindow.NextIsFromChain` | blockchain/chain/block_pack.cpp:177-215 | one step of the window equals the window computed from all ancestors |
| `DposWindow.GrowIsFromChain` | blockchain/chain/block_pack.cpp:177-215 | along every chain grown from an empty window |
| `DposWindow.WindowShape` | blockchain/chain/block_pack.cpp:177-215 | at most K ancestors with growing numbers, neighbours by different builders, ending at the parent |
| `DposWindow.IrreversibleShape` | blockchain/chain/block_pack.cpp:177-215 | the irreversible block is an ancestor at least K + 1 blocks below, unless there is none yet |
| `DposWindow.IrreversibleExactly` | blockchain/chain/block_pack.cpp:177-215 | with fourteen changes of builder it is the last block after which fourteen runs of equal builders follow; before that the one the chain started with |
| `DposWindow.IrreversibleGrows` | blockchain/chain/block_pack.cpp:177-215 | the irreversible number never decreases |
| `BlockPack.ChainCarriesReference` | blockchain/chain/block_pack.cpp:62-111 | every pack along a chain carries the window its whole ancestry gives, with consecutive numbers |
| `BlockPack.Pack.InitByPrePack` | blockchain/chain/block_pack.cpp:62-111 | a round opens exactly if the slots run past its end; then a waiting list comes into force and nothing waits any more, otherwise both lists stay; the builder is the one of the seat of the slot; number, predecessor and time |
| `BlockPack.WaitingBecomesCurrent` | blockchain/chain/block_pack.cpp:85-100 | between two openings the lists stay, and the one waiting since the first is in force from the second on |
| `BlockPack.ElectedBecomesCurrent` | blockchain/chain/chain_xmax.cpp:876-898 | the list set when a round opens is numbered after the one in force, travels in the header and is in force after the next opening |
| `BlockPack.Pack.InitDefault` | blockchain/chain/block_pack.cpp:37-60 | the first pack opens a round: whatever list is set next, its assertions hold and header and database agree |
| `BlockPack.Pack.GenerateDpos` | blockchain/chain/block_pack.cpp:177-215 | the vector is rewritten to the next window |
| `BlockPack.Pack.SetNextBuilders` | blockchain/chain/block_pack.cpp:162-169 | the next list is set exactly if it has the next version and no list is waiting |
| `BlockPack.Pack.GenerateByBlock` | blockchain/chain/block_pack.cpp:141-160 | the number from the header, the header and its list are taken over; nothing else changes |
| `BlockPack.Pack.InitFromBlock` | blockchain/chain/forkchain.cpp:131-153 | both steps give the pack that the header of the block determines |
| `BlockPack.FirstOpensRound` | blockchain/chain/block_pack.cpp:37-60 | a pack that begins a round agrees with the database after any list is set |
| `BlockPack.StepAgrees` | blockchain/chain/chain_xmax.cpp:876-898 | from an agreeing head the builder in the next header is the one the database names, the assertions about the next list hold, and the new head agrees |
| `BlockPack.GenesisAgrees` | blockchain/chain/chain_xmax.cpp:160-241 | the first block agrees with the database |
| `BlockPack.ScheduleAgreement` | blockchain/chain/chain_xmax.cpp:411-426 | in every state reached by building, applying and popping blocks, database and next header name the same builder |
| `BlockPack.ForkPackIsBuiltPack` | blockchain/chain/forkchain.cpp:131-153 | the pack the fork database makes from a header is the builder's own, but for the main-chain flag |
| `Schedule.SelectBuilder` | blockchain/chain/include/chain_utils.hpp:23-48 | the builder comes from the current list within the round and from the next one after it |
| `Schedule.TurnsGoRound` | blockchain/chain/include/chain_utils.hpp:23-48 | turns start at the first seat and go through the list seat by seat, from the last back to the first |
| `Schedule.SeatOf` | blockchain/chain/include/chain_utils.hpp:23-48 | the seat for every slot, of the current list up to the last slot of the round and of the next one after it |
| `Schedule.DeltaSlotCounts` | blockchain/chain/chain_utils.cpp:29-44 | a later time is as many slots away as the stamps differ |
| `Schedule.NotLater` | blockchain/chain/chain_utils.cpp:29-44 | a time that is not later is no slot away |
| `Schedule.NextRound` | blockchain/native_contract/xmax_voting.cpp:361-400 | a sorted, non-empty round of the first active builders by votes |
| `Schedule.FirstRoundTaken` | blockchain/native_contract/xmax_voting.cpp:361-387 | those taken stand at ascending places of the list by votes; somebody active is left out only if the round is full, and then comes after all of them |
| `Schedule.NobodyBetterLeftOut` | blockchain/native_contract/xmax_voting.cpp:361-387 | nobody active who is left out comes before anybody taken or has more votes |
| `Schedule.Choose` | blockchain/native_contract/xmax_voting.cpp:373-387 | the scan by votes takes the first active builders, at most one round |
| `Voting.TotalIsSupport` | blockchain/native_contract/xmax_voting.cpp:34-132 | a builder's running total is the sum of the stakes that support it, directly or through an active proxy, each counted once |
| `Voting.TotalsBounded` | blockchain/native_contract/xmax_voting.cpp:34-132 | no total is negative or above the stake of all voters |
| `Voting.ProxiedCovers` | blockchain/native_contract/xmax_voting.cpp:80-132 | the stake behind a proxy covers each of its users: no subtraction underflows |
| `Voting.AdjustKeepsInv` | blockchain/native_contract/xmax_voting.cpp:34-132 | more or less stake keeps all totals and the stakes behind proxies right |
| `VotingHandlers.MovedIsWithdrawJoin` | blockchain/native_contract/xmax_voting.cpp:134-253 | touching only builders that lose or gain support equals leaving everything and joining anew |
| `VotingHandlers.VoteKeepsInv` | blockchain/native_contract/xmax_voting.cpp:134-253 | a vote keeps all totals, the stakes behind proxies, and that no proxy uses a proxy |
| `VotingHandlers.ProxyFlagKeepsInv` | blockchain/native_contract/xmax_voting.cpp:294-359 | becoming and ceasing to be a proxy keep all totals |
| `VotingHandlers.RegKeepsInv` | blockchain/native_contract/xmax_voting.cpp:255-292 | registering and withdrawing builders keep all totals |
| `Ledger.EveryRun` | blockchain/native_contract/xmax_contract.cpp:116-147 | over every run of handler calls: constant supply, no negative balance, locked tokens equal stakes, totals equal support and stay within the supply |
| `Ledger.FromGenesis` | blockchain/native_contract/native_contract_chain_init.cpp:190-242 | the books of a new chain are in order, and after every run of calls from there nobody has more than the initial supply |
| `Ledger.CallKeeps` | blockchain/chain/transaction_context_xmax.cpp:56-63 | every single call of a handler, in whatever order notifications make them |
| `Ledger.MoveMainKeeps` | blockchain/native_contract/xmax_contract.cpp:390-418 | transfers, to oneself included, keep supply and books |
| `Ledger.AddAccountKeeps` | blockchain/native_contract/xmax_contract.cpp:116-147 | a new account is paid for by its creator |
| `Ledger.LockKeeps` | blockchain/native_contract/xmax_contract.cpp:420-454 | locking turns main tokens into locked ones and into stake |
| `Ledger.UnlockKeeps` | blockchain/native_contract/xmax_contract.cpp:456-478 | unlocking takes from locked tokens and stake alike |
| `Ledger.TokenCallKeeps` | blockchain/chain/chain_xmax.cpp:1454-1477 | gas payments and the other token calls keep supply and books |
| `NativeContract.Contract.AddToBuilders` | blockchain/native_contract/xmax_voting.cpp:67-77 | the loop adds to every listed builder, and fails only on an unknown one |
| `NativeContract.Contract.IncreaseVotes` | blockchain/native_contract/xmax_voting.cpp:34-78 | from books in order it never fails; the account's stake and every total it supports grow by the amount; nobody's choice changes |
| `NativeContract.Contract.DecreaseVotes` | blockchain/native_contract/xmax_voting.cpp:80-132 | fails exactly for an account without a row or with less at stake; otherwise its stake and every total it supports fall by the amount; taking nothing changes nothing |
| `NativeContract.Contract.VoteBuilder` | blockchain/native_contract/xmax_voting.cpp:134-253 | succeeds exactly if form, voter, proxy and builders are acceptable; the row then holds the proxy and the list voted for; nobody else's choice, flag or stake changes; each total moves by the voter's weight exactly if the builder enters or leaves what the voter supports |
| `VotingHandlers.VoteExactly` | blockchain/native_contract/xmax_voting.cpp:134-253 | exactly when a vote is accepted, test by test |
| `VotingHandlers.VoteSays` | blockchain/native_contract/xmax_voting.cpp:200-251 | the row of the voter, the rows of all others, and every total after a vote |
| `NativeContract.Contract.ShiftBuilders` | blockchain/native_contract/xmax_voting.cpp:211-244 | only builders that drop out or come in are touched |
| `NativeContract.Contract.RegProxy` | blockchain/native_contract/xmax_voting.cpp:294-331 | fails exactly for one that is a proxy already or uses one; only that flag changes, a newcomer gets a row, and each total the account supports grows by the stake behind it |
| `NativeContract.Contract.UnregProxy` | blockchain/native_contract/xmax_voting.cpp:333-359 | succeeds exactly for a proxy; only that flag changes, and each total the account supports falls by the stake behind it |
| `VotingHandlers.ProxyFlagSays` | blockchain/native_contract/xmax_voting.cpp:294-359 | both, for every row and every total |
| `NativeContract.Contract.RegBuilder` | blockchain/native_contract/xmax_voting.cpp:255-277 | a new builder starts without votes; one that comes back keeps those already cast |
| `NativeContract.Contract.UnregBuilder` | blockchain/native_contract/xmax_voting.cpp:279-292 | fails exactly for an unknown builder; otherwise only the key is emptied |
| `VotingHandlers.RegSays` | blockchain/native_contract/xmax_voting.cpp:255-292 | one builder's flag changes, and no votes |
| `NativeContract.Contract.PayGas` | blockchain/chain/chain_xmax.cpp:1454-1477 | gas other than zero leaves the payer's balance and reaches the builder's, no other changes; or the call fails and nothing changes |
| `NativeContract.Contract.Transfer` | blockchain/native_contract/xmax_contract.cpp:390-418 | the amount leaves one main balance and reaches another, or the same; no other changes; or the call fails and nothing changes |
| `NativeContract.Contract.Lock` | blockchain/native_contract/xmax_contract.cpp:420-454 | the amount leaves one main balance and is locked and at stake for the other account, whose totals grow by it; or nothing changes |
| `NativeContract.Contract.Unlock` | blockchain/native_contract/xmax_contract.cpp:456-478 | succeeds exactly if that much is locked and staked; it becomes unlocked, stake and totals fall by it, and no other account changes |
| `NativeContract.Contract.AddAccount` | blockchain/native_contract/xmax_contract.cpp:116-147 | succeeds exactly for a new name, a deposit and a creator that can pay; the creator pays the deposit, the new account starts with it, and no other balance changes |
| `NativeContract.SetDifference` | blockchain/native_contract/xmax_voting.cpp:213-234 | the entries of one sorted list missing from another, in order |
| `NativeContract.CheckSorted` | blockchain/native_contract/xmax_voting.cpp:147-150 | the neighbour test decides strict order |
| `Erc20.EveryRun` | blockchain/native_contract/xmax_contract.cpp:548-662 | over every run: supply is the sum of balances and never shrinks; frozen after stopmint; a revoked token is frozen altogether; a positive balance stays positive |
| `Erc20.FromNothing` | blockchain/native_contract/xmax_contract.cpp:197-231 | every token that a run of calls ever creates has the sum of its balances as its supply |
| `Erc20.StepKeepsOk` | blockchain/native_contract/xmax_contract.cpp:197-231 | each call keeps supply equal to the sum of balances |
| `Erc20.StepAllowed` | blockchain/native_contract/xmax_contract.cpp:78-88 | what one call may do to a token, given its flags |
| `Erc20.StepLawful` | blockchain/native_contract/xmax_contract.cpp:548-662 | both for every token at once: a market in order stays one, and no token changes in a way its flags forbid |
| `Erc20.TransferKeepsHeld` | blockchain/native_contract/xmax_contract.cpp:616-662 | a transfer, to oneself or to a new account included, keeps the sum of every token's balances |
| `Erc20.CreatedNonNegative` | blockchain/native_contract/xmax_contract.cpp:197-231 | a new token has no negative balance exactly if its total is not negative, which is not checked |
| `Erc20.StaysNonNegative` | blockchain/native_contract/xmax_contract.cpp:548-662 | from then on no balance becomes negative |
| `Erc20Contract.Contract.AddToken` | blockchain/native_contract/xmax_contract.cpp:197-231 | succeeds exactly if account, symbol and balance are new; the total goes to the creator; supply stays the sum of balances for every token |
| `Erc20Contract.Contract.Mint` | blockchain/native_contract/xmax_contract.cpp:548-576 | succeeds exactly if the token is live and minting goes on, its owner has a balance, the amount is not negative and nothing overflows; supply and the owner's balance grow by the amount, and no other row changes |
| `Erc20Contract.Contract.StopMint` | blockchain/native_contract/xmax_contract.cpp:578-598 | succeeds once, on a live token; from then on the supply is frozen |
| `Erc20Contract.Contract.Revoke` | blockchain/native_contract/xmax_contract.cpp:601-614 | succeeds once; from then on the token is frozen altogether |
| `Erc20Contract.Contract.TransferFrom` | blockchain/native_contract/xmax_contract.cpp:616-662 | succeeds exactly if the token is live, the balance exceeds the value and nothing overflows; the value leaves one balance and reaches the other, or the same, and no other row changes |
| `AbiTypes.Resolve` | foundation/basetypes/abi_serializer.cpp:218-223 | following typedefs ends at a name that is not a typedef |
| `AbiTypes.ResolveIdempotent` | foundation/basetypes/abi_serializer.cpp:218-223 | resolving twice is resolving once |
| `AbiTypes.CheckTypedef` | foundation/basetypes/abi_serializer.cpp:182-190 | the walk with a list of names seen ends, and passes exactly if the chain of typedefs does |
| `AbiTypes.CheckTypedefs` | foundation/basetypes/abi_serializer.cpp:182-190 | the check passes exactly if every chain of typedefs ends |
| `AbiTypes.CheckBase` | foundation/basetypes/abi_serializer.cpp:194-204 | the walk along one struct's bases |
| `AbiTypes.CheckBases` | foundation/basetypes/abi_serializer.cpp:194-204 | the check passes exactly if every base is a struct and no struct extends itself |
| `Chains.RepeatNeverEnds` | foundation/basetypes/abi_serializer.cpp:184-189 | a repeated name means that the chain does not end |
| `AbiAccept.AnswerIffEnds` | foundation/basetypes/abi_serializer.cpp:167-173 | the question whether a name is a type is answered exactly if the chain it follows ends |
| `AbiAccept.YesExactly` | foundation/basetypes/abi_serializer.cpp:167-173 | the answer is yes exactly if the chain ends in a built-in type or a struct |
| `AbiAccept.AcceptedEnds` | foundation/basetypes/abi_serializer.cpp:105-133 | with typedef names of their own, acceptance one by one already makes every chain end and every question answered |
| `AbiAccept.AnsweredExactly` | foundation/basetypes/abi_serializer.cpp:100-133 | of accepted typedefs, every question is answered if and only if no typedef's chain, at its turn, ends in the name it introduces |
| `AbiAccept.NeverAnswered` | foundation/basetypes/abi_serializer.cpp:167-173 | an accepted typedef, free of circles for the first check, whose question is never answered |
| `AbiCodec.SizeRoundTrip` | libraries/fc/include/fc/io/raw.hpp:177-206 | array sizes are read back |
| `AbiFormat.SizeFormat` | libraries/fc/include/fc/io/raw.hpp:177-206 | a size is written in groups of seven bits, lowest first, all but the last marked, and without empty groups |
| `AbiFormat.Layout` | foundation/basetypes/abi_serializer.cpp:264-309 | a list is its 32-bit size and then its items; a struct is its base and then its own fields; anything else of these types fails |
| `AbiFormat.ItemsInOrder` | foundation/basetypes/abi_serializer.cpp:289-291 | items stand in their order with nothing between them |
| `AbiFormat.FieldsInOrder` | foundation/basetypes/abi_serializer.cpp:299-307 | so do fields, each the first member of its name under its type |
| `AbiRoundTrip.RoundTrip` | foundation/basetypes/abi_serializer.cpp:225-309 | if every list that is written has fewer than 4294967296 items, reading gives the value in the shape of its type and leaves exactly the bytes that follow |
| `AbiMisread.RoundTripExactly` | foundation/basetypes/abi_serializer.cpp:225-309 | it is given back if and only if no list that is written is longer; members that no field names do not matter |
| `AbiMisread.Misread` | foundation/basetypes/abi_serializer.cpp:236-309 | with a longer list anywhere among what is written, reading fails or gives another value |
| `AbiRoundTrip.ReadsBack` | foundation/basetypes/abi_serializer.cpp:236-257 | the same with an explicit bound on the nesting |
| `AbiRoundTrip.StructReadsBack` | foundation/basetypes/abi_serializer.cpp:225-234 | a struct: members of the base first, then its own |
| `AbiRoundTrip.LongListLost` | foundation/basetypes/abi_serializer.cpp:271-292 | a list of 4294967296 empty structs is written as an empty one |
| `AbiStream.Stream.WriteValue` | foundation/basetypes/abi_serializer.cpp:264-309 | the writer appends exactly the bytes of the value under its type, or fails exactly if the value does not fit the type |
| `AbiStream.Stream.WriteList` | foundation/basetypes/abi_serializer.cpp:289-291 | the bytes of each item in turn; one that cannot be written fails the list |
| `AbiStream.Stream.WriteMembers` | foundation/basetypes/abi_serializer.cpp:299-307 | the bytes of each field in turn; a missing field fails |
| `AbiStream.Source.ReadValue` | foundation/basetypes/abi_serializer.cpp:236-257 | the reader takes exactly the bytes of one value and gives that value, or fails |
| `AbiStream.Source.ReadObject` | foundation/basetypes/abi_serializer.cpp:225-234 | members of the base are appended first |
| `Authority.Between` | blockchain/chain/authority_utls.cpp:319-327 | where the comparisons below the declared authorities are right: what three levels of plain checking accept is accepted, and what is accepted has a derivation of some depth |
| `AuthExact.AcceptsExactly` | blockchain/chain/authority_utls.cpp:215-327 | the exact answer: everything at or below the declared authorities exists and has enough weight, and no descent from one of them through authorities not met before needs more than three levels |
| `AuthExact.CheckExact` | blockchain/chain/authority_utls.cpp:215-254 | the same for a single check, whatever has been met before, with exactly what is remembered after it |
| `Authority.DerivedPasses` | blockchain/chain/authority_utls.cpp:215-254 | whatever was remembered before, nothing that derives within the levels left is refused |
| `Authority.PassedDerives` | blockchain/chain/authority_utls.cpp:215-254 | what passes has a derivation, and so has all that is remembered |
| `Authority.CompanyMatters` | blockchain/chain/authority_utls.cpp:319-327 | both bounds are strict: an authority refused alone is accepted together with one it relies on |
| `Authority.EnoughIfSameSide` | blockchain/chain/authority_utls.cpp:223-254 | of 32-bit weight and threshold, the comparison made on signed integers is right exactly if both lie on the same side of 2147483648 |
| `Authority.HugeThreshold` | blockchain/chain/authority_utls.cpp:223-227 | a threshold beyond the signed integers is met without any key |
| `AuthChecker.Checker.CheckDeclared` | blockchain/chain/authority_utls.cpp:319-327 | passes exactly if every declared authority passes in turn, with one memory shared between them |
| `AuthChecker.CheckAuthorization` | blockchain/chain/authority_utls.cpp:260-329 | the authorizations of all messages are accepted exactly if the checker accepts the one ordered list of them without repetition; their order and repetition make no difference |
| `AuthChecker.Collect` | blockchain/chain/authority_utls.cpp:267-316 | the collected list is in order, without repetition, and has exactly the authorizations given |
| `AuthChecker.Checker.CheckWithDepth` | blockchain/chain/authority_utls.cpp:215-221 | passes exactly if the check with the levels left does, and remembers the same |
| `AuthChecker.Checker.CheckRule` | blockchain/chain/authority_utls.cpp:223-254 | every listed account passes or is remembered and the weights reach the threshold; the presented keys are marked as used |
| `AuthChecker.Checker.MarkKeys` | blockchain/chain/authority_utls.cpp:229-240 | exactly the presented keys are weighed and marked; where none of the listed keys is presented the weight is zero |
| `AuthKeys.EachKeyAdds` | blockchain/chain/authority_utls.cpp:229-240 | without keys there is no weight, and each further key adds exactly the weights of its entries |
| `AuthKeys.UnlistedKey` | blockchain/chain/authority_utls.cpp:229-240 | a key that is not listed changes nothing |
| `AuthKeys.AccountsAdd` | blockchain/chain/authority_utls.cpp:241-250 | the weights of listed accounts add up |
| `AuthKeys.ListedKeysDecide` | blockchain/chain/authority_utls.cpp:215-327 | the answer depends only on which of the keys listed at or below the declared authorities are presented |
| `AuthKeys.ForeignKeys` | blockchain/chain/authority_utls.cpp:215-327 | keys listed nowhere there make no difference |
| `AuthKeys.NoKeyNoAccess` | blockchain/chain/authority_utls.cpp:229-254 | where accounts alone do not reach a threshold and no key listed there is presented, it refuses |
| `AuthKeys.HolderNeeded` | blockchain/chain/authority_utls.cpp:229-254 | an authority held by one key passes exactly if that key is presented |
| `BlockLog.BlockLog.AppendBlock` | blockchain/chain/chain_stream.cpp:99-140 | a block is appended exactly if no read has failed, it is the next by number and there is room; the files are those of one block more |
| `BlockLog.BlockLog.OnIrreversible` | blockchain/chain/chain_xmax.cpp:1117-1125 | the same with the link to the head; the list stays hash-linked and consecutively numbered |
| `BlockLog.BlockLog.ReadByNum` | blockchain/chain/chain_stream.cpp:276-298 | while no read has failed every number from one to the last gives exactly its block and larger ones nothing; zero and an empty log fail, and from then on everything that uses the index fails |
| `BlockLog.BlockLog.ReadHead` | blockchain/chain/chain_stream.cpp:258-269 | the last block; from an empty log it fails and leaves the log file unusable |
| `BlockLog.BlockLog.ReadIndices` | blockchain/chain/chain_stream.cpp:300-332 | all cases: the matching slice with two entries or more; nothing with one; where it fails, and when the failure lasts |
| `BlockLog.BlockLog.LastBlockNum` | blockchain/chain/chain_stream.cpp:334-350 | the last number, except that a log of one block says zero and an empty one fails for good |
| `BlockLog.AppendKeepsFiles` | blockchain/chain/chain_stream.cpp:99-140 | one record and one row more are the files of one block more |
| `LogFormat.IndexSlot` | blockchain/chain/chain_stream.cpp:110-138 | entry n is in slot n - 1 and is read back from there |
| `LogFormat.RowReadsBack` | blockchain/chain/chain_stream.cpp:110-138 | number, position, size and id stand in this order in a row, and are read back |
| `LogFormat.LowestFirst` | blockchain/chain/chain_stream.cpp:110-138 | numbers stand lowest byte first |
| `LogFormat.BlockAt` | blockchain/chain/chain_stream.cpp:142-149 | a block's bytes begin where its row says |
| `LogFormat.LastDesc` | blockchain/chain/chain_stream.cpp:50-53 | the descriptor before the end mark names the last block |
| `IrreversibleLog.ReportContinues` | blockchain/chain/chain_xmax.cpp:1117-1125 | a report continues the log exactly if it starts after the log's head |
| `IrreversibleLog.Feed` | blockchain/chain/chain_xmax.cpp:1101-1125 | blocks go to the log in order; the first refused one does not follow, finds no room, or meets a log broken by a read |
| `GasQueue.Queue.Select` | blockchain/chain/chain_xmax.cpp:1432-1452 | nothing lost or doubled, most gas first, at most 500 messages and 500 slots, and why it stops |
| `GasQueue.Queue.Push` | blockchain/chain/chain_xmax.cpp:507-523 | a transaction without messages or one that fails another check is dropped; one that arrives while a block is built is applied at once; any other is queued |
| `Asset.PrintParse` | foundation/basetypes/asset.cpp:40-83 | printing and parsing gives the asset back exactly if amount plus precision fit in 64 bits |
| `Asset.Printed` | foundation/basetypes/asset.cpp:40-49 | whole units, a dot, as many digits as there are decimals, a space and the symbol |
| `Asset.PrintExample` | foundation/basetypes/asset.cpp:40-49 | 10050 with two decimals is printed as 100.50 |
| `Asset.NegativeComesBack` | foundation/basetypes/asset.cpp:40-83 | a negative amount comes back exactly if it is a whole number of units |
| `Asset.NoDecimalsLost` | foundation/basetypes/asset.cpp:50-83 | no asset without decimals comes back, whatever its amount and symbol; nothing at all is read unless the symbol ends in white space |
| `Price.StrictWeakOrder` | foundation/basetypes/asset.cpp:85-107 | on positive prices the order is a strict weak order whose ties are the equal prices |
| `Price.LargerRatio` | foundation/basetypes/asset.cpp:95-107 | of prices with the same symbols the larger is the one with the larger ratio of base to quote; otherwise the base symbol decides, and then the quote symbol |
| `Price.ThereAndBack` | foundation/basetypes/asset.cpp:129-145 | where the converted amount, cut down to 64 bits, is not negative, converting there and back never gains |
| `Price.ConvertsDown` | foundation/basetypes/asset.cpp:129-145 | a conversion keeps the ratio up to the unit it rounds down, and then drops all but 64 bits |
| `Price.NotConverted` | foundation/basetypes/asset.cpp:129-145 | what is not converted: an amount of neither side, or by a side that is not positive |
| `Price.NegativeBack` | foundation/basetypes/asset.cpp:129-145 | what a negative amount converts back to, exactly |
| `Price.Gains` | foundation/basetypes/asset.cpp:129-145 | two units come back as four, at a positive price |

## Left out

- Uniqueness of secondary keys: an `emplace`, `modify` or undo that fails on a secondary key throws and is outside the model of the tables, which are maps from id to value.
- Memory-mapped files, locks, allocators, restart repair and genesis files.
- Networking, HTTP, database mirrors, command line, wallet and plugins.
- Virtual machines and contract bindings: a message's effect is an arbitrary script of edits that may throw; notifications are an arbitrary sequence of handler calls.
- The recursion of `transaction_context_xmax::exec` itself, with its receipts, gas counting and depth limit.
- Cryptography: signatures, hashing and key recovery are inputs.
- Authorisation, scope and recipient checks inside the native handlers, and ERC721 tokens.
- Gathering confirmations in `block_raw::add_confirmation`: it returns at the first confirmation it already has, so there is no quorum to prove anything about. The model begins where a block has enough of them.
- `remove_chain` and the retry of `_check_fork` after a bad block: the scan for children there runs to the end of the index, so that what it removes depends on the order of hashes. The model of the switch stops at the bad block.
- An empty origin branch in `_check_fork` is undefined in the source; the model reports it and does nothing.
- `cal_merkle`.
- Wrap-around of 32-bit block numbers.
- Exceptions other than `fc::exception` that leave `apply_transaction_impl`.
- `abi_serializer::variant_to_binary` on a whole buffer: the limit of one megabyte and the fallback to raw bytes for unknown types.
- `parent_permission_valid`, linked permissions and `check_key_used`.
- Voter time stamps and the fields of delayed unstaking that no native handler sets.
- AbiRoundTrip.RoundTrip: holds for struct names that are neither built-in types nor end in "[]", since the writer and the reader treat such names differently; `fuel` bounds the nesting of a reading, because a type that contains itself can be read without end, and the theorem says that from some bound on the result is the value.
- AbiRoundTrip.ReadsBack: the same conditions as RoundTrip.
- AbiMisread.RoundTripExactly: the same conditions on names.
- AbiAccept.AcceptedEnds: one direction, for names of their own; AbiAccept.AnsweredExactly is the equivalence for all accepted typedefs.
- Authority.Between: needs that every comparison below the declared authorities is right, as EnoughIfSameSide says when it is; HugeThreshold shows why. AuthExact.AcceptsExactly needs nothing.
- Authority.DerivedPasses: the same condition, on what is below the authority checked.
- Authority.PassedDerives: the same condition, on what is below the authority checked.
- Price.ThereAndBack: needs that the converted amount, which the source cuts down to 64 bits without a check, is not negative; NegativeBack says what comes back otherwise, and Gains that it can be more.
- ForkBranch.FetchBranchFromFork: a missing block ends the search with no result where the source throws.
- Asset.PrintParse: an intermediate result outside 64 bits is undefined in the source and fails in the model; more than 14 decimals likewise.
- NativeContract.Contract.VoteBuilder: does not state what a failed vote leaves behind in the rows, nor do the other handlers that can fail halfway; the session of the transaction is undone.
- AbiStream.Source.ReadValue: sizes of more than five bytes, undefined in the source, fail in the model.
- ForkDb.ForkContext.HandToLog: tests only that a block follows the head of the log; that the log may be broken by a read, or full, is in BlockLog.BlockLog.OnIrreversible.
- ChainState.Chain.ConfirmBlock: a block that was built here and one received go through the same steps; what building adds before them, and the time spent, is not modelled.
- ChainState.Chain.CheckFork: makes one round of the source's loop, which repeats only after a bad block.
- Authority collection: `check_updateauth` and the other special checks of single messages.
- ForkLog.EntersExactly: of due blocks with the same number and flag, the order of the list decides, which in the source is the order of insertion into the index and is not modelled.
- ChainSeal.ExtendKeepsSealed: leaves out a block after which the fork database prefers another one; the source then sets the head to that block without applying it.
