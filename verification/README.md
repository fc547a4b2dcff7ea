# A verified model of the metadata server and its client

This project models the parts of a CephFS metadata server and client where state is kept in
several places at once and has to agree: the auth pins and freezing of directory fragments,
their write-back to disk, splitting and merging them, the load balancer's plan and its choice of
exports, the client's capabilities, its cached snapshot contexts, its path walk, the merging of
file attributes, the expansion of configuration variables, and the keys of directory entries.
Each part is a model of the code's own steps together with proofs of what those steps keep.
`dafny verify dfyconfig.toml` checks all of it.

| file | what it models |
|---|---|
| PinTree, Freezing, FreezeRuns | auth pins, freezing, links and subtree roots in a tree of fragments and inodes |
| Commit, CommitRuns | versions, batched writes, completions and waiters of one fragment |
| Frags, Tallies, Refragment, SplitMerge | fragments as hash prefixes; what a fragment counts; split and merge |
| Planner | the rebalance plan |
| Exports, ExportTree | the search for subtrees to export |
| Caps, CapClient, CapRuns | capabilities over several metadata servers; dirty and flushing bits |
| SnapRealms, RealmRuns | the realm tree, its references and its cached contexts |
| Runs | runs of any machine, used by CapRuns and RealmRuns |
| PathWalk | symbolic links |
| FileAttrs | merging sizes and times |
| ConfigExpand | `$variables` in options |
| DentryKeys | keys, their order, lookup |

What is not visible in the sources is written as a contract: an inode's and a dentry's pins
propagate as link and unlink show; a fragment is a prefix of a 24-bit hash whose children are
listed in index order; a fragment that is not a subtree root has its inode's authority; marking a
dentry dirty gives it the version handed out by pre_dirty; the dirty capabilities of an inode are
those dirty or flushing; a snapshot context with sequence number 0 is a cleared one; a path is
split at its slashes and empty components are dropped. Loads are exact real numbers. The bits of
a capability mask are the elements of a set; which bits the masks ANY and ANY_SHARED hold follows
Ceph's public header.

Three properties do not hold of the code as it stands, and the project says exactly when they do:

- A tree freeze can be missed. When it starts with no pin in its way, below an inode that is
  frozen, no later unpin wakes it: `FreezeRuns.StallWitness` gets there from an unpinned cache and
  ends with a freeze that waits for nothing. `Freezing.Cache.FreezeTree` says that this is the only
  case, and `FreezeRuns.Run` that no freeze is ever missed in runs without it.
- A dirtied capability bit can be lost when a flush is acknowledged after the bit was sent again a
  multiple of 2^16 flushes later, because only 16 bits of the flush number are compared:
  `Caps.WrapLosesBit`. `Caps.CleanedIsLast` says that the comparison is right if and only if this
  has not happened, and then nothing is lost: `CapRuns.NothingLost`.
- With release failures injected, a bit in use can be given up: `Caps.InjectionGivesUp`.
  `Caps.GivesUpExactly` says that sending a cap gives up a used bit that nothing else covers if and
  only if failures are injected and the bit is an xattr bit being revoked; the contracts of
  `CapClient.Client.CheckCaps` and of the operations that call it exempt these bits of each cap and
  no others.

Inside a frozen tree a fragment may still be frozen on its own when this server holds only a
replica of it: `PinTree.FrozenTreeIsQuiet` rules it out for all others, and
`FreezeRuns.ReplicaWitness` gets there from an unpinned cache.

A search for exports leaves nothing useful behind if it ends with no more than need_min of what is
then still missing. Ending below what it aimed at to begin with is not enough for that: a search
further down aims at less and may be content before the one above it is.

Imports and exports are not meant to keep every bit: `CapClient.Client.HandleImport` and
`CapClient.Client.HandleExport` say exactly which bits in use are still there afterwards, and
`CapClient.ExportGivesUp` shows one that is not.

## Model

| member | source | states |
|---|---|---|
| PinTree.ReplaceDir | src/mds/CDir.cc:2379-2397 | replacing one fragment's record leaves every other counter exact and puts its inode's nested count off by exactly the change in that fragment's contribution |
| PinTree.ReplaceInode | src/mds/CDir.cc:2425-2448 | replacing one inode's record leaves every other counter exact and puts its parent fragment's counters off by exactly the change |
| PinTree.PinnedNotFrozenAbove | src/mds/CDir.cc:2574-2586 | a fragment with any pin at or below it is never inside a frozen tree |
| PinTree.FrozenTreeIsQuiet | src/mds/CDir.cc:2519-2533 | below a frozen tree root, down to nested subtree roots, no fragment or inode holds a pin, none is freezing, and none that is auth is frozen on its own |
| Freezing.Cache.AdjustDir | src/mds/CDir.cc:2425-2448 | after an adjustment anywhere in the tree, re-entrant freeze completion included, all counters are exact again; only pins and freeze flags above change |
| Freezing.Cache.AdjustInode | src/mds/CDir.cc:2393-2396 | one nested pin reaches the inode and, through it, the fragment above |
| Freezing.Cache.PinDir | src/mds/CDir.cc:2379-2397 | the pin is counted once and the inode gets a nested pin iff the fragment had none |
| Freezing.Cache.UnpinDir | src/mds/CDir.cc:2399-2423 | the pin is gone, the counters are exact, and every freeze that this unblocks, here or above, is complete, or re-armed exactly if it is that of a tree whose inode was frozen when the pin was dropped |
| Freezing.Cache.PinInode | src/mds/CDir.cc:2529-2532 | an inode's own pin reaches every counter above it |
| Freezing.Cache.UnpinInode | src/mds/CDir.cc:2540-2545 | the same for giving it back, freezes completed on the way included |
| Freezing.Cache.MaybeFinishFreeze | src/mds/CDir.cc:2609-2640 | a freeze whose last blocker is gone is complete when it returns, unless it is that of a tree whose inode is frozen: exactly then it holds the retaken pin; no waiting freeze is left unblocked |
| Freezing.Cache.CompleteFreeze | src/mds/CDir.cc:2615-2640 | the freeze bit becomes the frozen bit and the fragment's own pin is given back |
| Freezing.Cache.FreezeTreeNow | src/mds/CDir.cc:2519-2533 | the assert of _freeze_tree holds; the inode carries one freeze pin for it iff it is auth and no subtree root |
| Freezing.Cache.FreezeDirNow | src/mds/CDir.cc:2661-2675 | the same for a single fragment |
| Freezing.Cache.FreezeTree | src/mds/CDir.cc:2502-2517 | frozen at once iff no pin and no frozen inode is in the way; a waiting freeze has a blocker iff it does not start unpinned under a frozen inode |
| Freezing.Cache.FreezeDir | src/mds/CDir.cc:2644-2659 | frozen at once iff no own pin and no pin directly below; otherwise it waits with a blocker; its other holders keep their pins |
| Freezing.Cache.Unfreeze | src/mds/CDir.cc:2534-2559 | thawed, with the inode's freeze pin given back iff it held one, also when a freeze in progress is called off |
| Freezing.Cache.SetDirAuth | src/mds/CDir.cc:2318-2352 | across any change of subtree-root status the nested pin and the freeze pin on the inode stay exact |
| Freezing.Cache.LinkInode | src/mds/CDir.cc:539-560 | wherever a link makes no cycle it carries the inode's pins into its fragment and all above |
| Freezing.Cache.UnlinkInode | src/mds/CDir.cc:603-630 | unlinking takes them out again |
| FreezeRuns.Perform | src/mds/CDir.cc:2379-2448 | one operation by a caller who keeps the rules: exact counters, and no freeze missed unless it stalls |
| FreezeRuns.Run | src/mds/CDir.cc:2318-2697 | every operation has its effect, and a freeze that it unblocks completes or, exactly under an inode frozen then, re-arms; in every state of every run the counters are exact and every frozen tree is quiet: no pin, no freeze under way and no fragment frozen on its own inside it unless it is a replica; no freeze is missed in a run without a stalling start |
| FreezeRuns.NeverMissed | src/mds/CDir.cc:2502-2517 | up to the first stalling start of a run every waiting freeze has a blocker |
| FreezeRuns.LastBlockerFreezes | src/mds/CDir.cc:2609-2640 | a tree freeze that waits for pins, with no frozen inode in its way, is FROZENTREE after the very step that takes the last of them away, and waits until then |
| FreezeRuns.RearmsUnderFrozen | src/mds/CDir.cc:2625-2633 | a fragment takes a pin for its inode in a step only if it was freezing its tree, is no subtree root and its inode was frozen |
| FreezeRuns.UnpinnedIsOk | src/mds/CDir.cc:181-234 | a cache of fragments as they are created, with nothing pinned and any shape, satisfies the invariant |
| FreezeRuns.StallWitness | src/mds/CDir.cc:2502-2517 | freeze a fragment, ask one below it to freeze its tree, thaw the first: the second waits although nothing is in its way |
| FreezeRuns.ReplicaWitness | src/mds/CDir.cc:2661-2675 | the exception is real: freeze a replica, then the tree above it, which freezes at once because a replica pins no inode |
| Commit.OmapCommit | src/mds/CDir.cc:1862-1982 | the batches, applied in order, leave on disk the blob of every dentry that is dirty or part of a new fragment, no blob of removed and stale names, and everything else as it was; the header comes last; every write but the last has reached the size limit and, but for stale names, only with its last entry |
| Commit.HeaderImpliesAll | src/mds/CDir.cc:1960-1982 | after any prefix of the batches, the new header is on disk only if all dentry updates are |
| Commit.SettleDentries | src/mds/CDir.cc:2104-2140 | a completion marks clean exactly the dentries of its version or older |
| Commit.TakeWaiters | src/mds/CDir.cc:2142-2166 | the waiters called are exactly those of committed versions, in order; the others keep waiting |
| Commit.Fragment.PreDirty | src/mds/CDir.cc:1287-1295 | the projected version passes both the old one and the minimum |
| Commit.Fragment.MarkDirty | src/mds/CDir.cc:1296-1302 | the version rises to the one handed out and all invariants hold |
| Commit.Fragment.PinDentries | src/mds/MDCache.cc:10813-10823 | marking dentries for refragmenting, even during a commit, keeps every promise about what is on disk |
| Commit.Fragment.ChangeDentry | src/mds/CDir.cc:1296-1302 | a changed dentry is dirty at the new version |
| Commit.Fragment.CommitWith | src/mds/CDir.cc:1816-1847 | the asserts hold, the waiter is queued under its version, the auth pin is held once and a commit is in flight |
| Commit.Fragment.CommitUpTo | src/mds/CDir.cc:2021-2062 | a new commit, of the current version, starts iff none is in flight and none so far covers the version wanted |
| Commit.Fragment.ApplyNext | src/mds/CDir.cc:1960-1982 | the store applies the next batch; every invariant about what is on disk holds |
| Commit.Fragment.Completed | src/mds/CDir.cc:2070-2166 | committed versions rise to the version written, exactly the served waiters fire, and the pin is given back with the last of them |
| Commit.CleanIsOnDisk | src/mds/CDir.cc:2085-2140 | a clean, complete fragment equals its on-disk map |
| Commit.HeaderCoversDentries | src/mds/CDir.cc:1960-1982 | whatever header is on disk at any moment, each dentry no newer than it is on disk |
| CommitRuns.Run | src/mds/CDir.cc:1816-2166 | an event of a run happens iff it is allowed and then has its effect: a change, a waiter queued and a commit begun, a write landed, a completion that cleans, calls and begins the next commit. In every state: committed <= committing <= version <= projected, COMMITTING iff a commit is in flight, waiters imply a commit and the pin; a clean dentry is on disk unless a write to its key is under way |
| CommitRuns.SecondCompletionServes | src/mds/CDir.cc:2142-2166 | everyone who waits is called by the second completion that follows and waits no longer |
| CommitRuns.AskerIsServed | src/mds/CDir.cc:1816-1847 | the context given to a commit is called, for its version, by the second completion after it |
| CommitRuns.CompletedIsSaved | src/mds/CDir.cc:1862-2166 | when a commit completes, everything that was dirty or part of a new fragment when it began is on disk as it was then, whatever happened in between, and nothing else there has changed |
| Frags.IndexNamesChild | src/mds/CDir.cc:968-976 | the index computed from a dentry's hash is in range and names the child that contains the hash |
| Frags.ChildIsUnique | src/mds/CDir.cc:915-916 | no other child contains it |
| Tallies.StolenIsExact | src/mds/CDir.cc:779-838 | after stealing a dentry all counters of the new fragment are the sums over its dentries |
| Refragment.Dirfrag.StealDentry | src/mds/CDir.cc:779-838 | the dentry moves with its share of items, dirty count, statistics and pins |
| Refragment.Dirfrag.FinishOld | src/mds/CDir.cc:856-891 | the zero-pin asserts hold once all dentries are stolen |
| Refragment.Dirfrag.Split | src/mds/CDir.cc:907-999 | the new fragments hold exactly the old dentries, each in its child; their counters are exact; what was accounted but not current goes to the first if the accounted version is the inode's, and else is forgotten |
| Refragment.MergeReplicas | src/mds/CDir.cc:1031-1040 | every peer of either fragment is kept, with the higher of its nonces |
| Refragment.Dirfrag.Merge | src/mds/CDir.cc:1001-1065 | the merged fragment holds all dentries of the parts, with exact counters and the greatest version; its accounted minus current statistics are those of the parts whose accounted version is the inode's, added up |
| SplitMerge.HeadItemsAreFilesAndDirs | src/mds/CDir.cc:248-294 | in an exact fragment the head items are its files and subdirectories, as check_rstats wants |
| SplitMerge.DentryInRightChild | src/mds/CDir.cc:964-980 | a dentry is in a child iff that child's fragment contains its hash |
| SplitMerge.SplitConservesTally | src/mds/CDir.cc:907-999 | the children together count exactly what the fragment counted |
| SplitMerge.SplitConservesDifference | src/mds/CDir.cc:981-996 | accounted minus current, summed over the children, is what it was if its version is the inode's, and zero else |
| SplitMerge.SplitThenMerge | src/mds/CDir.cc:907-1065 | split and merge gives back dentries, all counters, version, replica nonces, the four kept state bits, and what was accounted if its version is the inode's |
| Planner.MatchIsSound | src/mds/MDBalancer.cc:559-579 | a match within both sides' room keeps every rank on its side of the target and the maps a record of the transfers made |
| Planner.PlanConserves | src/mds/MDBalancer.cc:707-838 | exports and imports have the same sum, this rank's targets add up to its exports, and the sum of distances from the target falls by exactly twice what is moved |
| Planner.Balancer.TryMatch | src/mds/MDBalancer.cc:559-579 | as much as both sides allow is moved, so one of them is used up |
| Planner.Balancer.MatchSources | src/mds/MDBalancer.cc:786-801 | afterwards the exporter has nothing left or none of the ranks it imported from has room; the transfers added are from it to those ranks |
| Planner.Balancer.MatchFronts | src/mds/MDBalancer.cc:806-836 | the loop ends; all ranks the cursors have passed are used up and the next pair cannot be matched; the transfers follow both lists from the front |
| Planner.LoadMap | src/mds/MDBalancer.cc:707-727 | every rank of the cluster once, in order of load |
| Planner.Separate | src/mds/MDBalancer.cc:757-776 | importers are exactly the ranks below the target, exporters the others, both in order |
| Planner.Balancer.Measure | src/mds/MDBalancer.cc:685-734 | the maps are cleared and the target is the mean load |
| Planner.Balancer.PrepRebalance | src/mds/MDBalancer.cc:683-838 | it acts iff overloaded for long enough; the plan is sound, balanced, and both phases have done all they can: first transfers back to ranks imported from, the most loaded exporter first, then along both lists, each moving as much as both sides then allow |
| Exports.Classify | src/mds/MDBalancer.cc:1330-1368 | a lucky find is the first fragment between the bounds; otherwise the bigger ones are listed in the order visited and the small ones by load, exactly those of a useful size |
| Exports.TakeSmaller | src/mds/MDBalancer.cc:1378-1392 | exactly the biggest ones, biggest first, until enough is found or a size is reached; nothing is taken twice |
| Exports.WithinReach | src/mds/MDBalancer.cc:1315-1320 | what one step may add stays within max(need_max, 1 + need_min) times the amount |
| Exports.Descend | src/mds/MDBalancer.cc:1396-1431 | every bigger fragment is searched, one after the other in the order visited, until there is enough; fragments found in different subtrees do not overlap |
| Exports.FindExports | src/mds/MDBalancer.cc:1309-1434 | what one visit did, in order, for any forest: nothing if little is missing, the first that fits, or the bigger small ones, the unreplicated bigger ones searched, the other small ones and the replicated bigger ones searched, until there is enough; whatever follows, if the whole search ends with too little then nothing useful is left below |
| ExportTree.FindExportsIn | src/mds/MDBalancer.cc:1309-1434 | on any tree: what is added is auth, unfrozen, not exported before, properly below the root, and none contains another; the load found grows by exactly theirs and does not overshoot; a search that ends with too little has taken every considered fragment of a useful size or, if it is bigger than what is missing, searched it, at any depth |
| ExportTree.NoneOverlooked | src/mds/MDBalancer.cc:1309-1434 | then no considered fragment of a useful size, reached through considered bigger ones, is left untaken |
| Caps.DirtyIsGood | src/client/Client.cc:3563-3570 | one reference for dirty state, however often it is dirtied |
| Caps.FlushIsGood | src/client/Client.cc:2800-2807 | a flush of what was dirty, or a repeat, keeps every bit tracked |
| Caps.CleanedIsLast | src/client/Client.cc:4129-4136 | the 16-bit comparison cleans exactly the bits no later flush carried, iff none was sent again a multiple of 2^16 flushes later |
| Caps.RecentDoesNotWrap | src/client/Client.cc:4129-4136 | that is so whenever fewer than 2^16 flushes were sent since |
| Caps.AckIsGood | src/client/Client.cc:4125-4158 | then every dirtied bit is still dirty, flushing or itself acknowledged in a flush sent since, and the reference is exact |
| Caps.AckTakesLast | src/client/Client.cc:4125-4158 | an acknowledgement takes off exactly the bits whose last flush it answers |
| Caps.WrapLosesBit | src/client/Client.cc:4129-4136 | when it wraps a dirtied bit can be lost |
| Caps.ReducedKeeps | src/client/Client.cc:2756-2795 | sending a cap gives up no used bit that is issued, and no used bit being revoked unless it is covered elsewhere or exempt; it adds none |
| Caps.GivesUpExactly | src/client/Client.cc:2774-2795 | a used bit not covered elsewhere is given up iff failures are injected and it is an xattr bit being revoked |
| Caps.InjectionGivesUp | src/client/Client.cc:2774-2790 | a cap that loses a used bit with injection and keeps it without |
| Caps.ReducedCompletes | src/client/Client.cc:2791-2795 | after a send a revocation goes on for exactly the bits still in use |
| CapClient.Client.MarkCapsDirty | src/client/Client.cc:3563-3570 | the bits are dirty and remembered |
| CapClient.CheckInode | src/client/Client.cc:2859-2961 | a round over all servers gives up no used bit, completes every revocation of unused bits and flushes what is dirty unless it may wait; issued bits that are wanted, used or, while mounted, shared (or any cacheable one if something is wanted) stay issued, all others are given back and every server knows what is wanted, unless this may wait; a server with nothing to hear is left alone; sizes are asked for and reported when they must be |
| CapClient.AckCap | src/client/Client.cc:2953-2960 | the auth cap's message carries all that was dirty; num_flushing_caps follows |
| CapClient.Client.CheckCaps | src/client/Client.cc:2859-2961 | the same, with every inode's invariant and num_flushing_caps kept |
| CapClient.Client.Reflush | src/client/Client.cc:3616-3624 | all that is flushing is sent again under a new number; no used bit is given up |
| CapClient.Client.HandleFlushAck | src/client/Client.cc:4125-4158 | exactly the answered bits leave flushing; num_flushing_caps and the reference follow, however late the message |
| CapClient.Client.AddUpdateCap | src/client/Client.cc:3297-3374 | what is offered and used is issued, nothing used is given up, stale offers take nothing away; the cap has the numbers of the offer unless that is stale, it becomes the auth cap exactly if the offer says so and is newer, and a round is made exactly if it offers new bits that another server revokes |
| CapClient.SeqCmpCounts | src/client/Client.cc:3311-3343 | sequence numbers less than half the range apart compare as they were counted, across the 32-bit wrap |
| CapClient.Client.HandleImport | src/client/Client.cc:4031-4050 | what the message grants and is used is issued; exactly the peer's cap goes, and a bit in use is still there iff another server has it or the message grants it |
| CapClient.Client.HandleExport | src/client/Client.cc:4061-4104 | a used bit issued by the exporting server is issued by the peer that takes over; one it was revoking is still there iff another server has it |
| CapClient.ExportGivesUp | src/client/Client.cc:4085-4086 | a bit in use that every export of its only cap gives up |
| CapClient.Client.HandleGrant | src/client/Client.cc:4282-4367 | nothing is held beyond what is granted, bits worth keeping are held, no used bit stops being implemented unless the auth cap has it; a revocation of bits not in use that hold no data is complete at once |
| CapClient.Client.EncodeRelease | src/client/Client.cc:1609-1628 | a release gives up no used and no dirty bit |
| CapClient.Client.TrimCap | src/client/Client.cc:3503-3512 | a cap is trimmed only if the auth cap has every used bit it held |
| CapClient.Client.RemoveSessionCaps | src/client/Client.cc:3429-3455 | exactly the caps of the session go; dirty state is thrown away only with an auth cap, count and reference with it |
| CapRuns.Perform | src/client/Client.cc:3990-4028 | an event happens iff it is allowed; an acknowledgement records its own bits and flush number and a write its bits, and no other event adds to what is acknowledged or dirtied; every event keeps issued within implemented on every cap, exact counts and references |
| CapRuns.Run | src/client/Client.cc:2859-4380 | every step of every sequence of events is one of these |
| CapRuns.NothingLost | src/client/Client.cc:4125-4158 | a bit dirtied before a run is dirty or flushing after it, unless a flush sent after it was last dirtied was acknowledged for it: by an allowed message of the run, or before the run |
| CapRuns.WrittenNotLost | src/client/Client.cc:4125-4158 | what a write of the run dirties stays dirty or flushing until a later message of the run acknowledges it in a flush sent since |
| SnapRealms.Build | src/client/Client.cc:3677-3707 | a context has the greatest sequence number, and each of its own, prior-parent and recent parent snapshots once, newest first |
| SnapRealms.GetContext | src/client/Client.cc:3677-3707 | what is handed out is right and leaves every cached context right |
| SnapRealms.MeanUnique | src/client/Client.cc:3677-3707 | the meaning of a realm is one, however the tree is ranked |
| SnapRealms.MeanFrame | src/client/Client.cc:3708-3725 | what a realm means depends only on itself and its ancestors |
| SnapRealms.Invalidate | src/client/Client.cc:3708-3725 | the queue ends; the realms cleared are closed under children and all at or below the root, and no other cache changes |
| SnapRealms.PutRealm | src/client/Client.cc:3749-3761 | realms go only when nothing refers to them, and the rest of the tree is as it was |
| SnapRealms.AdjustParent | src/client/Client.cc:3763-3778 | the realm hangs below its new parent, links and references agree, and a parent made anew is blank |
| SnapRealms.RerankedRanks | src/client/Client.cc:3763-3778 | a realm can be put below any other that is not at or below it without making a cycle |
| SnapRealms.CycleHasNoRanks | src/client/Client.cc:3763-3778 | and below no other |
| SnapRealms.ClearedIsRight | src/client/Client.cc:3834-3837 | once a changed realm and all below it are cleared, every context still cached is right |
| SnapRealms.RealmCache.UpdateRealm | src/client/Client.cc:3790-3846 | the realm has the entry's parent and, if the entry is newer, its number, its snapshots and its prior and since fields, and else keeps its own; realms an inode holds stay, and the others are as they were or new and blank; every cached context stays right and every reference counted |
| SnapRealms.EntryMeans | src/client/Client.cc:3790-3846 | after a newer entry the realm's context has its snapshots, and those of its parent from its since on |
| SnapRealms.RealmCache.UpdateTrace | src/client/Client.cc:3781-3850 | the entries of a trace are taken over one after the other, up to exactly the first one that would make a cycle |
| SnapRealms.RealmCache.OpenInode | src/client/Client.cc:3324-3329 | an inode with its first capability holds its realm |
| SnapRealms.RealmCache.CloseInode | src/client/Client.cc:3415-3420 | with its last one the realm is let go of, and goes iff no other inode and no child refers to it |
| SnapRealms.RealmCache.GetSnapContext | src/client/Client.cc:3677-3707 | a reader always gets the context that the definition gives |
| RealmRuns.Run | src/client/Client.cc:3677-3846 | in any run of inodes coming and going, traces and reads, from no realms at all, an event happens iff it is allowed and then has its effect, reads give the context of the definition; in every state every cached context is right, every realm an inode holds is there and none is left that nothing refers to |
| RealmRuns.NoneLeft | src/client/Client.cc:3749-3765 | when the last inode has gone, so have all realms |
| RealmRuns.ContextUnique | src/client/Client.cc:3677-3707 | the definition gives a realm exactly one context, whatever the ranking |
| RealmRuns.Witness | src/client/Client.cc:3324-3329 | a realm held, updated and read: its context is exactly 4 and [4, 3, 2], its own snapshots and those of the realm above it |
| PathWalk.Walk | src/client/Client.cc:5070-5138 | the loop ends on every symlink graph and computes POSIX pathname resolution |
| PathWalk.WalkAppend | src/client/Client.cc:5101-5113 | walking a path is walking its first part, following every link, then the rest |
| PathWalk.RewriteIsPosix | src/client/Client.cc:5101-5128 | rewriting the path at a link comes to the same as resolving the link's value first, section 4.13 of POSIX.1-2017 Base Definitions |
| PathWalk.FollowedIsNoLink | src/client/Client.cc:5113-5128 | with followsym the result is never a link |
| PathWalk.LastNotFollowed | src/client/Client.cc:5091-5100 | without it only the last component is not followed |
| FileAttrs.OrderDoesNotMatter | src/client/Client.cc:647-657 | the merged value depends on the set of updates alone |
| FileAttrs.File.UpdateFileBits | src/client/Client.cc:647-708 | size by truncate_seq and times by time_warp_seq are lexicographic maxima while capabilities are held |
| FileAttrs.File.UpdateAll | src/client/Client.cc:647-708 | so they are over any list of updates, ctime included |
| FileAttrs.TwoListeners | src/client/Client.cc:684-708 | two clients that hear the same updates in any order and with any repeats agree |
| ConfigExpand.ParseIsReading | src/common/config.cc:1019-1041 | the variable found at a dollar sign is the only one it can be read as: a non-empty name in braces, or the longest one after it |
| ConfigExpand.SubstIsPlain | src/common/config.cc:1012-1095 | what a text means has no dollar sign left, so expanding again changes nothing |
| ConfigExpand.SubstUnique | src/common/config.cc:978-1103 | the meaning does not depend on how options are ranked |
| ConfigExpand.Config.ExpandMeta | src/common/config.cc:978-1103 | it ends even for cyclic references, and leaves a text alone that it is already expanding; for acyclic ones with all variables known the result is pure substitution; a text that refers to no option has its known variables replaced, and unknown ones and lone dollar signs stay |
| ConfigExpand.Config.ExpandAll | src/common/config.cc:956-969 | whatever order options are visited in, each ends up as what it means |
| DentryKeys.KeyRoundTrip | src/mds/mdstypes.h:632-662 | every key comes back from its text, for any name and snapshot |
| DentryKeys.KeysDiffer | src/mds/mdstypes.h:632-643 | different keys have different texts |
| DentryKeys.LessTotal | src/mds/mdstypes.h:670-678 | keys are totally ordered |
| DentryKeys.LookupIsScan | src/mds/CDir.cc:300-313 | one lower-bound probe finds exactly what a scan would, where same-name intervals are disjoint |

## Left out

- Fragments, inodes, capabilities and realms are numbered values in one mutable field of their class; aliasing of pointers to them is not captured.
- Waiter callbacks other than those of a commit, and the inode freezing used for renames.
- A dentry's own pins are counted with those of the inode it links.
- The authority bit of a fragment does not change during a run of pins and freezes.
- Commit: the branch for unlinked directories, unmarking dentries when a refragmentation is called off, purging of stale snapped dentries other than by a commit, write errors, and reading a fragment in.
- Refragment: times in the statistics (rctime, mtime), which are maxima rather than sums, and the waiters and bloom filters handed over.
- Planner: the random exports of mds_thrash_exports, the Lua balancer, decay of loads; completeness of the plan, which the code does not have.
- Exports: the Lua selector.
- Exports.FindExports: the list, the load found and the set of fragments taken are passed and returned as one value where the code updates them by reference.
- Capabilities: message contents, snapshot flushes beyond their numbers, the session's lists of flushing inodes, waking of waiters, generation counters and I_COMPLETE, inodes of snapshots.
- CapClient.Client.TrimCap: the dentries that trim_caps trims for caps it cannot remove.
- SnapRealms: writing back capabilities before a realm changes; it only reads contexts. A trace that would make a cycle is not followed further, where the code would.
- DentryKeys.Decode: of sscanf it models hexadecimal digits and overflow, not leading blanks, signs or 0x.
- FileAttrs: inline data, and cached data beyond a truncation; truncate_size and, without capabilities, times follow the last update and are stated as such.
- ConfigExpand: the text of the message about an expansion loop; for options that others refer to and that have unknown variables in them only termination and each single replacement are stated, because what is left of such a variable may be read anew.
- PathWalk: permission checks and lookups themselves, which are a parameter.
- POSIX wrappers, data I/O, locking of file positions, admin commands, monitors and messengers: plumbing around the state modelled here.
