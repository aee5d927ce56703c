# NeurDB: verified models of its index, storage and clustering code

This project models, in Dafny, the parts of NeurDB whose correctness is decided
by intricate code, and proves what that code is for:

- **Bloom index** (`BloomRandom`, `BloomSignature`, `BloomPage`, `BloomIndex`,
  `BloomRuns`, `BloomBuild`): signatures and their generator, page layout and
  in-place compaction, and insertion, bulk deletion, cleanup, scans and page
  allocation as concurrent steps at buffer-lock granularity.  The free-space map
  may change arbitrarily at any moment and the list of not-full pages may be
  stale.
- **B-tree verifier** (`BtreeOrder`, `BtreePages`, `BtreeRules`, `BtreeChecker`,
  `BtreeLevelOrder`, `BtreeWalks`, `BtreeTermination`, `BtreeLevelTermination`,
  `BtreeLockstep`, `BtreeTree`, `BtreeExamples`, `BtreeDivergence`): the
  checker's walks on an arbitrary page graph, when they end, and what a check
  that raises no error says about the whole tree.  `BtreeChecker` holds the
  loops over the mutable check state; each is proved to follow a rule in
  `BtreeRules`, and the theorems are about the rules.  Those about a passing
  check take an index in which no deletion was interrupted, that is, without
  half-dead pages; deleted pages waiting to be recycled may lie anywhere.  Those
  about ending take any index.
- **Heap verifier** (`HeapXid`, `HeapChains`, `HeapToast`): transaction id
  widening with a stale cached range, update chains, TOAST chunks.
- **Workload clusterer** (`UnionFind`, `ClusterTables`, `ClusterRules`,
  `ClusterMerging`, `ClusterRuns`, `Clusterer`, `ClusterBarren`,
  `ClusterFruitful`, `ClusterLump`, `ClustererExample`): a class with redundant
  dictionaries and a union-find that must agree in every reachable state.  Each
  of its methods is proved to do what a function of the tables says, up to a
  whole run (`ClusterRuns.RunOf`), and the theorems are about these functions.
- **WAL archiver** (`ArchiveProtocol`, `ArchiveCompare`): a copy-and-rename
  protocol over a file system with volatile and durable state, with a crash or a
  failed call possible at every step, and the chunked file comparison.
- **GIN range scans** (`GinRange`): an early-stopping scan against a filter.
  For the two downward strategies the scan starts at the type's leftmost value,
  so it is a filter exactly if no satisfying key lies below that
  (`ScanIsFilter`).  The types see to it: numbers, money, object ids, dates and
  times, network and hardware addresses and characters start at their least
  value, text, bytea and bit strings at the empty one, and for numeric and
  enums, which have none, the comparator makes room for an artificial one
  (`NumericScan`, `EnumScan`).

`Prelude`, `Iteration`, `Folding` and `CArithmetic` are shared.  The machine integers of
the C code are explicit: 32-bit signed and unsigned values, C's truncating
division, and unsigned wrap-around where the code relies on or falls into it.

Choices the code cannot see are parameters: hash functions (a column value is
its hash), the operator class of an index (an order on ranks), the commit log,
the similarity of two vectors (any function, possibly another one at each call),
how many bytes a read returns, which block the free-space map offers.

## Where the code does not do what is asked of it

- A column seed of `0xFFFFFFFF` or `0x80000001` makes the signature generator
  stick at zero, and each draw is then -1, a negative shift count in C.
  `FirstDrawProper` and `BitIndexInSignature` show these are the only two seeds,
  `DegenerateHashes` that exactly two hashes of every column lead to them; in
  the first column 4294950489 is one (`DegenerateHashOfFirstColumn`).
  The comment at the generator asks for a state in 1..2^31-2; half of all seeds
  violate that, but the reduction is exact for every 32-bit state anyway
  (`Rand`).
- The B-tree check does not always verify root level plus one levels: a first
  downlink of `P_NONE` ends it early without an error (`StopsEarly`).
  `RoundsExact` gives the exact condition.
- A first downlink of `P_NONE` further right on a level makes the check forget
  where it was among the children.  An index whose second root-level page has
  one passes (`SplitPasses`) although a leaf below it is never visited, is not
  in lockstep and holds an item beyond its parent's next key
  (`SplitDisagrees`).  `CheckVerifies` has the exact condition: neighbouring
  levels are in lockstep if and only if no page on the walked parent chain has
  such a first downlink, and then every child lies between its parent's keys.
- A level that passes need not be in order if pages on it are empty: the items
  of the leaves can read 8, 5 (`DisorderPasses`, `DisorderedLevel`), since only
  neighbouring pages are compared.  Levels without empty pages are strictly
  increasing, and under one parent empty pages do no harm (`CheckVerifies`,
  `Siblings`).
- Following right links along the children may never end, since only a return
  to the block the walk started from is noticed: on a tree of six pages the
  whole check runs forever (`CheckDiverges`).  The walk never ends if and only
  if the right links run into a cycle of pages that pass its tests and are not
  the one looked for (`ChildWalkNeverEndsIff`).
- Nor does the search for a live page to the right end if deleted pages link to
  each other (`SearchDiverges`, `SkipNeverEndsIff`).
- The level walk never ends if and only if the right links from its start run
  into a cycle past pages that are half-dead, or live, linked back and accepted,
  none linked to itself, or it comes past such pages to one whose own check
  never ends (`LevelWalkNeverEndsIff`).  There are checks that circle among
  half-dead pages (`HalfDeadDiverges`) and among live and half-dead ones
  (`LiveDiverges`).  Every such cycle has a half-dead page (`CycleShape`), so
  without half-dead pages the walk itself always ends (`LevelWalkEnds`).  A live
  page on the cycle does not mean that the level's first live page is on it
  (`StemDiverges`); that is so if and only if no live page stands before the
  half-dead page at which the walk comes onto the cycle (`CycleShape`).
- The whole check never ends if and only if it comes down to a level whose walk
  does not (`CheckNeverEndsIff`); without half-dead pages, if and only if a page
  it reaches starts one of the two endless walks above (`CheckEndsUnlessStuck`).
- A heap page without reports can hold a cycle of heap-only tuples
  (`CycleUnreported`).  The chains of such a page all end if and only if every
  linked tuple is reached from a line pointer nothing links to (`ChainsEndIff`).
- A toasted value with external size 0 is checked as if it had 2^32 bytes
  (`CompleteSizes`).
- With the default parameters every run of the clusterer ends without any
  cluster: a join or merge leaves a center of a single point, to which nothing
  is similar, so that members leave and no cluster ever has more than two.
  `BarrenIff` says for exactly which parameters no run from an empty clusterer
  leaves a cluster: a minimum size of at least one, and either a similarity
  threshold above one or a positive merge threshold together with a minimum
  size of three or more, or of two where the similarity threshold is positive
  and at most the merge threshold.  For all others a run that leaves one is
  given (`One`, `Joiner`, `CoupleOf`, `Lump`).  What is assumed of the cosine is
  that it is symmetric, at most one, and one between a non-zero vector and
  itself.
- A merge of clusters keeps the data under one id and may make the other the
  union-find root.  `MergedRootsIff` says exactly when; with a minimum cluster
  size of at least one and a positive merge threshold it never happens
  (`ClusterTemplates`).  With a threshold of zero two runs do it
  (`WrongRootRun`), given series with negative similarity; execution counts
  are not negative, so this is about what the class accepts rather than about
  its present caller.

## Model

| member | source | states |
|---|---|---|
| `BloomRandom.Generator.Rand` | dbengine/contrib/bloom/blutils.c:221-246 | for every 32-bit state one draw moves to exactly 16807 times the state modulo 2^31-1, no intermediate leaves int32, and the result is the new state minus one |
| `BloomRandom.Generator.Srand` | dbengine/contrib/bloom/blutils.c:248-254 | seeding leaves one more than the truncated remainder, modulo 2^31-2, of the seed read as a signed value |
| `BloomRandom.SchrageExact` | dbengine/contrib/bloom/blutils.c:233-243 | Schrage's reduced form is congruent to the full product |
| `BloomRandom.SuccessorZero` | dbengine/contrib/bloom/blutils.c:233-243 | a draw gives state zero if and only if the state before was a multiple of the modulus |
| `BloomRandom.ProperForever` | dbengine/contrib/bloom/blutils.c:224-232 | a state in 1..2^31-2 is followed by such states only |
| `BloomRandom.FirstDrawProper` | dbengine/contrib/bloom/blutils.c:248-254 | the first draw enters 1..2^31-2 if and only if the seed is not one of two degenerate ones |
| `BloomSignature.WordsForBits` | dbengine/contrib/bloom/blutils.c:474-491 | the word count is the least that holds the configured bits |
| `BloomSignature.SetBit` | dbengine/contrib/bloom/blutils.c:31-32 | exactly the named bit is added to the signature |
| `BloomSignature.WordInclusion` | dbengine/contrib/bloom/blscan.c:148-155 | one masked word comparison decides inclusion of that word's bits |
| `BloomSignature.StatesProper` | dbengine/contrib/bloom/blutils.c:259-287 | after seeding, every later state is proper, or for the two degenerate seeds zero |
| `BloomSignature.BitIndexInSignature` | dbengine/contrib/bloom/blutils.c:276-286 | every bit number drawn lies in the signature if and only if the seed is not degenerate, and is -1 otherwise |
| `BloomSignature.DegenerateHashes` | dbengine/contrib/bloom/blutils.c:259-275 | exactly two hash values of every column lead to a degenerate seed |
| `BloomSignature.DegenerateHashOfFirstColumn` | dbengine/contrib/bloom/blutils.c:259-275 | hash 4294950489 does so in the first column |
| `BloomSignature.SignValue` | dbengine/contrib/bloom/blutils.c:259-287 | the signature gains exactly the bits that column, hash and options determine; all shifts are defined if and only if the seed is not degenerate |
| `BloomSignature.SignRow` | dbengine/contrib/bloom/blutils.c:292-311 | a row's signature is the union of its non-null columns' bits |
| `BloomSignature.SignKeys` | dbengine/contrib/bloom/blscan.c:90-116 | the scan signature is the union of the keys' bits, and there is none if and only if some key is null |
| `BloomSignature.KeyBitsCovered` | dbengine/contrib/bloom/blscan.c:90-116 | a row equal to the keys in hash, column by column, has a signature that includes the scan's |
| `BloomSignature.Covers` | dbengine/contrib/bloom/blscan.c:146-156 | the word loop accepts an entry if and only if its signature includes the scan's |
| `BloomPage.FreeSpaceExact` | dbengine/contrib/bloom/bloom.h:152-155 | up to capacity the unsigned free-space computation never wraps, and offers an entry's size if and only if the page is below capacity |
| `BloomPage.CapacityPositive` | dbengine/contrib/bloom/bloom.h:152-155 | a page holds between 15 and 1020 entries, whatever the signature length |
| `BloomPage.Page.Init` | dbengine/contrib/bloom/blutils.c:398-408 | an initialised page is empty and not deleted |
| `BloomPage.Page.AddItem` | dbengine/contrib/bloom/blutils.c:317-345 | the entry is appended if and only if there was room, the count is the number of entries, nothing else changes |
| `BloomPage.Page.TryInsert` | dbengine/contrib/bloom/blinsert.c:220-245 | new or deleted pages are reinitialised, full pages are left unchanged, otherwise the entry is appended |
| `BloomPage.Page.Compact` | dbengine/contrib/bloom/blvacuum.c:85-107 | the in-place two-pointer loop is a stable filter and leaves the count of the survivors |
| `BloomPage.Page.BulkDelete` | dbengine/contrib/bloom/blvacuum.c:77-139 | the page becomes its vacuumed image, the removed entries are counted, and it is reported not full if and only if it is live, non-empty and has room |
| `BloomIndex.BuiltIndexOk` | dbengine/contrib/bloom/blinsert.c:120-158 | a freshly built index satisfies the invariant of the protocol |
| `BloomIndex.StepKeepsInv` | dbengine/contrib/bloom/blinsert.c:173-341 | every step of every backend, under every interleaving, keeps the invariant: locks, list bounds, page validity, and that a held page has nothing to lose |
| `BloomIndex.TryFirstKeepsInv` | dbengine/contrib/bloom/blinsert.c:198-245 | trying a candidate after dropping the metapage lock keeps the invariant |
| `BloomIndex.TryNextKeepsInv` | dbengine/contrib/bloom/blinsert.c:256-309 | trying the listed pages under the metapage lock keeps the invariant |
| `BloomIndex.GetFreeKeepsInv` | dbengine/contrib/bloom/blutils.c:352-393 | taking a page the free-space map offers, fresh or stale, keeps the invariant |
| `BloomIndex.FinishKeepsInv` | dbengine/contrib/bloom/blinsert.c:311-341 | initialising the allocated page and resetting the list to it keeps the invariant |
| `BloomIndex.VacuumPageKeepsInv` | dbengine/contrib/bloom/blvacuum.c:57-139 | a page visit of a bulk deletion keeps the invariant |
| `BloomIndex.VacuumMetaKeepsInv` | dbengine/contrib/bloom/blvacuum.c:141-158 | installing the rebuilt list keeps the invariant |
| `BloomIndex.CleanupKeepsInv` | dbengine/contrib/bloom/blvacuum.c:168-217 | cleanup keeps the invariant |
| `BloomRuns.StepRefinesBag` | dbengine/contrib/bloom/blinsert.c:173-341 | every step refines a bag of entries: a completing insertion adds its one entry, a visit of a bulk deletion removes exactly the accepted entries of that page, anything else changes nothing |
| `BloomRuns.RunConserves` | dbengine/contrib/bloom/blinsert.c:173-341 | over every run, entries now plus entries removed equal entries before plus entries added |
| `BloomRuns.InsertExactlyOnce` | dbengine/contrib/bloom/blinsert.c:173-341 | an insertion has added its entry exactly once if done and not at all otherwise, however often it retried |
| `BloomRuns.EntryStays` | dbengine/contrib/bloom/blvacuum.c:85-139 | an entry stays on its page until a bulk deletion accepts it there; reinitialisation never discards one |
| `BloomRuns.EntryAppears` | dbengine/contrib/bloom/blinsert.c:210-341 | an entry appears on a page only by a completing insertion |
| `BloomRuns.VacuumComplete` | dbengine/contrib/bloom/blvacuum.c:50-65 | a finished bulk deletion leaves no accepted entry anywhere, concurrently added pages included, unless one was inserted meanwhile |
| `BloomRuns.NotFullListed` | dbengine/contrib/bloom/blvacuum.c:113-120 | a visited page joins the rebuilt list if and only if its visit left it partly filled and the list has space; the list is strictly increasing |
| `BloomRuns.ScanFindsEntry` | dbengine/contrib/bloom/blscan.c:124-172 | a scan returns every covered entry that was there when it began and was not bulk-deleted |
| `BloomRuns.NoFalseNegatives` | dbengine/contrib/bloom/blscan.c:80-172 | end to end: a row indexed before the scan and not removed during it is returned if it agrees with every key in hash |
| `BloomRuns.ScanVisitSound` | dbengine/contrib/bloom/blscan.c:142-163 | a page visit returns exactly the pointers of covered entries |
| `BloomRuns.ScanSound` | dbengine/contrib/bloom/blscan.c:124-172 | over every run, each pointer a scan returns was that of a covered entry on some page at some step |
| `BloomBuild.BuildState.Add` | dbengine/contrib/bloom/blinsert.c:73-115 | the callback appends one entry to what the build has taken, flushing a full page first |
| `BloomBuild.Build` | dbengine/contrib/bloom/blinsert.c:120-158 | the built pages hold exactly the rows' entries in order; all but the last are full, none is empty |
| `BloomBuild.BuiltCount` | dbengine/contrib/bloom/blinsert.c:120-158 | a freshly built index holds every entry as often as the rows gave it |
| `BloomBuild.RunFromBuild` | dbengine/contrib/bloom/blinsert.c:120-341 | every run from a freshly built index keeps the invariant, and an entry's occurrences then, plus those removed, are those in the heap rows plus those inserted |
| `BloomBuild.ScanPage` | dbengine/contrib/bloom/blscan.c:142-163 | the page loop returns the pointers of the covered entries in page order and counts them |
| `BtreeOrder.InvariantLExact` | dbengine/contrib/amcheck/verify_nbtree.c:2900-2951 | the strict test, on target and non-target pages alike, decides exactly the lexicographic order of keys padded with minus infinity, heap TID last |
| `BtreeOrder.InvariantGExact` | dbengine/contrib/amcheck/verify_nbtree.c:2963-3008 | the "greater" test holds if and only if the key is above the item's highest heap TID; the "less or equal" test is its negation |
| `BtreeOrder.InvariantGAgainstLowest` | dbengine/contrib/amcheck/verify_nbtree.c:2986-3008 | against the lowest heap TID the "greater" test is sound, and exact except within a posting list's range |
| `BtreeOrder.FirstDifference` | dbengine/src/backend/access/nbtree/nbtsearch.c:712-758 | the column loop stops at the first differing padded column and its sign is the order there |
| `BtreeOrder.LessTransitive` | dbengine/contrib/amcheck/verify_nbtree.c:2900-2951 | the order of padded keys is transitive |
| `BtreeOrder.LessAsymmetric` | dbengine/contrib/amcheck/verify_nbtree.c:2900-2951 | it is strict: never both ways, never between equal keys |
| `BtreeOrder.LessTotal` | dbengine/contrib/amcheck/verify_nbtree.c:2900-2951 | it is total: keys that are not ordered agree in every padded column |
| `BtreePages.LeftmostIgnoringHalfDead` | dbengine/contrib/amcheck/verify_nbtree.c:933-985 | the walk ends on every page graph; it accepts if and only if a back-linked chain of half-dead pages reaches the left end, and fails if and only if it comes to an unreadable page |
| `BtreePages.ChainDistinct` | dbengine/contrib/amcheck/verify_nbtree.c:933-985 | that walk never passes a block twice |
| `BtreeChecker.BtreeCheckState.RightPageCheckScankey` | dbengine/contrib/amcheck/verify_nbtree.c:1658-1858 | the key comes from the first live page to the right, if it has a real item |
| `BtreeChecker.BtreeCheckState.DownlinkMissingCheck` | dbengine/contrib/amcheck/verify_nbtree.c:2349-2515 | a missing downlink is excused for the root, after an unfinished split, or above a half-dead leaf that names the page as top parent |
| `BtreeChecker.BtreeCheckState.ChildHighkeyCheck` | dbengine/contrib/amcheck/verify_nbtree.c:1937-2169 | the loop follows the child walk's rule: same verdict, same connectivity state left behind |
| `BtreeChecker.BtreeCheckState.LowerBoundCheck` | dbengine/contrib/amcheck/verify_nbtree.c:2292-2331 | accepts if and only if the parent key is strictly below every real item of the child |
| `BtreeChecker.BtreeCheckState.ChildCheck` | dbengine/contrib/amcheck/verify_nbtree.c:2184-2334 | the child check follows its rule |
| `BtreeChecker.BtreeCheckState.PostingListCheck` | dbengine/contrib/amcheck/verify_nbtree.c:1313-1344 | accepts if and only if the posting list strictly increases |
| `BtreeChecker.BtreeCheckState.TargetPageCheck` | dbengine/contrib/amcheck/verify_nbtree.c:1159-1640 | the page check follows its rule, item by item and with the final call of a level |
| `BtreeChecker.BtreeCheckState.CheckLevelFromLeftmost` | dbengine/contrib/amcheck/verify_nbtree.c:700-925 | the level walk follows its rule and hands down the same next level |
| `BtreeChecker.BtreeCheckState.CheckEveryLevel` | dbengine/contrib/amcheck/verify_nbtree.c:589-612 | the whole check follows its rule; without an error it has verified at most root level plus one levels, exactly so many if and only if no first downlink on the way down is P_NONE, and without half-dead pages the tree is as `CheckVerifies` says |
| `BtreeLevelOrder.AcceptedItems` | dbengine/contrib/amcheck/verify_nbtree.c:1205-1624 | an accepted page passed every per-item test |
| `BtreeLevelOrder.PageIncreasing` | dbengine/contrib/amcheck/verify_nbtree.c:1505-1555 | any two items of an accepted page are strictly ordered by position |
| `BtreeLevelOrder.AcrossPages` | dbengine/contrib/amcheck/verify_nbtree.c:1557-1608 | the last item of an accepted page is strictly below the first of the page to its right |
| `BtreeLevelOrder.LevelStrictlyIncreasing` | dbengine/contrib/amcheck/verify_nbtree.c:1205-1624 | if every page of a right-link chain is live, non-empty and accepted, all its items strictly increase by key and lowest heap TID |
| `BtreeWalks.LevelWalkOnce` | dbengine/contrib/amcheck/verify_nbtree.c:727-912 | without half-dead pages a passing level walk goes once through the right links to the end, never to a block twice, and accepts every page on it |
| `BtreeWalks.WalkedIncreasing` | dbengine/contrib/amcheck/verify_nbtree.c:700-925 | if no page on a walked level is empty, the level is strictly increasing as a whole |
| `BtreeWalks.LevelHandsDown` | dbengine/contrib/amcheck/verify_nbtree.c:748-835 | a passing level hands down the first downlink of its first live page, which is never an invalid block |
| `BtreeWalks.RoundsExact` | dbengine/contrib/amcheck/verify_nbtree.c:589-612 | a check without error verifies at most root level plus one levels, and exactly so many if and only if no first downlink on the way down is P_NONE |
| `BtreeTermination.ChildWalkNeverEndsIff` | dbengine/contrib/amcheck/verify_nbtree.c:1983-2168 | the walk along the children never ends if and only if the right links from its start run into a cycle of pages that pass its tests and of which none is looked for; one iteration per state of a page decides |
| `BtreeTermination.ChildWalkEnds` | dbengine/contrib/amcheck/verify_nbtree.c:1983-2168 | it ends if the right links from its start lead to the end of the level |
| `BtreeTermination.SkipNeverEndsIff` | dbengine/contrib/amcheck/verify_nbtree.c:1699-1726 | the search for a live page to the right never ends if and only if it comes to a block twice, and as many iterations as there are pages decide |
| `BtreeTermination.PageNeverEndsIff` | dbengine/contrib/amcheck/verify_nbtree.c:1159-1640 | the check of a page never ends if and only if at one of its offsets, all before it having passed, a walk along the children runs into a cycle or a search to the right comes to a block twice |
| `BtreeLevelTermination.LevelWalkNeverEndsIff` | dbengine/contrib/amcheck/verify_nbtree.c:727-912 | the level walk never ends if and only if the right links from its start run into a cycle past pages that are half-dead, or live, linked back and accepted, none linked to itself, or it comes past such pages to one whose own check never ends |
| `BtreeLevelTermination.CycleShape` | dbengine/contrib/amcheck/verify_nbtree.c:727-912 | such a cycle has a half-dead page; the walk starts on it or comes onto it at a half-dead page; a page of the walk is on the cycle if and only if it does not stand before that one |
| `BtreeLevelTermination.LevelWalkEnds` | dbengine/contrib/amcheck/verify_nbtree.c:727-912 | without half-dead pages the level walk never ends if and only if it comes past live, accepted pages to one whose own check never ends |
| `BtreeLevelTermination.CheckNeverEndsIff` | dbengine/contrib/amcheck/verify_nbtree.c:589-612 | the whole check never ends if and only if it comes down, through levels that pass, to one whose walk never ends; a larger number of iterations than there are states changes no outcome |
| `BtreeLevelTermination.CheckEndsUnlessStuck` | dbengine/contrib/amcheck/verify_nbtree.c:589-612 | without half-dead pages the whole check never ends if and only if it reaches a page that starts a walk along the children that runs into a cycle or a search to the right that comes to a block twice |
| `BtreeDivergence.CheckDiverges` | dbengine/contrib/amcheck/verify_nbtree.c:2032-2038 | a whole check that runs forever along a cycle of unfinished splits that avoids the block its walk started from |
| `BtreeDivergence.HalfDeadDiverges` | dbengine/contrib/amcheck/verify_nbtree.c:727-912 | a whole check that runs forever around two half-dead pages linking to each other |
| `BtreeDivergence.LiveDiverges` | dbengine/contrib/amcheck/verify_nbtree.c:837-846 | a whole check that runs forever around a live and a half-dead page linking to each other, the live one passing again and again |
| `BtreeDivergence.StemDiverges` | dbengine/contrib/amcheck/verify_nbtree.c:837-846 | a whole check that runs forever around a live and a half-dead page while the first live page of the level is not on the cycle |
| `BtreeDivergence.SearchDiverges` | dbengine/contrib/amcheck/verify_nbtree.c:1699-1726 | a whole check, without half-dead pages, that runs forever over two deleted pages linking to each other |
| `BtreeExamples.StopsEarly` | dbengine/contrib/amcheck/verify_nbtree.c:592-612 | an internal root whose only downlink is P_NONE passes after one round |
| `BtreeExamples.SplitPasses` | dbengine/contrib/amcheck/verify_nbtree.c:1983-1994 | the check passes a two-level index in which a parent other than the first has P_NONE as its first downlink |
| `BtreeExamples.SplitDisagrees` | dbengine/contrib/amcheck/verify_nbtree.c:1983-1994 | that index is not in lockstep, and a leaf below the parent holds an item beyond the next parent key |
| `BtreeExamples.DisorderPasses` | dbengine/contrib/amcheck/verify_nbtree.c:1557-1608 | the check passes a two-level index with an empty leaf before the second parent's first child |
| `BtreeExamples.DisorderedLevel` | dbengine/contrib/amcheck/verify_nbtree.c:1557-1608 | the items of that index's leaves are not in order, although it has no half-dead page and no P_NONE first downlink |
| `BtreeLockstep.NoInterruptedDeletion` | dbengine/contrib/amcheck/verify_nbtree.c:2349-2515 | without half-dead pages only a root flag or an unfinished split excuses a missing downlink |
| `BtreeLockstep.WalkAlong` | dbengine/contrib/amcheck/verify_nbtree.c:1983-2168 | from any child position the walk stops at the downlink it looks for, and every page it steps over is flagged as root or follows an unfinished split |
| `BtreeLockstep.OffsetsFollowed` | dbengine/contrib/amcheck/verify_nbtree.c:1205-1640 | a passing parent page meets its downlinks in order among the children |
| `BtreeLockstep.Lockstep` | dbengine/contrib/amcheck/verify_nbtree.c:1937-2169 | if no walked parent page has P_NONE as its first downlink, the children meet the parents' downlinks in exactly parent order, and any child without a downlink is flagged as root or directly follows a page whose split is unfinished |
| `BtreeLockstep.LockstepNeedsLinks` | dbengine/contrib/amcheck/verify_nbtree.c:1983-1994 | the converse: levels in lockstep have no such first downlink |
| `BtreeTree.ChildHighKey` | dbengine/contrib/amcheck/verify_nbtree.c:2052-2151 | a finished, non-rightmost child's high key equals the parent key right of its downlink |
| `BtreeTree.BoundedByHighKey` | dbengine/contrib/amcheck/verify_nbtree.c:1481-1503 | items of an accepted page are at most its high key on leaves, strictly below it on internal pages |
| `BtreeTree.AboveDownlink` | dbengine/contrib/amcheck/verify_nbtree.c:2292-2331 | a downlink's key is strictly below every real item of its child |
| `BtreeTree.Sandwich` | dbengine/contrib/amcheck/verify_nbtree.c:2184-2334 | between accepted pages, every real item of a finished, non-rightmost child lies strictly above its downlink's key and at most at, on internal pages below, the next parent key |
| `BtreeTree.Siblings` | dbengine/contrib/amcheck/verify_nbtree.c:2184-2334 | of two children of an accepted parent, the left one finished and not rightmost, every item of the left is below every item of the right, whatever stands between them |
| `BtreeTree.CheckVerifies` | dbengine/contrib/amcheck/verify_nbtree.c:589-612 | a check that passes without half-dead pages has walked, on each level it verified, a complete chain of accepted pages, each once, strictly increasing where none is empty; neighbouring levels are in lockstep if and only if no walked parent has P_NONE as its first downlink; every child walked lies between its parent's keys and, if finished and not rightmost, below its siblings to the right, and under that condition every child lies between its parent's keys |
| `HeapXid.WidenExact` | dbengine/contrib/amcheck/verify_heapam.c:1880-1917 | widening a 32-bit id recovers every id less than 2^31 from the cached next id |
| `HeapXid.WidenMonotone` | dbengine/contrib/amcheck/verify_heapam.c:1880-1917 | widening preserves order there |
| `HeapXid.WidenClamps` | dbengine/contrib/amcheck/verify_heapam.c:1880-1917 | an id from before epoch zero becomes the first normal id |
| `HeapXid.Context.UpdateCachedRange` | dbengine/contrib/amcheck/verify_heapam.c:1919-1935 | the cached range becomes the widened shared counters |
| `HeapXid.Context.GetXidStatus` | dbengine/contrib/amcheck/verify_heapam.c:2014-2082 | verdict and refreshed range as specified; a status is given if and only if the id is in bounds, and the one-entry status cache is used and filled |
| `HeapXid.VerdictExact` | dbengine/contrib/amcheck/verify_heapam.c:2014-2053 | with all ids in one window of 2^31, an id passes if and only if it is in the stale or the current range and not before relfrozenxid; accepted ids lie in the range then cached |
| `HeapXid.CheckAll` | dbengine/contrib/amcheck/verify_heapam.c:394-401 | over a whole scan with moving counters every verdict is justified: no id in range at its call is reported |
| `HeapChains.CheckPage` | dbengine/contrib/amcheck/verify_heapam.c:444-776 | the three page loops report nothing if and only if pointers, links, injectivity of links and roots are all in order |
| `HeapChains.CheckPointers` | dbengine/contrib/amcheck/verify_heapam.c:444-573 | the first loop fills the successor and validity arrays and reports nothing if and only if every line pointer is in order |
| `HeapChains.CheckLinks` | dbengine/contrib/amcheck/verify_heapam.c:579-744 | the second loop records predecessors and reports nothing if and only if every link is in order and no two share a successor |
| `HeapChains.CheckRoots` | dbengine/contrib/amcheck/verify_heapam.c:753-776 | the third loop reports nothing if and only if no heap-only tuple known alive lacks a predecessor |
| `HeapChains.UnreportedPage` | dbengine/contrib/amcheck/verify_heapam.c:444-776 | an unreported page has injective links, matching HOT flags, redirects to heap-only tuples, and exactly one predecessor for each heap-only tuple known alive |
| `HeapChains.CycleUnreported` | dbengine/contrib/amcheck/verify_heapam.c:579-776 | two heap-only tuples succeeding each other go unreported |
| `HeapChains.ChainsEndIff` | dbengine/contrib/amcheck/verify_heapam.c:579-776 | where no two links share a successor, all chains end if and only if every linked tuple is reached from a line pointer nothing links to |
| `HeapToast.CheckToastTuple` | dbengine/contrib/amcheck/verify_heapam.c:1457-1541 | one chunk is unreported if and only if it has the expected number, is not beyond the last and has the expected size |
| `HeapToast.CheckToastedAttribute` | dbengine/contrib/amcheck/verify_heapam.c:1763-1814 | a scan yields no report if and only if the chunks are complete: numbered from zero to the last, in order, of the right sizes |
| `HeapToast.CompleteSizes` | dbengine/contrib/amcheck/verify_heapam.c:1457-1541 | complete chunks sum to exactly the external size, and to 2^32 for external size zero |
| `UnionFind.Root` | aiengine/workload_forecast/src/workload_clusterer.py:437-441 | climbing parent links ends, because ranks increase, at an id that is its own parent |
| `UnionFind.CompressKeepsRoots` | aiengine/workload_forecast/src/workload_clusterer.py:437-441 | path compression changes no representative |
| `UnionFind.CompressSound` | aiengine/workload_forecast/src/workload_clusterer.py:437-441 | a whole search with compression leaves a forest over the same ids with the same representatives |
| `UnionFind.LinkIsForest` | aiengine/workload_forecast/src/workload_clusterer.py:395-435 | union by rank keeps ranks increasing along parent links |
| `UnionFind.LinkRoots` | aiengine/workload_forecast/src/workload_clusterer.py:395-435 | a union joins exactly the two classes |
| `ClusterTables.CreatedConsistent` | aiengine/workload_forecast/src/workload_clusterer.py:283-314 | creating a cluster keeps all tables consistent |
| `ClusterTables.JoinedConsistent` | aiengine/workload_forecast/src/workload_clusterer.py:238-251 | adding a template keeps them consistent |
| `ClusterTables.DepartedConsistent` | aiengine/workload_forecast/src/workload_clusterer.py:350-365 | removing a template keeps them consistent |
| `ClusterTables.DroppedConsistent` | aiengine/workload_forecast/src/workload_clusterer.py:459-477 | removing a cluster keeps them consistent |
| `ClusterTables.MergedConsistent` | aiengine/workload_forecast/src/workload_clusterer.py:395-435 | merging two roots keeps them consistent, moves every template and drops exactly the second cluster |
| `ClusterTables.MergedRootsIff` | aiengine/workload_forecast/src/workload_clusterer.py:395-435 | after a merge every live cluster is its own root if and only if the cluster that keeps the data did not have the lower rank |
| `ClusterRules.BestOf` | aiengine/workload_forecast/src/workload_clusterer.py:156-175 | the choice is an eligible id of highest score, or none if none is eligible |
| `ClusterRules.ShortSeries` | aiengine/workload_forecast/src/workload_clusterer.py:177-210 | a series of fewer than three points has similarity zero to everything |
| `Clusterer.OnlineWorkloadClusterer.UpdateCenter` | aiengine/workload_forecast/src/workload_clusterer.py:253-281 | the center becomes one point at the current time, unless the cluster is empty |
| `Clusterer.OnlineWorkloadClusterer.AddTemplate` | aiengine/workload_forecast/src/workload_clusterer.py:238-251 | all tables become those of the join |
| `Clusterer.OnlineWorkloadClusterer.CreateCluster` | aiengine/workload_forecast/src/workload_clusterer.py:283-314 | all tables become those of the creation, under a new id |
| `Clusterer.OnlineWorkloadClusterer.RemoveTemplate` | aiengine/workload_forecast/src/workload_clusterer.py:350-365 | all tables become those of the departure |
| `Clusterer.OnlineWorkloadClusterer.RemoveCluster` | aiengine/workload_forecast/src/workload_clusterer.py:459-477 | all tables become those without the cluster |
| `Clusterer.OnlineWorkloadClusterer.Find` | aiengine/workload_forecast/src/workload_clusterer.py:437-441 | the recursive find ends, returns the representative, leaves every id it climbed pointing at it and changes no representative |
| `Clusterer.OnlineWorkloadClusterer.MergeClusters` | aiengine/workload_forecast/src/workload_clusterer.py:395-435 | merging does to the tables what its function says, keeps them consistent and fails if and only if a root has no cluster; two live roots are merged exactly |
| `Clusterer.OnlineWorkloadClusterer.AssignTemplates` | aiengine/workload_forecast/src/workload_clusterer.py:110-137 | the assignments are made one after the other; afterwards every valid template has a cluster and no assignment was changed |
| `Clusterer.OnlineWorkloadClusterer.AssignTemplate` | aiengine/workload_forecast/src/workload_clusterer.py:117-135 | an assigned template stays, another joins a most similar cluster of at least threshold similarity, or founds one if and only if there is none |
| `Clusterer.OnlineWorkloadClusterer.CheckDepartures` | aiengine/workload_forecast/src/workload_clusterer.py:324-348 | exactly the templates too dissimilar from their center leave, and no cluster gains a member |
| `Clusterer.OnlineWorkloadClusterer.CheckMergers` | aiengine/workload_forecast/src/workload_clusterer.py:367-376 | the pairs are taken in the order of the double loop until a lookup fails; the tables stay consistent and, with a positive threshold, no lookup fails and live clusters stay roots |
| `Clusterer.OnlineWorkloadClusterer.CheckPair` | aiengine/workload_forecast/src/workload_clusterer.py:371-376 | a pair below the merge threshold changes nothing, any other is merged as the merge function says, and the tables stay consistent |
| `Clusterer.OnlineWorkloadClusterer.ManageClusters` | aiengine/workload_forecast/src/workload_clusterer.py:443-457 | phase 3 keeps exactly the clusters of minimum size, their members unchanged, and refreshes their centers |
| `Clusterer.OnlineWorkloadClusterer.FilterValid` | aiengine/workload_forecast/src/workload_clusterer.py:139-154 | exactly the series with two points, two of them recent, are kept, in order and with their recent points only |
| `Clusterer.OnlineWorkloadClusterer.ClusterTemplates` | aiengine/workload_forecast/src/workload_clusterer.py:74-108 | a run does to the tables what the run function says, keeps them consistent and ids unused twice, and leaves every cluster at minimum size; with safe parameters it cannot fail and every live cluster stays its own root; with barren ones it leaves no cluster |
| `ClusterRules.MergeSafe` | aiengine/workload_forecast/src/workload_clusterer.py:367-435 | two clusters that can be merged are of the same run, and the earlier one keeps both the data and the root |
| `ClusterRules.PlacedThin` | aiengine/workload_forecast/src/workload_clusterer.py:117-135 | placing a template leaves no cluster with more than two members, nor one with two and a center of more than one point |
| `ClusterRules.MergedThin` | aiengine/workload_forecast/src/workload_clusterer.py:395-435 | nor does a merge of clusters that have such centers |
| `ClusterRules.DepartedAllThin` | aiengine/workload_forecast/src/workload_clusterer.py:324-365 | nor do departures |
| `ClusterMerging.MergersSafe` | aiengine/workload_forecast/src/workload_clusterer.py:367-376 | where live clusters are roots and those that can be merged are unranked, a positive threshold makes no lookup of the merge phase fail |
| `ClusterRuns.RunSound` | aiengine/workload_forecast/src/workload_clusterer.py:74-108 | every run keeps the tables consistent, never reuses an id and, unless it fails, leaves no cluster below the minimum size |
| `ClusterRuns.RunSafe` | aiengine/workload_forecast/src/workload_clusterer.py:74-108 | with safe parameters no run fails, and between runs every live cluster is its own root with a center of at most two points |
| `ClusterBarren.BarrenRun` | aiengine/workload_forecast/src/workload_clusterer.py:26-108 | with barren parameters a run from an empty clusterer leaves it empty |
| `ClusterFruitful.One` | aiengine/workload_forecast/src/workload_clusterer.py:110-137 | with a minimum size below two, and a similarity threshold of at most one unless the minimum is below one, a run on one template leaves a cluster |
| `ClusterFruitful.Joiner` | aiengine/workload_forecast/src/workload_clusterer.py:324-348 | with minimum size two and a similarity threshold of at most zero, a run on two like templates leaves a cluster |
| `ClusterFruitful.CoupleOf` | aiengine/workload_forecast/src/workload_clusterer.py:367-376 | with minimum size two, a run on any two templates too unlike to join but similar enough to merge leaves a cluster |
| `ClusterLump.Lump` | aiengine/workload_forecast/src/workload_clusterer.py:367-435 | with a merge threshold of at most zero, a run on as many templates as the minimum size asks for, active at different times, merges them into one cluster and keeps it |
| `ClusterLump.BarrenIff` | aiengine/workload_forecast/src/workload_clusterer.py:26-108 | no run from an empty clusterer leaves a cluster, whatever the workload, time and similarities, if and only if the parameters are barren |
| `ClustererExample.WrongRootRun` | aiengine/workload_forecast/src/workload_clusterer.py:74-108 | with merge threshold zero, a run on three series of negative and zero cosine and a second run without series leave the data under an id that is not the root of its class |
| `ArchiveCompare.Fill` | dbengine/contrib/basic_archive/basic_archive.c:344-368 | under every schedule of short reads a buffer is filled completely or to the end of the file |
| `ArchiveCompare.CompareFiles` | dbengine/contrib/basic_archive/basic_archive.c:322-396 | unless a read fails, the answer is whether the contents are equal |
| `ArchiveProtocol.StepKeepsInv` | dbengine/contrib/basic_archive/basic_archive.c:240-315 | every system call, every failure of one and a crash at any point keep the invariant |
| `ArchiveProtocol.DestinationUntouched` | dbengine/contrib/basic_archive/basic_archive.c:240-315 | short of a crash an existing destination is never replaced or written |
| `ArchiveProtocol.DurableForever` | dbengine/src/backend/storage/file/fd.c:736-808 | a durable identical copy stays so, crashes included |
| `ArchiveProtocol.AbsentOrIdentical` | dbengine/contrib/basic_archive/basic_archive.c:240-315 | over every run with crashes and retries the destination is absent or identical to the source, and success means a durable identical copy |
| `ArchiveProtocol.RetrySucceedsIff` | dbengine/contrib/basic_archive/basic_archive.c:240-315 | after any crash or failure a retry can succeed if and only if the destination is absent or identical |
| `GinRange.FindItem` | dbengine/src/backend/access/gin/ginget.c:354-365 | the first key at or above the starting key |
| `GinRange.Collect` | dbengine/src/backend/access/gin/ginget.c:121-208 | matching on zero, skipping on negative and stopping on positive is a filter when nothing wanted follows a stop |
| `GinRange.Scan` | dbengine/contrib/btree_gin/btree_gin.c:55-171 | a scan returns the satisfying keys at or above its starting point, in order; an unknown strategy is an error |
| `GinRange.ComparePrefixMeaning` | dbengine/contrib/btree_gin/btree_gin.c:108-171 | from the starting point on, zero means found and positive means past the end of the range |
| `GinRange.ScanIsFilter` | dbengine/contrib/btree_gin/btree_gin.c:55-171 | the scan equals the plain filter if and only if no satisfying key lies below the leftmost value |
| `GinRange.NumericOrder` | dbengine/contrib/btree_gin/btree_gin.c:397-424 | the numeric comparator with an artificial leftmost value is a total order with that least element |
| `GinRange.EnumOrder` | dbengine/contrib/btree_gin/btree_gin.c:446-473 | the same for enums with the invalid object id as least element |
| `GinRange.NumericScan` | dbengine/contrib/btree_gin/btree_gin.c:397-432 | a numeric scan returns exactly the satisfying keys, for every recognized strategy |
| `GinRange.EnumScan` | dbengine/contrib/btree_gin/btree_gin.c:446-481 | an enum scan returns exactly the satisfying keys, for every recognized strategy |

## Left out

- The buffer manager, WAL records, memory contexts, catalog and syscache lookups and option parsing; only atomic page updates, locks and option bounds are modelled.
- The forecasting, advising and serving code of the AI engine, the query templatizer and the remaining contrib modules: plumbing, model training, floating-point scores or thin wrappers.
- B-tree verification without the share lock, the fingerprinting of heap tuples, and independent descents from the root.
- Indexes upgraded from before heap TIDs became key columns, tuple sizes and line-pointer storage checks of the B-tree verifier; all line pointers are valid, and looking up an offset a page does not have, or the key at offset zero, is a rejection.
- A downlink to block zero that is followed makes the B-tree verifier read the metapage as a tree page; here it is a rejection, except where the code stops at it as P_NONE.
- A fully deleted page in the old format that the downlink-missing descent meets with level zero is a rejection here.
- Which posting lists of neighbouring items overlap: the item order test compares lowest heap TIDs only.
- That search in a checked B-tree finds every tuple: the checks made under the share lock alone do not establish it.
- CheckVerifies: says nothing of an index with half-dead pages, where the check skips pages on its way and may not even end.
- The per-tuple checks of the heap verifier are a parameter of the page loops; multixact ranges are not modelled.
- Removing a bloom entry and inserting an accepted one during the same bulk deletion is excluded from VacuumComplete, as such an entry may rightly stay.
- Cleanup statistics beyond the counts it keeps, cost estimates and validation of the bloom operator classes.
- BarrenIff: ranges over all functions with the three stated properties of a cosine; that there are vectors whose cosine lies between any two thresholds is not proved, `CoupleOf` takes such vectors as given.
- The similarity history, vector cache, cluster totals, snapshots and saved state of the clusterer; none of them influences assignments.
- Reading and syncing an existing rename target, directory checks and error reporting of the archiver; a failed call ends the attempt.
