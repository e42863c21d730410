# Verified models of the libzvbi cores

This project models six stateful cores of the VBI decoding library and proves what they keep over
all runs. Every core has two layers: values with functions on them, about which the lemmas speak,
and classes whose methods update fields, arrays and linked objects in place as the C code does and
are proved to do what the functions say.

* **Teletext page cache** (`src/cache.c`, `src/dlist.h`, `src/cache-priv.h`). `CacheState` has the
  state of the cache as a value: pages and networks with their records, the `priority` and
  `referenced` lists, the list of networks and one most-recently-used list of all pages, which the
  113 hash chains divide. `CacheProofs`, `CacheEviction`, `CacheOperations`, `CacheSearch`,
  `CachePut`, `CacheVersions`, `CacheChains`, `CacheForeach`, `CacheOrder`, `CacheRuns` and
  `CacheLedger` have the proofs,
  `CacheExamples` the states in which an apparent promise fails, `Cache` the class. The struct sizes
  are parameters. `DList` proves the ring lists themselves, pointer by pointer.
* **EIA 608 caption decoder** (`src/cc608_decoder.c`). `CaptionState` says what each command does to
  the rows of a channel and which channel a byte pair is for; `CaptionProofs` and `CaptionRuns` have
  the invariant and the laws, `CaptionCodes` the effect of each byte pair, `CaptionLoading` a whole
  pop-on caption, `CaptionScreen` the array of cells with its overlapping copies,
  `CaptionChannel` and `Caption` the classes, `CaptionFormat` the formatting of rows.
* **VBI proxy daemon** (`daemon/proxyd.c`). `ProxyQueueState` and `ProxyQueue` are the shared frame
  queue, which `ProxyQueueRuns` compares with private ones over whole runs, `ProxyTokenState`,
  `ProxyTokenMessages` and `ProxyToken` the channel token.
* **ATSC stream code** (`contrib/atsc-cc.c`). `PacketRing` is the ring between two threads, with one
  step for each access to shared data; `StartCodeScanner` the search for MPEG start codes; `Crc` the
  table-driven CRC.
* **Video recorder** (`examples/pdc2.c`). `Recorder` is the state machine of EN 300 231, with its
  schedule, timer control and delayed stop. Each assertion of the program is an assertion there.
* **BCD arithmetic** (`src/bcd.h`). `Bcd` proves the three bit tricks, on words whose bitwise
  operators are defined in `Bits`.

`Seqs` and `Common` hold what is common to several models. `dafny verify dfyconfig.toml` checks the
whole project.

Where the code and its comments or its apparent intent differ, the models follow the code:

* `src/cache.c:1593-1610` reuses "a single page of the same size" by testing the total available
  memory. The accounting survives if and only if the cache was full (`CachePut.ReuseKeepsIff`,
  `CacheSearch.ReusesIff`, `CacheExamples.ReuseLosesCount`).
* `src/cache.c:1567-1583` may pick pages which are on death row already (`CacheSearch.RowDistinctIff`,
  `CacheExamples.PicksTwice`), and a page which completes the need as the very last of the list is
  found too late (`CacheSearch.PutFailsIff`, `CacheExamples.PutMissesTheLastPage`).
* `src/cache.c:199-213` keeps subpage numbers in eight bits, so that the minimum can exceed the
  maximum for clock pages (`CacheForeach.StatAddOrderIff`, `CacheForeach.ClockPageUnreachable`).
* `src/cc608_decoder.c:1375` shifts the whole dirty word, which can leave a bit set for a blank row
  (`CaptionProofs.StaleBit`, `CaptionProofs.StaleBitLeft`).
* `daemon/proxyd.c:568-593` can take a second frame from a client (`ProxyQueueState.ForceFreeLoses`,
  `ProxyQueueRuns.SecondFrameLost`), and can compare with the head of an empty queue, which takes a
  device with a single buffer in all, and then a client of this or, if idle, of another device
  (`ProxyQueueState.ForceFailsIff`, `ProxyQueueRuns.OneBufferFails`,
  `ProxyQueueRuns.TwoBuffersSuffice`).
* `daemon/proxyd.c:1289-1297` forgets a client which still holds the token
  (`ProxyTokenState.GrantHoldersIff`, `ProxyTokenState.TwoHolders`).
* `examples/pdc2.c:575` subtracts two times the wrong way round, so that the recording ends one minute
  after the preparation began only if it began just then (`Recorder.MinuteIff`,
  `Recorder.MinuteTooLong`), and lines 1008 to 1012 put only the first of four Teletext channels into
  a mask, so that a program on another one is not followed to VPS (`Recorder.FollowsIff`,
  `Recorder.TeletextOneLost`).

## Model

| member | source | states |
|---|---|---|
| CacheProofs.DeletePageKeeps | src/cache.c:949-994 | Deleting an unreferenced page keeps every list and counter right: pages on the referenced list if and only if in use, on a hash chain if and only if not a zombie, `memory_used` the sum over the evictable pages, all counts of all networks equal to the matching counts of pages. No other page changes. |
| CacheProofs.DeletePagesKeeps | src/cache.c:996-1010 | Deleting a list of unreferenced pages one by one removes exactly these pages, frees exactly their sizes, and keeps all lists and counters. |
| CacheProofs.ZombifyKeeps | src/cache.c:953-960 | A referenced page which is to be deleted leaves its hash chain, becomes a zombie and stays on the referenced list; all counters still hold. |
| CacheProofs.MoveKeeps | src/cache.c:1112-1115 | Moving a page to the front of its chain keeps all lists and counters. |
| CacheProofs.NewReference | src/cache.c:1209-1249 | A new reference counts: the page has one more and no other page changes. It moves an unused page from the evictable to the referenced pages and revives its network, with the accounting of memory, referenced pages and live networks intact. |
| CacheProofs.ReleaseKeeps | src/cache.c:1141-1180 | When the last reference goes the page becomes evictable, or goes altogether if it was a zombie, and all lists and counters hold. |
| CacheProofs.ReleaseNets | src/cache.c:1141-1180 | The release of a page lowers `n_referenced_pages` of its own network by one and of no other. |
| CacheProofs.InsertKeeps | src/cache.c:1611-1680 | A page which comes into the cache is counted once by its network, revives it, and keeps all lists and counters. |
| CacheProofs.MarksKeep | src/cache.c:1185-1188 | Changing the zombie mark or the reference count of a network keeps `n_cached_networks` equal to the number of networks which are not zombies. |
| CacheProofs.CountersWith | src/cache.c:144-214 | The statistics of every network are the numbers of its pages, its referenced pages and, per page number, its subpages modulo 256, also after a page was added. |
| CacheProofs.CountersWithout | src/cache.c:125-141 | The same after a page was removed. |
| CacheProofs.NetAddStat | src/cache.c:157-178 | Adding a page raises the counts of its network and of its page number by one, modulo 256 for the latter, and their maxima are the greater of the old maximum and the new count. |
| CacheProofs.NoPages | src/cache.c:216-282 | A network whose `n_cached_pages` is zero has no page, so freeing it leaves no page without network. |
| CacheProofs.PurgedKeeps | src/cache.c:216-282 | After its unreferenced pages are deleted, a network has only referenced ones, and the pages of other networks are untouched. |
| CacheProofs.DeleteNetworkKeeps | src/cache.c:216-282 | delete_network keeps the cache consistent. The network is gone if and only if nobody uses it, otherwise it is a zombie in use; the number of live networks falls by one unless it was a zombie already; other networks keep their marks. |
| CacheEviction.EvictPassIs | src/cache.c:1012-1036 | One pass over the `priority` list deletes the shortest prefix of the pages it may take which brings the memory within the limit, although the limit is tested between deletions. |
| CacheEviction.EvictionOrderMembers | src/cache.c:1012-1036 | The eviction order lists every unreferenced page exactly once, pages of unreferenced networks first, then normal before special pages; within a rank they keep the order of the `priority` list. |
| CacheEviction.ShortestIs | src/cache.c:1012-1036 | The shortest sufficient prefix is a prefix, it is sufficient or everything, and no shorter prefix is sufficient. |
| CacheEviction.SurplusIsShortestPrefix | src/cache.c:1012-1036 | delete_surplus_pages, with its four passes, removes exactly the shortest prefix of the eviction order which brings `memory_used` within `memory_limit`, and nothing when it is within already. |
| CacheEviction.SurplusKeeps | src/cache.c:1012-1036 | Afterwards `memory_used` is at most `memory_limit` and all lists and counters hold. |
| CacheOperations.RefPageKeeps | src/cache.c:1209-1249 | cache_page_ref adds one to the count of the page, changes no other page and keeps the whole invariant, which includes that zombie networks are in use and that `memory_used` is within the limit. |
| CacheOperations.LookupKeeps | src/cache.c:1082-1118 | A lookup changes nothing but the order of pages, and a page it finds has the network, the page number and, masked, the subpage number asked for. |
| CacheOperations.GetPageKeeps | src/cache.c:1290-1338 | _vbi_cache_get_page keeps the whole invariant. |
| CacheOperations.DeadNetworkGoes | src/cache.c:1185-1188 | After the last reference to a page, its network is deleted if it was a zombie only kept by that page; then every zombie network is in use. |
| CacheOperations.UnrefPageKeeps | src/cache.c:1128-1198 | cache_page_unref keeps the whole invariant: whatever happens to the page and its network, all counters hold and `memory_used` is within the limit. |
| CacheOperations.SurplusNetworksKeep | src/cache.c:303-321 | delete_surplus_networks keeps the cache consistent, and of every network it visits: the limit on networks is met, or the network is in use, or it is gone. |
| CacheOperations.UnrefNetworkKeeps | src/cache.c:719-745 | After the last reference to a network the limit on networks is met or all networks left are in use; the whole invariant is kept. |
| CacheOperations.GetNetworkKeeps | src/cache.c:779-798 | A network which is looked up or referenced is kept, no longer marked for deletion when it was looked up, and the number of live networks stays right. |
| CacheOperations.LastUnusedIs | src/cache.c:434-470 | The network which is recycled is one nobody uses, and all behind it in the list are in use; there is none if and only if all are in use. |
| CacheOperations.SurplusNetworksOrder | src/cache.c:303-321 | Surplus networks are deleted from the end of the list: where a live one went, no unused one behind it is left. |
| CacheOperations.NetworkFirst | src/cache.c:779-829 | The network which was asked for, added or recycled is the first of the list, and the others keep their order. |
| CacheOperations.ReleasedLast | src/cache.c:1141-1180 | A page whose last reference went is the last of the evictable pages, or gone if it was a zombie. |
| CacheOperations.RecycleKeeps | src/cache.c:434-491 | A recycled network has lost all its pages, counts as one live network as before, and the whole invariant is kept. |
| CacheOperations.NewNetworkKeeps | src/cache.c:493-546 | A newly allocated network without pages keeps the whole invariant. |
| CacheOperations.AddNetworkKeeps | src/cache.c:800-829 | _vbi_cache_add_network keeps the whole invariant and makes one network more only below the limit or when all networks are in use. |
| CacheOperations.PurgeKeeps | src/cache.c:284-301 | vbi_cache_purge keeps the whole invariant; every network it visited is gone or a zombie, the others keep their marks. |
| CacheSearch.ScanPassIs | src/cache.c:1548-1583 | A candidate scan takes every candidate up to the place where there is enough memory, and stops there; if it ends without enough, the memory was short before every page. |
| CachePut.PutStartKeeps | src/cache.c:1517-1541 | Looking up the previous version of a page, and marking it for deletion when it is in use, keeps the whole invariant; a version which is not in use is a replacement candidate. |
| CacheSearch.FoundRow | src/cache.c:1536-1583 | The pages on death row are unreferenced, and the available memory is the free memory plus their sizes. |
| CacheSearch.RowNeverFull | src/cache.c:1560-1578 | The assertion on the length of death row cannot fail if no page is smaller than a twentieth of the memory needed. |
| CacheSearch.PutFailsIff | src/cache.c:1543-1590 | The search for memory fails if and only if the memory was short before the very last page of the list was taken by the last scan: a page which completes the need as the very last one is found too late. |
| CacheExamples.PutMissesTheLastPage | src/cache.c:1567-1591 | A consistent, full cache with one evictable page of exactly the size needed, whose network is referenced: the memory suffices, storing a page fails all the same, and nothing changes. |
| CacheSearch.RowFits | src/cache.c:1560-1578 | It never fails when no page is more than twenty times as large as another, whatever is in the cache. |
| CacheSearch.RowDistinctIff | src/cache.c:1567-1583 | No page is on death row twice if and only if, for every unreferenced page of an unused network, the free memory and the sizes of the pages tried before the last scan comes to it suffice: a condition on the cache before the call. |
| CacheExamples.PicksTwice | src/cache.c:1567-1583 | A consistent cache for which it fails: a small page of an unused network and two of a used one; storing a page of three times their size puts the first on death row twice, to be deleted twice. |
| CacheSearch.ReusesIff | src/cache.c:1593-1594 | A page is reused in place if and only if the first page to be given up, which is the unused previous version or else the first of the eviction order, together with the free memory makes exactly the memory needed. |
| CachePut.ReuseKeepsIff | src/cache.c:1593-1610 | Replacing a single page in place keeps the accounting if and only if the cache was full, since the test is about the total available memory and not about the size of the page. |
| CacheExamples.ReuseLosesCount | src/cache.c:1593-1610 | A consistent cache for which it does not: one page of size one in use of three, and a page of size three to be stored. It is stored in place of the other, and minus two are in use. |
| CachePut.PutKeeps | src/cache.c:1434-1695 | Storing a page keeps the whole invariant if and only if, should the first page to be given up be just large enough and the page be stored, the cache was full. |
| CachePut.PutFirst | src/cache.c:1623-1680 | A page which was stored is the first of all pages, with the contents, number, priority and one reference it was given. |
| CacheVersions.StoredSubnoValid | src/cache.c:1479-1515 | Under which number a page is stored, and which bits of it tell versions apart, in all cases by its digits: a page with a decimal number as subpage 01 to 79 with all eight bits, as a clock page under a time up to 23:00 with none, else as subpage 0 with none; any other under the number given, with four bits. |
| CacheVersions.PutNumber | src/cache.c:1434-1695 | A page which was stored has the number, the network and the contents it was given, and the subpage number just described. |
| CacheVersions.PutThenGet | src/cache.c:1290-1338 | Getting a page right after it was stored, with any number which agrees with its own on the bits of the mask, or with VBI_ANY_SUBNO, returns that very page. |
| CacheVersions.PutSubpage | src/cache.c:1501-1506 | A subpage 01 to 79 of a decimal page is found under its own number with mask FF right after it was stored. |
| CacheVersions.PutClock | src/cache.c:1489-1496 | A clock page is found under its time with any mask, or as subpage 0 when that is no valid time. |
| CacheVersions.PutHexadecimal | src/cache.c:1508-1511 | A page with a hexadecimal number is found under any subpage number with the same lowest digit. |
| CacheVersions.NoneReplaced | src/cache.c:1517-1541 | Storing begins with the cache as it is when there is no page to replace: the same subpage, for a hexadecimal page one with the same lowest digit, for others any version. |
| CacheVersions.FirstReplaced | src/cache.c:1517-1541 | Otherwise the version used last is replaced: in use, it becomes a zombie which can no longer be looked up; unused, it is the first replacement candidate. |
| CacheVersions.SubpagesApart | src/cache.c:1501-1541 | Storing one subpage neither makes a zombie of another subpage of the page nor makes it a candidate on account of its number. |
| CacheVersions.SubpagesCoexist | src/cache.c:1434-1695 | With enough free memory a subpage can be stored and is found, and a get for every other subpage of the page returns what it returned before. |
| CacheVersions.SpecialIff | src/cache.c:1627-1648 | A stored page is special if and only if its number ends in two zeros or has three equal digits, or it holds something else than text, or it is a text page with a subpage number from 01 to 79. |
| CacheVersions.GetPageIs | src/cache.c:1290-1338 | A get finds, of the pages which match, the one used last, and finds none if and only if the page number is invalid or none matches. The page found is the first of all pages and has one reference more, nothing else of any page changes. |
| CacheLedger.RefPageCounts | src/cache.c:1246 | Each reference counts: the page has one more and every other page is unchanged. |
| CacheLedger.UnrefPageCounts | src/cache.c:1192-1194 | While there are others, giving a reference back takes one away and changes nothing else in the cache. |
| CacheLedger.NetworkCounts | src/cache.c:719-798 | Asking for a network and cache_network_ref give it one reference more; cache_network_unref takes one away; pages are not touched. |
| CacheLedger.ApplyAccounted | src/cache-priv.h:287-326 | Every operation keeps the reference counts of all pages and networks equal to a ledger of the references handed out (by get, put and ref) and given back. |
| CacheLedger.RunAccounted | src/cache-priv.h:287-326 | So does every run: a page or network which anyone holds is in the cache, with as many references as are held, and the page is the same version of the same page, with the same contents, as when the first of its present holders got it. |
| CacheChains.ChainsRemove | src/cache.c:986 | Unlinking a page from its chain is removing it from one list of all pages: each of the 113 chains stays that list filtered by hash. |
| CacheChains.ChainsAdd | src/cache.c:1112-1115 | Linking a page at the head of its chain is putting it at the head of that one list. |
| CacheChains.ChainLookup | src/cache.c:1082-1118 | A lookup on one chain, moving the page found to the front, is the same lookup on the most-recently-used list of all pages: it finds the first match of that list. |
| CacheForeach.FindNext | src/cache.c:1388-1416 | The loop which steps to the next page with subpages ends within one revolution of the 0x800 page numbers, in both directions, and finds the first such page after the start; it needs a page whose `subno_min` is at most its `subno_max`. |
| CacheForeach.NoNext | src/cache.c:1388-1416 | Without any such page the loop never ends: no number of steps reaches a page to visit. |
| CacheForeach.StatAddOrderIff | src/cache.c:199-213 | Adding a page keeps `subno_min` at most `subno_max` if and only if its number is below 0x100, or there was no minimum, or its low byte is not below the minimum: the fields have only eight bits. |
| CacheForeach.ClockPageUnreachable | src/cache.c:199-213 | Two versions 01:50 and 01:20 of a clock page leave a minimum of 0x50 above a maximum of 0x20, so that the loop cannot find them. |
| CacheForeach.CachedPagesReachable | src/cache.c:1344-1420 | While a network has a cached page, its numbers are in order and no page has 256 versions, the loop finds a page: `n_cached_pages` is the sum of all `n_subpages`. |
| CacheForeach.OrderKept | src/cache.c:125-214 | Adding pages with numbers below 0x100 and removing pages keeps all pairs of numbers in order. |
| CacheRuns.ApplyKeeps | src/cache-priv.h:287-326 | Each of the operations (get, reference, release and store a page; get, add, reference and release a network; purge) keeps the whole invariant. A page may be stored when the conditions of `RowDistinctIff` and `PutKeeps` on the cache hold. |
| CacheRuns.RunKeeps | src/cache-priv.h:287-326 | After every sequence of such operations all lists, all counters of the cache and of all networks, and the memory limit hold. |
| CacheOrder.PutStays | src/cache.c:1434-1695 | Storing a page with a subpage number below 0x100 keeps the pairs of numbers of all networks in order, whichever pages are deleted or reused for it. |
| CacheRuns.RunFits | src/cache.c:1560-1578 | In every run from a cache in which no page is more than twenty times as large as another, the assertion on the length of death row holds at each store. |
| CacheRuns.RunOrder | src/cache.c:125-214 | After every run which stores no clock pages the numbers of all pages of all networks are in order. |
| CacheRuns.RunReachable | src/cache.c:1344-1420 | After every such run the loop over the pages of a network ends for every network with a cached page and no page with 256 versions. |
| Cache.Cache.constructor | src/cache.c:1867-1906 | A new cache is empty, with the given limits. |
| Cache.Cache.RemoveFromNetwork | src/cache.c:125-141 | Updates exactly the counters of one network for one page. |
| Cache.Cache.AddToNetwork | src/cache.c:144-214 | Revives the network and updates exactly its counters. |
| Cache.Cache.DeletePage | src/cache.c:949-994 | In place, on the hash chain, the lists and the page and network objects, does what deleting means for the lists of pages. |
| Cache.Cache.DeleteAllPages | src/cache.c:996-1010 | Deletes the unreferenced pages of one network, in list order. |
| Cache.Cache.EvictPages | src/cache.c:1012-1036 | One walk over the changing `priority` list does one eviction pass, and reports when the limit is met. |
| Cache.Cache.DeleteSurplusPages | src/cache.c:1012-1036 | The four walks do all passes; with `SurplusIsShortestPrefix` that is the shortest sufficient prefix. |
| Cache.Cache.DeleteNetwork | src/cache.c:216-282 | Deletes the pages of a network and then the network, or marks it. |
| Cache.Cache.PurgeAll | src/cache.c:284-301 | Deletes every network of the list, in order. |
| Cache.Cache.DeleteSurplusNetworks | src/cache.c:303-321 | Deletes unused networks from the end of the list while there are too many. |
| Cache.Cache.PageByPgno | src/cache.c:1082-1118 | Searches one hash chain, moves the page found to its front, and returns what a search of the list of all pages returns. |
| Cache.Cache.PageRef | src/cache.c:1209-1249 | Adds a reference in place, on the page, its lists and its network; the count of the page is one more. |
| Cache.Cache.PageRelease | src/cache.c:1141-1180 | Takes away the last reference in place. |
| Cache.Cache.PageUnref | src/cache.c:1128-1198 | All of cache_page_unref, including the deletion of a dead network and of surplus pages. |
| Cache.Cache.GetPage | src/cache.c:1290-1338 | Finds a page on its chain and adds a reference to it. |
| Cache.Cache.NetworkById | src/cache.c:354-432 | Finds a network and moves it to the front of the list. |
| Cache.Cache.GetNetwork | src/cache.c:779-798 | Finds a network, revives it and adds a reference. |
| Cache.Cache.NetworkRef | src/cache.c:756-764 | Adds one to the reference count of a network and changes nothing else. |
| Cache.Cache.NetworkUnref | src/cache.c:719-745 | Takes a reference away; after the last one deletes the network or surplus networks. |
| Cache.Cache.FindUnused | src/cache.c:434-470 | Walks the list backwards to the network that was unused for longest. |
| Cache.Cache.AddNetwork | src/cache.c:800-829 | Returns a known network, a recycled one or a new one, or fails when there is no memory. |
| Cache.Cache.ScanCandidates | src/cache.c:1548-1583 | One loop over the `priority` list collects the candidates of one scan, until there is enough memory, the list ends or death row is full. |
| Cache.Cache.FindPages | src/cache.c:1530-1591 | The four loops find the same row and the same memory, and end in the same way, as four scans of the list. |
| Cache.Cache.ReusePage | src/cache.c:1593-1610 | Replaces one page in place. |
| Cache.Cache.ReplacePages | src/cache.c:1586-1680 | Reuses a page, or deletes death row and allocates one; fails without change when memory is short. |
| Cache.Cache.PutPage | src/cache.c:1434-1695 | All of _vbi_cache_put_page: subpage number, previous version, search for memory, replacement. The assertion on death row holds for all sizes within a factor of twenty. |
| DList.ListInit | src/dlist.h:215-222 | An initialized list is an empty ring. |
| DList.InsertNodes | src/dlist.h:99-114 | A chain of nodes put between two neighbours by four pointer assignments makes the ring of the members before, the chain and the members after. |
| DList.UnlinkNode | src/dlist.h:70-97 | Unlinking a node makes the ring of the other members, in order, and detaches the node. |
| DList.AddHead | src/dlist.h:296-301 | The node becomes the first member. |
| DList.AddTail | src/dlist.h:309-314 | The node becomes the last member. |
| DList.AddTailList | src/dlist.h:323-342 | All members of one list follow those of another, in order, and the first list is empty. |
| DList.IsMember | src/dlist.h:270-288 | Walking the ring finds a node if and only if it is a member. |
| DList.ListLength | src/dlist.h:403-415 | Walking the ring counts the members. |
| DList.RemNode | src/dlist.h:351-360 | Removes the node and returns it, or changes nothing if it is not a member. |
| DList.RemHead | src/dlist.h:368-378 | Removes and returns the first member, or null when the list is empty. |
| DList.RemTail | src/dlist.h:386-396 | Removes and returns the last member, or null when the list is empty. |
| CaptionProofs.PutKeeps | src/cc608_decoder.c:1047-1136 | Writing a character or an attribute keeps the invariant of a channel: a row with a clear dirty bit is blank in columns 1 to 32, roll-up channels are blank outside their window and text channels below the cursor, column zero has nothing or a PAC, no cell has code 0x1139, the cursor is on the screen. |
| CaptionProofs.DeleteKeeps | src/cc608_decoder.c:1597-1638 | DER keeps it, with its shortened test for a blank row. |
| CaptionProofs.BackspaceKeeps | src/cc608_decoder.c:1640-1680 | BS keeps it. |
| CaptionProofs.CarriageReturnKeeps | src/cc608_decoder.c:1283-1383 | CR keeps it in all modes, with the shift of the whole dirty word. |
| CaptionProofs.EraseKeeps | src/cc608_decoder.c:1385-1398 | EDM and ENM keep it and leave the screen blank, also when they find no dirty bit and do nothing; the other screen is untouched. |
| CaptionProofs.ResizeKeeps | src/cc608_decoder.c:1509-1541 | RUx in roll-up mode keeps it: the rows which the window loses become blank. |
| CaptionProofs.StartRollUp | src/cc608_decoder.c:1576-1588 | RUx in pop-on or paint-on mode leaves both screens blank and keeps the invariant. |
| CaptionProofs.RollUpKeeps | src/cc608_decoder.c:1543-1595 | RUx keeps it in all modes. |
| CaptionProofs.MovedSound | src/cc608_decoder.c:1868-1922 | A window which moves takes its rows and their dirty bits along, and all else is blank with sound dirty bits, although both are moved by overlapping copies and shifts. |
| CaptionProofs.PacKeeps | src/cc608_decoder.c:1924-1991 | A PAC keeps the invariant in all modes. |
| CaptionProofs.ApplyKeeps | src/cc608_decoder.c:1283-1714 | Every command which the decoder gives keeps the invariant, and a text channel stays a text channel. |
| CaptionProofs.CarriageReturnRolls | src/cc608_decoder.c:1364-1378 | In roll-up mode CR drops the top row of the clipped window, every other row of it moves up by one, the base row and all rows outside the window are blank, the other screen is untouched. |
| CaptionProofs.CarriageReturnInText | src/cc608_decoder.c:1313-1378 | On a text channel CR moves the cursor down without touching the screen until the last row, and from there moves all rows up and leaves a blank last row. |
| CaptionProofs.StaleBit | src/cc608_decoder.c:1375 | Dirty bits are not exact: after CR the row above the window is blank, and its bit is set if and only if the top row of the window had its bit set. |
| CaptionProofs.StaleBitLeft | src/cc608_decoder.c:1375 | A channel, with the invariant, for which it is: one letter on row 13, the top row of a window of two. After CR row 12 is blank and its bit set. |
| CaptionProofs.PacMovesWindow | src/cc608_decoder.c:1942-1953 | In roll-up mode a PAC moves the clipped window as a unit: each row k above the new base is row k above the old base, all else is blank. The new base is the row of the PAC, or the lowest one where the whole window is on the screen. |
| CaptionProofs.PutShows | src/cc608_decoder.c:1047-1136 | A character is found in the cell at the cursor, the last PAC in a free cell to its left; no other cell of the row changes; the cursor moves right up to the last column. |
| CaptionProofs.TypedShows | src/cc608_decoder.c:2108-2150 | A word which fits on the row is found there letter by letter, with at most the cell before it changed. |
| CaptionProofs.BackspaceUndoesPut | src/cc608_decoder.c:1640-1680 | BS after a character in a free cell restores the channel but for column zero and the count of capitals; the dirty bits are restored if and only if that of the row was right. |
| CaptionProofs.PopOnIsolates | src/cc608_decoder.c:1236-1595 | On a channel in pop-on mode every command other than EDM, EOC and RUx leaves the displayed screen as it is, and every one other than these and RDC leaves the mode. |
| CaptionProofs.EndOfCaptionFlips | src/cc608_decoder.c:1236-1281 | EOC displays the screen that was loaded, and a second EOC the one before. |
| CaptionRuns.CodeOfField | src/cc608_decoder.c:2008-2017 | A control code of a field addresses a channel of that field, and sets the current channel number of the field to one of its own. |
| CaptionRuns.ControlCodeKeeps | src/cc608_decoder.c:1993-2106 | A control code keeps the invariant of all channels. |
| CaptionRuns.FeedKeeps | src/cc608_decoder.c:2172-2330 | A byte pair keeps the invariant of all channels, whatever its bytes. |
| CaptionRuns.NewIsFormed | src/cc608_decoder.c:2446-2530 | The invariant holds after initialization. |
| CaptionRuns.Reachable | src/cc608_decoder.c:80-160 | After every run of byte pairs on both fields: clear dirty bits mean blank rows, unknown channels are blank, roll-up channels blank outside the clipped window, text channels below the cursor, and column zero holds nothing or a PAC. |
| CaptionRuns.FeedLocal | src/cc608_decoder.c:2298-2306 | A byte pair changes nothing of the other field, and what it does and returns depends on its own field only. |
| CaptionRuns.RunSeparates | src/cc608_decoder.c:2008-2017 | However the pairs of the two fields are interleaved, the channels of a field end up as if its own pairs had come alone. |
| CaptionRuns.RepeatIgnored | src/cc608_decoder.c:2236-2270 | A control code received twice on a field, with anything between on the other, is acted upon once; the second time it only ceases to be expected. |
| CaptionRuns.FeedPopOn | src/cc608_decoder.c:1738-1866 | A byte pair other than RUx, RDC, EDM or EOC for a caption channel in pop-on mode changes neither its mode nor what it displays. |
| CaptionRuns.RunPopOn | src/cc608_decoder.c:1738-1866 | Over a whole run without these codes for it, a pop-on channel displays one and the same screen. |
| CaptionCodes.ResumeLoadingCode | src/cc608_decoder.c:1758-1763 | The byte 20 of a miscellaneous control code (RCL), unless it is an expected repetition, selects the caption channel of its field and puts it into pop-on mode; nothing else changes in any channel. |
| CaptionCodes.ResumeDirectCode | src/cc608_decoder.c:1803-1808 | 29 (RDC) does the same with paint-on mode. |
| CaptionCodes.RollUpCode | src/cc608_decoder.c:1783-1790 | 25, 26, 27 (RU2 to RU4) select the caption channel, which now rolls up two, three or four rows: from pop-on or paint-on mode with blank screens and the cursor at the bottom left, else with the rows of the new window as they were and all others blank. |
| CaptionCodes.TextRestartCode | src/cc608_decoder.c:1810-1815 | 2A (TR) selects the text channel, which is blank, with the cursor at the top left. |
| CaptionCodes.ResumeTextCode | src/cc608_decoder.c:1817-1822 | 2B (RTD) selects the text channel and changes no channel. |
| CaptionCodes.EraseDisplayedCode | src/cc608_decoder.c:1824-1837 | 2C (EDM) blanks the displayed screen of the caption channel, also while text is received, and changes nothing else. |
| CaptionCodes.EraseHiddenCode | src/cc608_decoder.c:1845-1856 | 2E (ENM) does so with the hidden screen. |
| CaptionCodes.EndOfCaptionCode | src/cc608_decoder.c:1858-1865 | 2F (EOC) selects the caption channel, displays the screen which was hidden, hides the other one and enters pop-on mode. |
| CaptionCodes.BackspaceCode | src/cc608_decoder.c:1765-1770 | 21 (BS) clears the cell before the cursor of the current channel and moves the cursor there, or does nothing in the first column. |
| CaptionCodes.DeleteToEndCode | src/cc608_decoder.c:1776-1781 | 24 (DER) blanks the row of the cursor from there on. |
| CaptionCodes.CarriageReturnCode | src/cc608_decoder.c:1839-1843 | 2D (CR) rolls the window of a roll-up channel up, moves the cursor of a text channel to the next row or rolls all rows up, and does nothing in the other modes. |
| CaptionCodes.WritingCode | src/cc608_decoder.c:2026-2082 | Background attributes, mid-row codes, special and extended characters, FON and the attributes of the extended codes write the cell which their bytes name, before the cursor or at it; no other cell of the row changes but for the PAC taken along. |
| CaptionCodes.TabCode | src/cc608_decoder.c:1138-1155 | TO1 to TO3 move the cursor by one to three columns, at most to the last. |
| CaptionCodes.IgnoredCode | src/cc608_decoder.c:2026-2106 | All other codes below 40 change no channel. |
| CaptionCodes.RowNamedIs | src/cc608_decoder.c:233-240 | The table of rows is that of the standard: two rows for each first byte, but for row 11. |
| CaptionCodes.RowHasAddress | src/cc608_decoder.c:233-240 | Every row has a preamble address code. |
| CaptionCodes.OneAddress | src/cc608_decoder.c:233-240 | No two of them name the same row. |
| CaptionCodes.PreambleCode | src/cc608_decoder.c:2019-2024 | A preamble address code moves the cursor of a pop-on or paint-on channel to the row it names, and with an indent to the column; the window of a roll-up channel moves as a unit; on a text channel only the column changes. |
| CaptionCodes.TextCode | src/cc608_decoder.c:2297-2315 | Two text bytes are typed on the channel of the field which was selected last, a solid block for a second byte with wrong parity; the result tells whether the second byte was valid. |
| CaptionCodes.CapitalsCounted | src/cc608_decoder.c:1099-1108 | Capitals are counted while no small letter comes. |
| CaptionCodes.SmallLetterCounted | src/cc608_decoder.c:1099-1108 | A small letter starts the count anew. |
| CaptionCodes.FirstRollUp | src/cc608_decoder.c:2459-2495 | The first roll-up code of a decoder starts at the bottom left of a blank screen. |
| CaptionCodes.FirstText | src/cc608_decoder.c:2459-2495 | A text channel starts at the top left of a blank screen; text before any code is ignored. |
| CaptionLoading.SentOnce | src/cc608_decoder.c:2236-2270 | A control code sent twice in a row does what it does when it is sent once. |
| CaptionLoading.TextRun | src/cc608_decoder.c:2297-2315 | A word sent in pairs of bytes is typed letter by letter. |
| CaptionLoading.CaptionDisplayed | src/cc608_decoder.c:1738-1866 | RCL, ENM, a preamble address code, a word which fits and EOC, each code sent once or twice: from any state of the decoder the channel then displays that word in the row and column named, with the attributes before it, and nothing else, and hides what it displayed. |
| CaptionLoading.CaptionShown | src/cc608_decoder.c:2172-2330 | The same with any pairs of the other field in between. |
| Caption.ParityDecodes | src/hamm.h:116-150 | Of the two bytes with the same seven low bits one is decoded to these, and the other has a parity error. |
| CaptionFormat.PaddedText | src/cc608_decoder.c:621-857 | With padding a visible character is never beside a transparent space. |
| CaptionFormat.TransparentIff | src/cc608_decoder.c:621-857 | A cell is transparent if and only if its column has nothing or a PAC and, with padding, no visible character before it and no character after it; padding does not change the characters. |
| CaptionFormat.CellLooks | src/cc608_decoder.c:625-831 | How each code looks: nothing and PACs are transparent spaces, other attributes solid ones; small letters, the n with tilde and extended characters stay as they are, other characters are forced to upper case when that is wanted. |
| CaptionFormat.BlankRowFormatted | src/cc608_decoder.c:613-619 | The short cut for rows which are not dirty shows what the row holds. |
| CaptionFormat.FormatColumn | src/cc608_decoder.c:625-831 | One column writes one cell, or none for column zero, and may turn the space before a character solid. |
| CaptionFormat.FormatRow | src/cc608_decoder.c:579-857 | Writes exactly 32 cells, or 34 with padding, for every row of a reachable screen (so the last assertion holds), each as its columns say, and no other cell. |
| CaptionFormat.PageCell | src/cc608_decoder.c:934-947 | A page is its fifteen rows of 32 or 34 cells, one after the other, each formatted as above. |
| CaptionScreen.MemMove | src/cc608_decoder.c:1371-1373 | Overlapping places are copied as if by way of a third place. |
| CaptionScreen.RowWritten | src/cc608_decoder.c:1074-1076 | Writing cells of one row of the array changes that row of that screen only. |
| CaptionScreen.FlatScrolled | src/cc608_decoder.c:1370-1378 | One overlapping copy of rows and one cleared row in the array scroll the screen. |
| CaptionScreen.FlatMoved | src/cc608_decoder.c:1893-1919 | One overlapping copy and one cleared stretch of the array move the window, in both directions and for all overlaps. |
| CaptionScreen.FlatCleared | src/cc608_decoder.c:1529-1534 | A cleared stretch of the array is cleared rows. |
| CaptionChannel.Channel.constructor | src/cc608_decoder.c:2459-2495 | The initial state of a caption or a text channel. |
| CaptionChannel.Channel.PutChar | src/cc608_decoder.c:1047-1136 | In place does what writing a character means for the rows of the screens; no other cell, bit or field changes. |
| CaptionChannel.Channel.EndOfCaption | src/cc608_decoder.c:1236-1281 | Swaps the screens and enters pop-on mode, unless on a text channel. |
| CaptionChannel.Channel.CarriageReturn | src/cc608_decoder.c:1283-1383 | In place does what CR means for rows, dirty bits and cursor. |
| CaptionChannel.Channel.EraseMemory | src/cc608_decoder.c:1385-1398 | Clears one screen if it has a dirty bit. |
| CaptionChannel.Channel.TextRestart | src/cc608_decoder.c:1437-1462 | Clears a text channel and moves the cursor to the top. |
| CaptionChannel.Channel.ResizeWindow | src/cc608_decoder.c:1509-1541 | Clears the rows which the window loses, and their bits. |
| CaptionChannel.Channel.RollUpCaption | src/cc608_decoder.c:1543-1595 | RUx in all modes. |
| CaptionChannel.Channel.DeleteToEndOfRow | src/cc608_decoder.c:1597-1638 | Clears the cells from the cursor on, and the bit of a row which is blank then. |
| CaptionChannel.Channel.Backspace | src/cc608_decoder.c:1640-1680 | Clears the cell left of the cursor, and the bit of a row which is blank then. |
| CaptionChannel.Channel.MoveWindow | src/cc608_decoder.c:1868-1922 | Moves the window in the array and its dirty bits by a shift. |
| CaptionChannel.Channel.PreambleAddressCode | src/cc608_decoder.c:1924-1991 | Moves the window or the cursor and remembers the attributes. |
| Caption.Decoder.constructor | src/cc608_decoder.c:2446-2530 | Eight separate channels in their initial state, no current channel. |
| Caption.Decoder.MiscControlCode | src/cc608_decoder.c:1738-1866 | Carries out the command of the code on one channel and sets the channel number of the field; which command each code gives is stated in `CaptionCodes`. |
| Caption.Decoder.ControlCode | src/cc608_decoder.c:1993-2106 | The same for all control codes. |
| Caption.Decoder.Characters | src/cc608_decoder.c:2108-2150 | Writes one character to the current channel; a parity error shows as a solid block and is reported. |
| Caption.Decoder.Feed | src/cc608_decoder.c:2172-2330 | Decodes one byte pair of line 21 or 22 for the first field, of line 284 for the second: parity, repeated codes, control codes and characters, with the effects of `CaptionCodes`; other lines are rejected without change. |
| Caption.Decoder.GetPage | src/cc608_decoder.c:886-950 | Fails for other than channels 1 to 8, else writes all fifteen rows of the displayed screen. |
| ProxyQueueState.LastReferenceAtHead | daemon/proxyd.c:412-421 | The assertion that a buffer whose last reference goes is the first of the queue cannot fail. |
| ProxyQueueState.CountsGrow | daemon/proxyd.c:404-427 | Reference counts never decrease along the queue. |
| ProxyQueueState.ReleaseKeeps | daemon/proxyd.c:404-427 | A client which is done with a buffer loses the first frame of its own queue; the queues of all others stay as they are, also when the buffer leaves the shared queue. |
| ProxyQueueState.SendKeeps | daemon/proxyd.c:1841-1909 | Sending moves one frame from the queue of a client to what it has received, in capture order and without duplicates; no buffer is lost. |
| ProxyQueueState.DropKeeps | daemon/proxyd.c:404-427 | A client which drops a frame keeps all orders and counts; no buffer is lost. |
| ProxyQueueState.ForceFreeLoses | daemon/proxyd.c:568-593 | With two or more buffers queued, the first is freed: its holders lose that frame, and so do, of the next frame, clients which wait for it and come after the last holder in the list; nobody else loses anything. |
| ProxyQueueState.ForceFailsIff | daemon/proxyd.c:568-593 | The loop, which visits the clients of all devices, compares with the head of an emptied queue if and only if one buffer is queued and a client of this device, or one of another device without frames, comes after all its holders in the list. |
| ProxyQueueState.AppendKeeps | daemon/proxyd.c:637-662 | A captured frame is appended to the queue of every eligible client and of no other, with a reference each. |
| ProxyQueueState.GetFreeKeeps | daemon/proxyd.c:335-386 | Taking an unused buffer loses no buffer and changes no queue. |
| ProxyQueueState.PutBackKeeps | daemon/proxyd.c:661-667 | Putting back a buffer without data loses no buffer and changes no queue. |
| ProxyQueue.Device.ReleaseSliced | daemon/proxyd.c:404-427 | By its own pointers, the count of the buffer and the head of the queue does what leaving a frame means; the assertion of the daemon holds. |
| ProxyQueue.Device.SendSliced | daemon/proxyd.c:2477-2491 | The client receives the first frame it has not been sent. |
| ProxyQueue.Device.ForceFree | daemon/proxyd.c:568-593 | The loop over the clients, which change the queue on the way, does what forced release means client by client. |
| ProxyQueue.Device.GetFreeBuffer | daemon/proxyd.c:335-386 | Takes the first unused buffer, with no reference and no successor. |
| ProxyQueue.Device.Distribute | daemon/proxyd.c:637-648 | Gives the new buffer a reference for each eligible client, and lets those point to it which have nothing pending. |
| ProxyQueue.Device.AddTail | daemon/proxyd.c:309-332 | Walks to the end of the queue and appends there. |
| ProxyQueue.Device.AddFree | daemon/proxyd.c:392-399 | Puts a buffer in front of the unused ones. |
| ProxyQueue.Device.ForwardData | daemon/proxyd.c:597-671 | A captured frame goes to every eligible client; without unused buffers the first of the queue is freed by force. |
| ProxyQueue.Device.Flush | daemon/proxyd.c:1734-1756 | The loop drops all frames of one client; with `FlushedKeeps`, the frames pending for all others stay. |
| ProxyQueue.Device.SetEligible | daemon/proxyd.c:2124-2140 | A client without pending frames starts or stops to take part. |
| ProxyQueue.Device.Close | daemon/proxyd.c:1733-1756 | All frames of the client are dropped, and it is no longer eligible. |
| ProxyQueue.Device.AddClient | daemon/proxyd.c:1760-1805 | A new client has nothing pending and is not eligible. |
| ProxyQueue.Device.AddBuffer | daemon/proxyd.c:539-556 | A new buffer is unused. |
| ProxyQueue.Device.FreeUnused | daemon/proxyd.c:466-479 | All unused buffers are freed, and none which is queued or in hand. |
| ProxyQueue.Device.Allocate | daemon/proxyd.c:489-562 | The daemon needs the largest number of buffers a client has asked for, or its own minimum, and one more for each client. When it has too many it frees all unused ones, then allocates up to that number; frames and queues stay. It reports whether there are at least the minimum and one for each client. |
| ProxyQueue.Device.ReleaseAll | daemon/proxyd.c:432-459 | All queued buffers become unused, in reverse order, and no client points to one. |
| ProxyQueueState.FlushedKeeps | daemon/proxyd.c:1734-1756 | A client whose frames are dropped has none left; nobody else loses anything, and no buffer is lost. |
| ProxyQueue.LargestIs | daemon/proxyd.c:501-514 | The number of buffers asked for is at least the minimum and every request, and is one of them. |
| ProxyQueueRuns.ForwardKeeps | daemon/proxyd.c:597-671 | A captured frame goes to the end of the queue of every eligible client and of no other. Nobody loses a frame unless all buffers are in use, and then exactly the clients overtaken lose their first one. No buffer is lost. |
| ProxyQueueRuns.TwoBuffersSuffice | daemon/proxyd.c:489-593 | With two buffers the forced release never compares with the head of an emptied queue, whatever clients of other devices there are. The daemon asks for more buffers than it has clients. |
| ProxyQueueRuns.OneBufferFails | daemon/proxyd.c:568-593 | With one buffer in all it does, when a client which has seen the frame, or an idle one of another device, is listed after one which has not. |
| ProxyQueueRuns.SecondFrameLost | daemon/proxyd.c:568-593 | One client holds back the first of two buffers, the next client waits for the second: the forced release takes the second frame from it, too. |
| ProxyQueueRuns.ApplyRefines | daemon/proxyd.c:404-671 | Every operation (capture, sending, change of services, closing and joining of a client, end of acquisition) does on the shared queue what it does when every client has a queue of its own. |
| ProxyQueueRuns.RunRefines | daemon/proxyd.c:404-671 | Over every run the shared queue, with its counts and pointers, is as good as a queue for every client: each is sent its frames in the order of their capture, none of them twice, and loses one only when it is overtaken. No buffer is lost. |
| ProxyQueueRuns.RunSafe | daemon/proxyd.c:568-593 | In every run with at least two buffers no forced release fails. |
| ProxyTokenState.GrantKeeps | daemon/proxyd.c:1256-1304 | A grant never makes two clients have a token state. |
| ProxyTokenState.GrantHoldersIff | daemon/proxyd.c:1256-1304 | Every client which was told that it has the token stays known to the daemon if and only if the grant does not take an unsent grant away from a client which still holds an older one. |
| ProxyTokenState.MaxPrioIs | daemon/proxyd.c:1513-1517 | The priority which decides is at least that of every client, and the background priority or that of a client. |
| ProxyTokenState.ForegroundUpdate | daemon/proxyd.c:1544-1594 | While a client has more than background priority, a rescheduling takes the control of the channel away from whoever has it and grants the token to nobody. |
| ProxyTokenState.FreeTokenGranted | daemon/proxyd.c:1552-1594 | Otherwise, when nobody has a token state, it grants the token to the client picked. |
| ProxyTokenState.TokenPasses | daemon/proxyd.c:1256-1594 | What becomes of the token of client o when client p is picked: o keeps it if it is p, and has back what was about to be reclaimed; a grant nobody was told of and a returned token pass to p; a token which o has been told of is reclaimed. |
| ProxyTokenState.NothingPicked | daemon/proxyd.c:1486-1494 | When no client is picked, a client of background priority which controls the channel loses it. |
| ProxyTokenState.ForcedUpdate | daemon/proxyd.c:1544-1550 | After a forced switch everything is as if nobody had controlled the channel. |
| ProxyTokenState.StopKeeps | daemon/proxyd.c:1348-1366 | Stopping a client keeps the token unique and its holders known. |
| ProxyTokenState.UpdateKeeps | daemon/proxyd.c:1501-1594 | A rescheduling keeps the token unique; holders stay known if and only if it does not take the token over from one. |
| ProxyTokenState.ReturnKeepsIff | daemon/proxyd.c:2235-2239 | A notification that the token was returned keeps the token unique if and only if no other client has a token state, which the daemon does not check. |
| ProxyTokenState.ToldKeeps | daemon/proxyd.c:2291-2299 | Telling a client of its grant keeps the token unique and adds no unknown holder. |
| ProxyTokenState.GoneKeeps | daemon/proxyd.c:1733-1756 | A client which disconnects keeps the token unique. |
| ProxyTokenState.ApplyKeeps | daemon/proxyd.c:2172-2253 | Every event (message, idle client, connection, disconnection, rescheduling) of well-behaved clients keeps the token unique, and all holders known if and only if it does not take the token over from a holder. |
| ProxyTokenState.RunUnique | daemon/proxyd.c:1215-1248 | In every run of well-behaved clients, whatever the scheduler picks, at most one client has a token state, so that the assertion against a second owner holds. |
| ProxyTokenState.RunKeeps | daemon/proxyd.c:2172-2253 | In every such run without a takeover every client which holds the token is known to the daemon, and at most one holds it. |
| ProxyTokenState.TwoHolders | daemon/proxyd.c:1289-1297 | The takeover is real: a run of well-behaved clients from the first connection, in which two clients ask for the token and the scheduler changes its mind twice before the first one confirms the reclaim. Then both hold it. |
| ProxyTokenMessages.GivesUp | daemon/proxyd.c:2226-2234 | A client with the token gives it up: the client picked is granted it, and the first one is not picked again before it asks. |
| ProxyTokenMessages.GivesUpNothing | daemon/proxyd.c:2226-2234 | A client without a token state only becomes unavailable to the scheduler. |
| ProxyTokenMessages.Returns | daemon/proxyd.c:2235-2239 | A client returns the token: another client which is picked is granted it; if the client itself is picked it stays returned. |
| ProxyTokenMessages.Confirms | daemon/proxyd.c:2291-2299 | A client confirms that it released the token: the client picked is granted it. |
| ProxyTokenMessages.ConfirmsLate | daemon/proxyd.c:2291-2299 | A confirmation nobody waits for changes no token state. |
| ProxyTokenMessages.AsksFree | daemon/proxyd.c:2173-2200 | A client asks for a token nobody else has: picked itself, it is told at once that it has it; otherwise the client picked is granted it. |
| ProxyTokenMessages.AsksOther | daemon/proxyd.c:2173-2200 | A client asks for a token another one has, with the outcome of `TokenPasses`. |
| ProxyTokenMessages.AsksForeground | daemon/proxyd.c:2173-2200 | A request with more than background priority takes the control of the channel away from everybody. |
| ProxyTokenMessages.Flushes | daemon/proxyd.c:2220-2225 | After a channel switch by a client which does not control the channel nobody controls it. |
| ProxyTokenMessages.NotifiesNothing | daemon/proxyd.c:2202-2244 | A notification without these flags changes nothing. |
| ProxyTokenMessages.ClosePasses | daemon/proxyd.c:1733-1756 | A client with the token leaves: the client picked is granted it. |
| ProxyTokenMessages.IdleTold | daemon/proxyd.c:2444-2463 | An idle client is asked to release a token which is reclaimed, or told of its grant, and else nothing happens. |
| ProxyToken.Device.AddClient | daemon/proxyd.c:1760-1805 | A new client comes last in the list, with the default priority, which keeps the scheduler out until the client asks for the background one. |
| ProxyToken.Device.GetTokenOwner | daemon/proxyd.c:1215-1248 | Finds the one client with a token state; the assertion against a second one holds. |
| ProxyToken.Device.TokenGrant | daemon/proxyd.c:1256-1304 | Grants the token, gives it back to a client it was being reclaimed from, or reclaims it from its owner, in place; it reports that the client has to wait exactly in the last case. |
| ProxyToken.Device.ChannelStopped | daemon/proxyd.c:1348-1366 | Marks the token of a client which controls the channel for reclaim or as free. |
| ProxyToken.Device.ChannelSchedule | daemon/proxyd.c:1409-1494 | Stops the active client if another one was picked. |
| ProxyToken.Device.FindMaxPrio | daemon/proxyd.c:1513-1517 | Finds the highest priority: no client has a higher one, and it is the background priority or that of a client. |
| ProxyToken.Device.StopControlling | daemon/proxyd.c:1544-1550 | Stops every client which controls the channel. |
| ProxyToken.Device.ChannelUpdate | daemon/proxyd.c:1501-1594 | All of a rescheduling. If some client has more than background priority, nobody controls the channel afterwards and nobody is granted the token; if none has, and nobody has a token state, the client picked is granted it. |
| ProxyToken.Device.TakeMessage | daemon/proxyd.c:2172-2253 | All token messages of a client; a client which is told at once that it has the token has it. |
| ProxyToken.Device.HandleIdle | daemon/proxyd.c:2444-2463 | Sends a reclaim or a grant to an idle client. |
| ProxyToken.Device.Disconnect | daemon/proxyd.c:2514-2542 | The client leaves the list and the token is rescheduled. |
| PacketRing.Ring.DoOffer | contrib/atsc-cc.c:7877-7910 | A packet is ignored if it is of no interest, lost if the ring is full, and copied otherwise. |
| PacketRing.Ring.DoCopy | contrib/atsc-cc.c:7911-7920 | Each byte is copied to a slot which holds no unread packet. |
| PacketRing.Ring.DoMark | contrib/atsc-cc.c:7911-7925 | The packet gets the error bit if one was lost before it. |
| PacketRing.Ring.DoPublish | contrib/atsc-cc.c:7925-7935 | The packet becomes visible to the consumer as the last of those in the ring. |
| PacketRing.Ring.DoLook | contrib/atsc-cc.c:7593-7625 | The consumer finds a packet if and only if there is one. |
| PacketRing.Ring.DoRead | contrib/atsc-cc.c:7593-7641 | Each byte the consumer reads is that of the oldest packet, whatever the producer does meanwhile. |
| PacketRing.Ring.DoRelease | contrib/atsc-cc.c:7625-7641 | The slot of the oldest packet, and no other, is given back. |
| PacketRing.Ring.Run | contrib/atsc-cc.c:1020-1032 | For every stream of packets and every interleaving of steps of the two threads: the packets taken are the first ones of the stream, in order; those left out for lack of interest are exactly the unwanted ones; the decoder received the accepted packets in order, each with the error bit as below, except those which are still in the ring. |
| PacketRing.Ring.Produce | contrib/atsc-cc.c:7877-7935 | The next step of the capture thread takes the next packet of the stream when none is on its way into the ring. |
| PacketRing.HeaderFields | contrib/atsc-cc.c:7877-7925 | The error bit is the highest bit of the second byte, the PID its five low bits and the third byte; setting the error bit changes nothing else. |
| PacketRing.LostLastIff | contrib/atsc-cc.c:7877-7935 | A packet gets the error bit from the ring if and only if a packet was lost before it with none stored in between. |
| StartCodeScanner.Scanner.MakeRoom | contrib/atsc-cc.c:7185-7213 | Room is made if and only if the unread bytes and the new ones fit; the unread bytes are moved intact. |
| StartCodeScanner.Scanner.Append | contrib/atsc-cc.c:7229-7234 | Bytes which arrive continue the stream where it was left. |
| StartCodeScanner.Scanner.Advance | contrib/atsc-cc.c:7275-7317 | One step of the search, over one or three bytes or to the next start code, keeps the blocks found those of a search byte by byte. |
| StartCodeScanner.Scanner.Decode | contrib/atsc-cc.c:7215-7319 | After each chunk the blocks which came out are those of a naive scan of all bytes so far. It fails if and only if the chunk does not fit the buffer together with the bytes from the last start code on. |
| StartCodeScanner.DecodeStream | contrib/atsc-cc.c:7215-7319 | However a stream is divided into chunks, the same blocks come out as from a naive scan of the whole. It succeeds if and only if every chunk fits the buffer together with the bytes from the last start code before it on, so for streams of any length. |
| StartCodeScanner.LastFoundIs | contrib/atsc-cc.c:7298-7317 | The bytes which wait for more are all those from a start code on after which no other one begins, or all when there is none. |
| StartCodeScanner.StreamFits | contrib/atsc-cc.c:7185-7213 | A stream which fits the buffer as a whole does so in any chunks. |
| StartCodeScanner.FollowsSkipsThree | contrib/atsc-cc.c:7275-7282 | When the third byte is neither 0 nor 1 no start code begins at any of three places, whatever follows. |
| StartCodeScanner.FollowsFinds | contrib/atsc-cc.c:7285-7317 | A start code ends the block before it, and begins the next. |
| StartCodeScanner.ScanDivides | contrib/atsc-cc.c:7215-7319 | The naive scan divides the stream from its first start code to its last into blocks without a gap, each beginning with its start code and with no other start code in it. |
| Crc.Calculator.Mpeg2Crc | contrib/atsc-cc.c:6426-6462 | The table-driven loop computes the register for every byte string, and fills its table on the first call. |
| Crc.EntryNotZero | contrib/atsc-cc.c:6444-6454 | The assertion after the filling of the table holds for every entry but the first. |
| Crc.FeedIs | contrib/atsc-cc.c:6457-6459 | One look into the table is eight steps of bit-serial division with the byte added. |
| Crc.SectionWithCrc | contrib/atsc-cc.c:6527-6531 | A section followed by its big-endian CRC leaves a register of zero. |
| Crc.CrcIsRemainder | contrib/atsc-cc.c:6426-6462 | The register is a remainder of the polynomial division of the message, with the initial ones, by the generator: message = quotient times generator plus register. |
| Crc.RemainderUnique | contrib/atsc-cc.c:6426-6462 | There is only one remainder below the degree of the generator. |
| Recorder.Vcr.RemoveProgram | examples/pdc2.c:310-330 | The program is off the schedule, and no longer the current one; it must not be in use, which the assertion demands. |
| Recorder.Vcr.RemoveStalePrograms | examples/pdc2.c:332-349 | Exactly the programs which are over, by announced times and by label, leave the schedule. |
| Recorder.Vcr.FindProgramByPil | examples/pdc2.c:351-362 | The first program with the label, or none if there is none. |
| Recorder.Vcr.StopRecordingNow | examples/pdc2.c:420-433 | Recording ends and no delayed stop is left. |
| Recorder.Vcr.StopRecordingIn30s | examples/pdc2.c:435-463 | The stop is planned 30 seconds from now, or 31 seconds after the label was last received if nothing came instead; what triggered it is remembered. |
| Recorder.Vcr.StartRecordingByPil | examples/pdc2.c:465-490 | Recording of a scheduled program begins; its announced duration is kept when its start is moved. |
| Recorder.Vcr.PrepareToRecordByPil | examples/pdc2.c:492-503 | A scheduled program is about to be recorded. |
| Recorder.Vcr.StartRecordingByTimer | examples/pdc2.c:505-518 | Recording by the clock begins, under timer control only. |
| Recorder.Vcr.RemoveProgramIfEnded | examples/pdc2.c:520-539 | A program leaves the schedule unless its label says that it continues. |
| Recorder.Vcr.SignalOrServiceLost | examples/pdc2.c:541-608 | Without signal the clock takes over in all states; a program about to begin is recorded at once, for its announced duration and, by the difference at line 575 with its operands swapped, 60 seconds and the time since the preparation began. |
| Recorder.Vcr.PilNoLongerTransmitted | examples/pdc2.c:610-677 | The end of a label ends the preparation, ends the recording at once, or plans its end, and never moves a planned end. |
| Recorder.Vcr.ReceivedIntRit | examples/pdc2.c:680-718 | Interruption and recording inhibit end the preparation or the recording, now or at a planned time, on the channel of the current program only; without one they end timer control, and a recording by the clock ignores them. |
| Recorder.Vcr.Begin | examples/pdc2.c:858-867 | With no program under way a label begins the first program with it, or does nothing. |
| Recorder.Vcr.ReceivedPil | examples/pdc2.c:720-868 | What a label means in each of the states, with and without timer control, for its own and for another channel; no program gets longer or shorter; the assertions on the way hold. |
| Recorder.Vcr.EventHandler | examples/pdc2.c:870-927 | A program ID from Teletext, or from VPS without Teletext, has the effect of its kind: an ordinary label that of `ReceivedPil` in every state, an interruption or inhibit code that of `ReceivedIntRit`, the other service codes hand over to the clock. From other sources it changes nothing. Its channel is remembered. |
| Recorder.Vcr.InPilValidityWindow | examples/pdc2.c:929-945 | Whether some program is still expected. |
| Recorder.Vcr.TimerControl | examples/pdc2.c:947-1003 | Stops a program which is over and takes it off the schedule, and starts the first program which is running, if there is one; a recording which goes on and a planned stop are left alone. |
| Recorder.Vcr.CheckChannels | examples/pdc2.c:1022-1039 | Which channels have a signal and which have lost it. |
| Recorder.Vcr.RespondToLoss | examples/pdc2.c:1041-1074 | The new state in all cases. When no signal is left the clock takes over. When only VPS is left, Teletext channel 0 was lost and VPS carries the current label, the program goes on there. Otherwise the loss of the channel of the current program ends it like the end of its label, and other losses change nothing. |
| Recorder.Vcr.PdcSignalCheck | examples/pdc2.c:1005-1085 | Lost channels are forgotten; what their loss means depends on the channels with and without signal at that time. |
| Recorder.Vcr.DelayedStop | examples/pdc2.c:1399-1407 | A planned stop takes place once it is due, and not before. |
| Recorder.Vcr.DecodeFrame | examples/pdc2.c:1476-1480 | The program IDs of a frame in their order: without one nothing changes, and a single one has its full effect. |
| Recorder.Vcr.CheckSignals | examples/pdc2.c:1541-1549 | Once a second: without timer control the loss of signals is responded to, and the loss of all of them enables it; under timer control the clock decides. |
| Recorder.Vcr.CaptureAndDecodeFrame | examples/pdc2.c:1423-1480 | A planned stop which is due takes place before the program IDs of the frame are looked at; what an ordinary label then does is stated for every state in which it can begin or continue a recording. |
| Recorder.Vcr.CaptureFrame | examples/pdc2.c:1535-1558 | One frame (due stop, program IDs, signal check, timer control) keeps the recorder valid. An ordinary label begins the first program with it when none is under way, after a planned stop which is due, and keeps a recording by it going; without labels the loss of signals is noticed once a second, or the clock decides. The recorder stands by exactly when it scans and no program is expected. |
| Recorder.Vcr.CaptureLoop | examples/pdc2.c:1518-1579 | No sequence of frames and program IDs reaches a failing assertion: preparation excludes timer control, preparation and recording imply a current program on the schedule, a planned stop implies recording. |
| Recorder.Vcr.StandbyLoop | examples/pdc2.c:1583-1646 | The same over any number of captures. |
| Recorder.ServiceCodes | examples/pdc2.c:903-918 | The service codes are labels of a month 15; no label of a real time is one. |
| Recorder.LostIff | examples/pdc2.c:203-214 | A VPS label is lost after three frames, a Teletext label after two seconds. |
| Recorder.Vcr.CountsIff | examples/pdc2.c:884-899 | VPS counts only while there is no label on any of the four Teletext channels. |
| Recorder.Vcr.StopsAtOnceIff | examples/pdc2.c:645-670 | Whose MI flag decides when the recording ends: that of an interruption or inhibit code which came instead, else that of the label which is gone. |
| Recorder.MinuteIff | examples/pdc2.c:573-577 | The recording of a program whose signal is lost ends one minute after the preparation began, and the announced duration, if and only if the signal was lost the moment the preparation began; otherwise it ends later. |
| Recorder.MinuteTooLong | examples/pdc2.c:573-577 | The signal is lost 30 seconds after the preparation began: 90 seconds are added and not 30. |
| Recorder.FollowsIff | examples/pdc2.c:1008-1012 | When Teletext is lost and only VPS left, a program whose label VPS carries, too, goes on if and only if Teletext channel 0 is among the lost ones; otherwise the loss ends it. |
| Recorder.TeletextOneLost | examples/pdc2.c:1008-1057 | The label is on Teletext channel 1 and on VPS, and channel 1 is lost: the program ends, although VPS still carries its label. |
| Bcd.IsBcdIff | src/bcd.h:182-188 | vbi_is_bcd holds if and only if each of the seven low digits is at most 9, despite the carries; the top digit is not tested. |
| Bcd.BcdDigitsGreaterIff | src/bcd.h:205-212 | vbi_bcd_digits_greater holds if and only if one of the seven low digits exceeds that digit of the maximum, despite the carries. |
| Bcd.AddBcdDigits | src/bcd.h:158-170 | For decimal operands the seven low digits of the result are decimal and their value is the sum but for a carry, which goes to the top digit. |
| Bcd.AddBcdIsAddition | src/bcd.h:158-170 | vbi_add_bcd adds numbers in 10's complement: the result is such a number if and only if the sum is from -10000000 to 9999999, and then it is the sum. |

## Left out

- Cache.Cache: the lists are sequences which the methods reassign, so relinking of nodes inside the cache is proved in `DList` and not again there.
- Cache.Cache.PutPage: requires the condition of `CacheSearch.RowDistinctIff`, that no page will be on death row twice, since what a page deleted twice leaves behind is not defined, and sizes within a factor of twenty, so that the assertion holds.
- Cache.Cache.ReplacePages: requires the same.
- CachePut.PutKeeps: requires the condition of `CacheSearch.RowDistinctIff`, and so do `PutFirst`, `CacheVersions.PutThenGet`, `CacheRuns.ApplyKeeps` and `CacheRuns.RunKeeps`.
- CacheSearch.RowNeverFull: says nothing of pages which are smaller; twenty of them can fill death row.
- CacheVersions.PutThenGet: says nothing about other versions of the page; what becomes of them is in `FirstReplaced` and `SubpagesCoexist`, the latter without evictions.
- CacheLedger.RunAccounted: supposes the conditions of `RunKeeps` on the stores of a run.
- CacheForeach.FindNext: requires a page whose numbers are in order, without which the loop never ends (`CacheForeach.NoNext`), and does not promise that every subpage is visited: the minimum can exceed subpage zero.
- CacheProofs.CountersWith: counts subpages modulo 256, as the eight-bit field does.
- The loops over lists which allow deletion on the way (FOR_ALL_NODES) walk a copy of the list taken at the start.
- Page contents, page classification by number and function, network identifiers and event handlers of the cache: an identifier is the network object, a page size a parameter per kind of page.
- vbi_cache_delete, vbi_cache_set_memory_limit beyond the eviction it causes, and the dump functions.
- DList: the checks of verify_ring, which only abort, and _remove_nodes for more than one node.
- Caption: the third buffer, which only serves to compose stream events, with all events and timestamps (`src/cc608_decoder.c:952-1045`, `1185-1234`); line 1218, where c1 is assigned instead of c2, belongs to these. No claim is made about events.
- Caption: no claim that XDS data is kept from the channels; line 2294 does not look at the flag, which is modelled.
- CaptionState: dirty words are sets of rows; the left shift is masked to fifteen rows as in the code.
- CaptionFormat: colours, opacity other than transparent space, and character attributes; vbi_caption_unicode is a parameter. This concerns `FormatColumn`, `FormatRow` and `PageCell`.
- Caption.Decoder.Feed: leaves out the history of errors and the reset of a decoder which was in use.
- Caption.Decoder.GetPage: leaves out the colour map and the fields of the page other than its cells.
- ProxyQueue: a client with pending frames stays eligible, and frames are not pending when acquisition stops, as in the daemon; the sizes of buffers, `max_lines` and raw frames are left out.
- ProxyQueue.Device.ForceFree: requires that the loop does not compare with the head of an emptied queue, where the daemon follows a null pointer; `ProxyQueueState.ForceFailsIff` says when that is, and two buffers suffice.
- ProxyQueue.Device.ForwardData: requires the same.
- ProxyQueue.Device: one device with its own clients is modelled. Those of other devices are in the list of the forced release only in `ProxyQueueState.ForceFailsIff`. A client which is closed stays in the list, from which the daemon takes it later (`daemon/proxyd.c:2514-2542`).
- ProxyQueue.Device.GetFreeBuffer: leaves out the reallocation of a buffer when the number of lines has changed.
- ProxyQueue.Device.Allocate: is no step of the runs of `ProxyQueueRuns`, which keep their buffers.
- ProxyToken: the comparisons of the scheduler are left out; it may pick any client of background priority. Time slots and cycle counts only serve these comparisons. This concerns `ChannelStopped`, `ChannelSchedule` and `ChannelUpdate`.
- ProxyTokenState.ApplyKeeps: supposes the condition of `ReturnKeepsIff` for a notification that the token was returned.
- ProxyTokenState.RunKeeps: supposes that only the owner notifies that the token was returned, which `daemon/proxyd.c:2237` does not check, and that no grant is taken over; both are exact by `ReturnKeepsIff` and `ApplyKeeps`. `RunUnique` does not need the second.
- Sockets, devices, threads, signals and command lines of the daemon.
- PacketRing: accesses of the two threads to shared data are steps which take place one after the other, in any order; what a weaker memory order could show is not modelled. Waking a sleeping consumer is left out.
- StartCodeScanner.Scanner.Decode: models the decoder without lost data, as does `DecodeStream`. A start code at the very end of the data is found when one more byte has arrived, as in the code.
- The rest of `contrib/atsc-cc.c`: caption recording, DTVCC windows, device code, channel configuration and its copy of the caption decoder.
- Recorder: label validity periods are given with the program; calendar computation, messages, test files and devices are left out. Times are integers and reals.
- Recorder.Vcr.DecodeFrame: states the full effect of a single program ID; of several in a frame only that they keep the recorder valid.
- Recorder.Vcr.CaptureFrame: the same, and with a label in a frame which begins a new second the signal check comes on top.
- ProxyTokenMessages: the outcomes are stated for clients of background priority; `AsksForeground` and `ForegroundUpdate` cover the others.
- Recorder.Vcr.StandbyLoop: the waiting for the first program is left out; it changes nothing but the time.
- Recorder.Vcr.StopRecordingIn30s: no bound on the time of the stop over a run is claimed, as `examples/pdc2.c:800` can plan it anew.
- Bcd.IsBcdIff: says nothing of the top digit, which the code does not test.
- Conversion of BCD numbers (`src/bcd.h:109-136`), bit slicing, character conversion, and the other decoders and examples.
