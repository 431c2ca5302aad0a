# Verification of the server's concurrent, spatial, arithmetic and file-format cores

This project models the hardest parts of the game server and of its map and quest tools, and
proves what they are relied upon for. One module stands for one component; a class stands for
an object whose methods change its fields, a state machine for a protocol between threads or
worlds, a function or a datatype for code that only computes. Each loop of the source is a
method with its invariants, proved against a specification function, and the theorems are about
that function.

## What is modelled

**The log queue** (`LogQueue`). A lock-free ring of 4096 slots with one sequence number per
slot, any number of producers, one worker, and the counter the worker parks on. Every atomic
load, store, compare-and-swap and read-modify-write is one step, and the steps of all threads
interleave freely. A schedule is a sequence of choices; the theorems are about the state after
every schedule.

**The OTBM map tools** (`Otbm`, `MapConvert`, `MapStream`, `MapTransform`, `MapIds`,
`MapSurvey`, `MapSetAid`, `MapReport`). A map is a tree of nodes that is written as escaped bytes between
markers. One tool rewrites the bytes in a single pass with a stack, one splices three escaped
bytes into them, and a third scans them with code of its own. The tree, its serialiser and the
tree-level meaning of each tool are the reference, and the byte-level programs are proved equal
to it.

**Chunks, the chunk grid and the area strike** (`Chunks`, `ChunkGrids`, `AreaStrike`, `StrikeArea`). A chunk
keeps its creatures in four parallel arrays, players before monsters before NPCs, with an index
in every creature and a counter per floor. The grid finds chunks through a dense array and a hash table
and links neighbours. A strike turns an area matrix into the positions it struck on one floor or on
several, and then picks, chunk by chunk, between a scan of the chunk's arrays under a bit mask and a
walk of the struck tiles.

**Damage** (`CombatDamage`, `DamageLists`). Piercing, stealing, the victim's defences and the
draining of a player, in 32-bit words with their wrap-around; and the generator of damage over
time, with exact rationals in place of floating point.

**Printers and readers** (`LuaText`, `LuaTokens`, `LuaPattern`, `LuaAtoms`, `LuaReader`, `LuaTerms`,
`LuaNotation`, `LuaBlocks`, `LuaReading`, `LuaIndexes`, `LuaRoundTrip`, `LuaClosure`; `ConditionCodec`,
`ConditionLayout`; `Xtea`, `Frames`). The Lua
table printer with the tokenizer and the recursive-descent reader of the porting tools; the tagged-field
serialisation of conditions; the block cipher and the framing of packets of the capture tools. `LuaTerms`
has the whole reader; `LuaReader` is its part for the values that the printer can write, answers
Unsupported elsewhere, and is proved to agree with the whole (`LuaTerms.TermAgrees`). `LuaNotation` and
`LuaBlocks` say of the rest what each text is read as.

**Bans and the database queue** (`Bans`, `TaskQueue`). Any number of worlds that retire expired
bans from one database, one sending of an SQL statement a step, where a sending may be lost on its way
there or on its way back and is then repeated; and the task queue with its lock, its condition
variable, its flush and its shutdown.

**The bestiary** (`Bestiary`). Kills, points, charms, their slots and the augments derived from
them.

**The life of conditions** (`Conditions`). Adding, removing and executing conditions on a
creature, where starting, merging or executing one may add and remove any others, in any depth, and
where haste and paralysis drive each other out.

`Bytes`, `Numbers` and `Options` hold the integers packed into bytes, minimum and maximum, and the result types.

## Idealisations

- Memory is sequentially consistent, and a section under a lock or an SQL statement is one step.
  Queue positions, counters, coordinates of chunks, kills and points are unbounded.
- The floating-point comparison of the tick generator is made on exact reals. Damage words wrap
  exactly where the source multiplies or adds unsigned words; the tick generator computes with unbounded
  integers, and `DamageLists.FitsExactly` says when 32 bits are enough for it.
- Floors are 8 by 8 tiles, as `src/floorpool.h` has them.
- Compression, decompression and checksums are parameters, and so are the death events, which
  either veto a death or do not.
- What starting, merging or executing a condition does to the condition list is an arbitrary script of
  additions and removals, and its outcome is a parameter. Ending one does not touch the list. What the
  code asks of a creature meanwhile (its walk delay, the kinds it suppresses, which conditions have not
  run out) is a parameter of each question; within one removal it does not change.
- The tiles, protection zones and lines of sight that a strike asks for are functions of the position;
  casters stand on one of the map's layers, and the range of floors is not negative.
- White space and names in Lua text are ASCII.
- Charm ids, charm names and race ids are unique, and bans are keyed by their account and stamped
  with the time of their issue.

## Limits of the code that the proofs bring out

- `AddCreature` breaks the order players, monsters, NPCs when a player enters a chunk that holds
  both monsters and NPCs: the first monster ends up behind the NPCs
  (`Chunks.AddPlayerBreaksPartition`), where an aggressive area strike no longer sees it
  (`AreaStrike.PlayerHidesMonster`). `Chunks.AddPartition` says that this is the only case, and
  `AreaStrike.ScansAllExactly` that the scan is complete if and only if none but NPCs stand there.
- The two ways of serving a chunk agree on all well-formed worlds if and only if no position is struck
  twice (`AreaStrike.PlainExactly`). The areas that the code builds meet this for every matrix that
  does not have two set cells a multiple of 65536 apart in both directions (`StrikeArea.SpotsOnce`,
  `StrikeArea.AreaExact`), so for every matrix that fits on the map (`StrikeArea.FitsNoAlias`).
- The tick generator's sum is the amount if and only if the amount is at least
  `start * (start + 1) / 2`; below that it is that bound (`DamageLists.SumExact`).
- Two percent of 2^31 points of damage pierces or steals nothing, because the product wraps
  (`CombatDamage.WrappedShareVanishes`); `CombatDamage.WordShareExact` says when it does not wrap. A flat
  weakness can wrap a large damage down to a small one (`CombatDamage.WeaknessAdds`).
- The tool that sets an action id edits one node, but the scanner does not always show it: an item
  behind a closed tile is edited and not reported (`MapReport.ItemBehindTile`), and so is one with
  attributes that the scanner does not know (`MapReport.UnreadableItem`). A reported item gains the id
  if and only if it had none, since the inserted attribute comes first and a later one wins
  (`MapReport.SetActionIdReported` for all maps). The scanner's
  comment calls an unknown attribute fatal; the code drops the line of that node and counts a
  warning.
- A printed Lua string with a backslash right before a `z` is not read back
  (`LuaText.StringRoundTrip`), a printed table with a gap in its integer keys comes back with other
  keys (`LuaRoundTrip.LayoutBroken`), and a key that is an identifier followed by a line feed loses
  the line feed (`LuaRoundTrip.LineFeedKeyLost`). A reference with an index, which the reader takes from
  `a[1]`, is printed as `a.1` and not read again (`LuaClosure.IndexReadOnce`). Nothing else goes wrong:
  `LuaRoundTrip.RoundTrip` has the four as its exact condition, for every value that the data reader can
  give (`LuaClosure.ReadFits`), and the whole reader reads the same (`LuaClosure.WholeReader`).
- The reader never ends on a call whose closing bracket is missing (`LuaTerms.CloseExactly`), nor on a
  function without its end, and of `f().x` it takes all and keeps `f()` (`LuaTerms.MemberLost`). Formulas
  are grouped from the right (`LuaNotation.RightToLeft`).
- Haste and paralysis are ever live together if and only if one slips by the rule that each drives the
  other out (`Conditions.BothExactly`, `Conditions.PassBothExactly`). A caller can tell beforehand
  (`Conditions.AddedBoth`): the creature is a monster; a forced haste meets a paralysis while the creature
  is in its step; or the live one is not seen, being suppressed, run out or of another sub-id.
- A condition whose start adds another of its own key ends up on the list twice
  (`Conditions.AddsItselfTwice`); `Conditions.JoinOneEach` says exactly when a key keeps to one.
- A modern frame whose sequence number has its high bit set is read as a compressed one
  (`Frames.HighSequenceMisread`); `Frames.ModernOpensExactly` says which frames are read back.
- `ChunkGrid::Reserve` forgets chunks when it is called after some were made inside the old or the new
  range; `ChunkGrids.Resized` and `Reserve` say exactly when it does.
- The database worker misses the shutdown's last notification if and only if that finds it between its
  look at the state and its wait (`TaskQueue.StopMissedExactly`, `TaskQueue.StopCanBeMissed`); only a
  later notification or a spurious wake-up still gets it out (`TaskQueue.StopSeenExactly`).
- The history of a retired ban has a row twice if and only if an INSERT is sent again after it was applied
  (`Bans.OneHistoryRowEach`). A DELETE whose answer is lost after it was applied leaves its row without
  any history row for good (`Bans.ResentDeleteFindsNothing`, `Bans.StaysUnrecorded`); the comment in the
  source takes the row for moved. `Bans.RepeatReached` and `Bans.LossReached` are runs that get there.

## Model

| member | source | states |
|---|---|---|
| LogQueue.ExecInv | src/console.h:204-277 | after every schedule of every number of producers the ring and wake invariants hold: head, tail, slot sequences and messages, slot ownership and the counter agree |
| LogQueue.StepInv | src/console.h:204-277 | one step of any thread keeps those invariants |
| LogQueue.DeliveredInOrder | src/console.h:220-274 | the delivered messages are a prefix of the messages in the order of the head CAS: none lost, duplicated or reordered |
| LogQueue.FullExactly | src/console.h:220-251 | Push answers full if and only if the occupant one ring length earlier is still unreleased, and then exactly 4096 positions are in use |
| LogQueue.LoadSeqVerdict | src/console.h:226-247 | what a loaded sequence number tells about any position up to the head: full exactly at the end of the released window, free only inside it |
| LogQueue.NoOverwrite | src/console.h:231-240 | a producer about to write finds its slot released and emptied and shares it with no other writer |
| LogQueue.NoStrandedMessage | src/console.h:735-745 | a parked worker with an unchanged counter and a message at the tail has a producer that still owes the counter; with a moved counter some thread owes the wake-up; with a stop requested it will be woken |
| LogQueue.ParkedMeansDelivered | src/console.h:400-407 | when all producers are done, a parked worker has delivered everything, and no finished shutdown waits for it |
| LogQueue.DrainedOnExit | src/console.h:735-749 | the drain after the stop ends only when everything claimed has been delivered, if no producer is under way |
| LogQueue.ExecFinalStopped | src/console.h:735-749 | the last drain starts only after a stop was requested |
| LogQueue.SubmittedConserved | src/console.h:400-407 | after every schedule each message is claimed or still held by its producer exactly as often as it was submitted |
| LogQueue.QuiescentDelivery | src/console.h:400-407 | at rest the delivered messages are, as a multiset, the submitted ones |
| LogQueue.WorkerDelivers | src/console.h:735-749 | from every reachable state with idle producers, however the schedule goes on without new messages: once the worker has had five steps for each undelivered message and ten more, everything is delivered in order, and it is parked if nobody asked it to stop and finished behind a shutdown |
| LogQueue.ShutdownDelivers | src/console.h:735-749 | from every such state, three steps of a shutdown and so many of the worker deliver everything and finish it |
| LogQueue.ServedStep | src/console.h:735-749 | each step of the worker that is not spurious brings it one nearer to its rest, and no other step takes it away |
| LogQueue.PushFinishes | src/console.h:220-251 | from every reachable state, a producer that runs alone is done within eight of its steps unless the ring is full: its message is next in the order and published, the counter has moved and the worker is not parked |
| LogQueue.PublishFinishes | src/console.h:231-240 | behind its CAS it is done within four, whether the ring is full or not |
| LogQueue.FullSpins | src/console.h:400-407 | in a full ring it never gets its message in by itself |
| Otbm.EscapeData | harness/build_canary_map.py:73-81 | the escaping loop with its shortcut for data without markers computes Escape |
| Otbm.UnescapeSegment | harness/build_canary_map.py:58-70 | the unescaping loop computes Unescape, and fails on a trailing escape byte |
| Otbm.UnescapeEscape | harness/build_canary_map.py:58-81 | unescape undoes escape on every byte string |
| Otbm.EscapeConcat | harness/build_canary_map.py:73-81 | escaping works piece by piece, which lets pieces be spliced |
| Otbm.EscapeShields | harness/build_canary_map.py:58-81 | a reader that steps over escape pairs meets no marker inside escaped data |
| Otbm.SerializeAllConcat | harness/build_canary_map.py:159-226 | the bytes of a list of nodes are the bytes of its parts one after the other |
| MapConvert.Converter.ItemId | harness/build_canary_map.py:104-110 | a looked-up id counts as an item or, by id, as a miss, and the answer is the table's |
| MapConvert.Converter.MapData | harness/build_canary_map.py:115-130 | the loop over the map attributes computes MapDataProps, errors included |
| MapConvert.Converter.Tile | harness/build_canary_map.py:132-149 | the loop over a tile's attributes computes TileProps and looks up exactly its ids, in order |
| MapStream.ConvertPayload | harness/build_canary_map.py:182-206 | the properties of one node, dropped or kept, become what the rule of its type says, with area, tile and log updated |
| MapStream.Settle | harness/build_canary_map.py:180-208 | the first marker after a node's type writes out its properties or truncates the output back to its start |
| MapStream.Convert | harness/build_canary_map.py:159-226 | the whole pass, loop and stack, computes Run, errors and log included |
| MapStream.RunNode | harness/build_canary_map.py:171-225 | over the bytes of any node, from any state of the stack, the pass writes the serialisation of the rewritten node and threads the environment as the tree rewrite does |
| MapStream.RunNodes | harness/build_canary_map.py:171-225 | the same for any list of sibling nodes |
| MapStream.RunEnter | harness/build_canary_map.py:173-217 | from a start marker to the end of the properties the pass does exactly what the rule says of the unescaped properties |
| MapStream.CloseWrote | harness/build_canary_map.py:218-225 | a child list written inside an entered node plus the end marker is the node written, and nothing for a dropped one |
| MapStream.DroppedWritesNothing | harness/build_canary_map.py:159-226 | below a dropped node nothing is written |
| MapTransform.RewriteIsTransform | harness/build_canary_map.py:95-226 | the threaded rewrite succeeds exactly when every kept node can be read, and then gives Transform: a reference with no bytes, stack or environment |
| MapTransform.ConvertIsTransform | harness/build_canary_map.py:159-226 | for every well-formed tree, converting its bytes succeeds exactly when the tree can be read and gives the bytes of the transformed tree |
| MapTransform.TransformConverts | harness/build_canary_map.py:95-157 | the result has version 2, no zone nodes, and only item nodes with server ids of the table |
| MapTransform.TileAttributesTranslate | harness/build_canary_map.py:132-149 | reading the rewritten tile attributes gives the old ones translated, in order, without the untranslatable; it fails exactly on unreadable or unpackable ones |
| MapTransform.TilePropsTranslate | harness/build_canary_map.py:132-149 | the first two bytes of a tile, or six of a house tile, stay, and what follows is translated |
| MapTransform.RootPropsExactly | harness/build_canary_map.py:112-113 | of the map's header only the version changes, to 2 |
| MapTransform.MapDataRewrites | harness/build_canary_map.py:115-130 | the map attributes are rewritten if and only if they can be read and the names fit; then all but 23 and 24 are there in order, 11 with the spawn file's name, 13 with the house file's and the others as they were |
| MapTransform.LookAllCounts | harness/build_canary_map.py:104-110 | every looked-up id is counted once, as a translated item or among the misses of that id |
| MapSurvey.RewriteReports | harness/build_canary_map.py:182-206 | the environment threaded through the rewrite of any forest is told by a survey of the forest alone: last area, last tile, ids and zones in file order |
| MapSurvey.ConvertReports | harness/build_canary_map.py:159-226 | converting a tree's bytes logs the zones of each readable zone node behind a tile, dropped nodes included, in file order and at the last tile's position, and counts each id of the survey as known or missing |
| MapIds.Props.U8 | harness/otbm_ids.py:74-77 | takes one byte off the unread rest or fails at the end |
| MapIds.Props.ReadU16 | harness/otbm_ids.py:79-82 | takes a word off the unread rest or fails, leaving the position |
| MapIds.ParseAttributes | harness/otbm_ids.py:97-120 | the attribute loop computes Attributes, where a later id overrides an earlier one and an unknown attribute is an error |
| MapIds.VisitNode | harness/otbm_ids.py:165-190 | one node adds its row, or a warning and no row |
| MapIds.WarnedExactly | harness/otbm_ids.py:165-190 | which nodes give a warning, and that such a node gives no row and any other at most one |
| MapIds.Walk | harness/otbm_ids.py:123-205 | the whole scan computes Scan, errors included |
| MapIds.ReadEscaped | harness/otbm_ids.py:152-163 | looking ahead over escaped properties gives the properties |
| MapIds.ScanNode | harness/otbm_ids.py:144-203 | over the bytes of any node the scan visits the node and its descendants in order and restores the stack |
| MapIds.ScanIsWalk | harness/otbm_ids.py:123-205 | the scan of a map file is the walk of its tree |
| MapSetAid.DecodeFrom | harness/otbm_set_aid.py:45-59 | the decoding loop computes Decode: the values and where their raw bytes end |
| MapSetAid.DecodeEscaped | harness/otbm_set_aid.py:45-59 | on escaped properties decoding gives their first bytes and the raw offset behind them |
| MapSetAid.FindItemNode | harness/otbm_set_aid.py:62-102 | the search loop computes Find: every matching item's insertion offset, or the error |
| MapSetAid.SetActionId | harness/otbm_set_aid.py:105-141 | no match, several matches and a failed search write nothing; one match writes the splice |
| MapSetAid.FindNode | harness/otbm_set_aid.py:62-102 | over the bytes of any node the search finds exactly the offsets that the tree marks, or gives up where the tree does |
| MapSetAid.SpliceNode | harness/otbm_set_aid.py:134-136 | inserting the escaped attribute behind the escaped item id is the serialisation of the node that has it |
| MapSetAid.MarkNodesSplices | harness/otbm_set_aid.py:134-136 | with one hit, the splice at its offset turns the bytes of the forest into the bytes of the marked forest; with none nothing differs |
| MapReport.SetActionIdOnTree | harness/otbm_set_aid.py:105-141 | the tool's outcome on the bytes of a tree is the outcome said of the tree |
| MapReport.AttributesDefault | harness/otbm_ids.py:97-120 | an action id read first survives exactly if no later one follows, and changes nothing else |
| MapReport.WalkNodesMirrors | harness/otbm_ids.py:123-205 | scanning marked and unmarked forests side by side gives the same place and warnings, and rows that differ by the edit alone |
| MapReport.SetActionIdReported | harness/otbm_set_aid.py:35-141 | whenever a map is written, the independent scanner gives as many rows and warnings as before and at most one row differs; the target has exactly one row if its hit lies in an open tile and has readable attributes, and none otherwise; that row gains the id if and only if it had none |
| MapReport.OneNodeEdited | harness/otbm_set_aid.py:105-141 | whenever a map is written, its tree differs from the old one in exactly one node, the hit, by the inserted attribute |
| MapReport.ReportEdited | harness/otbm_ids.py:123-205 | the rows of the two reports are the same, in the same order, but for the edit of the target, and the target's rows are those of the reported hits |
| MapReport.WalkNodesReport | harness/otbm_ids.py:123-205 | over any forest the scanner adds one row of the target for each hit in an open tile with readable attributes |
| MapReport.MarkNodesChange | harness/otbm_set_aid.py:62-136 | the marked forest differs from the forest in the hits alone and has one offset for each |
| MapReport.ItemBehindTile | harness/otbm_ids.py:192-198 | a map with an item behind a closed tile, which the tool edits and the scanner does not report |
| MapReport.UnreadableItem | harness/otbm_ids.py:165-190 | a map with an item of unknown attributes, which the tool edits and the scanner does not report |
| MapReport.WalkShows | harness/otbm_ids.py:123-190 | the default report is the full report without the rows that carry no id |
| Chunks.AddPartition | src/chunk.cpp:15-55 | adding keeps players before monsters before NPCs if and only if it is not a player entering a chunk with both monsters and NPCs |
| Chunks.AddPlayerBreaksPartition | src/chunk.cpp:28-38 | the smallest chunk that it breaks |
| Chunks.TakePartition | src/chunk.cpp:57-102 | removing any creature keeps the partition, with the counts of its group |
| Chunks.TakeAt | src/chunk.cpp:57-102 | one index map moves the entries of all four arrays |
| Chunks.TakenFromBijection | src/chunk.cpp:57-102 | that map hits every remaining entry exactly once and never the removed one |
| Chunks.TakeMultiset | src/chunk.cpp:57-102 | removing takes out exactly the one entry |
| Chunks.PlaceMultiset | src/chunk.cpp:15-55 | adding puts in exactly the one entry |
| Chunks.FloorEnter | src/chunk.cpp:22-26 | a creature entering a floor keeps the counters true and the number of non-empty floors exact |
| Chunks.FloorLeave | src/chunk.cpp:59-64 | a creature leaving a floor keeps them, and neither counter underflows |
| Chunks.Chunk.AddCreature | src/chunk.cpp:15-55 | arrays stay parallel, indices and floor counts true; the chunk stays partitioned if and only if it is not the breaking case |
| Chunks.Chunk.RemoveCreature | src/chunk.cpp:57-102 | the arrays become Take of the old ones, and a valid chunk stays valid |
| Chunks.Chunk.UpdateCreaturePosition | src/chunk.cpp:104-121 | the creature's row becomes its new position and nothing else changes; a valid chunk stays valid |
| Chunks.Chunk.SameFloorExactly | src/chunk.h:64 | the shortcut holds if and only if no two creatures stand on different floors |
| ChunkGrids.LookupExact | src/chunkgrid.cpp:40-51 | handles and coordinates determine each other |
| ChunkGrids.HandlesStable | src/chunkgrid.cpp:53-69 | over any run of requests handles keep their meaning and exactly the requested chunks are added |
| ChunkGrids.LinkedExactly | src/chunkgrid.cpp:87-102 | two chunks are linked to the south or to the east exactly if their coordinates say so, and a missing link means a missing chunk |
| ChunkGrids.CellsIndex | src/chunkgrid.cpp:29-38 | inside the dense range every coordinate has its own cell within the array |
| ChunkGrids.FileDense | src/chunkgrid.cpp:60-63 | a handle entered in the dense array changes the answer for its coordinate only |
| ChunkGrids.FileOverflow | src/chunkgrid.cpp:64-65 | the same for the overflow table |
| ChunkGrids.Resized | src/chunkgrid.cpp:15-27 | a new dense range keeps all answers if and only if no chunk lies in the old or the new range |
| ChunkGrids.ChunksAcrossCovers | src/chunkgrid.cpp:17-18 | the reserved range has exactly enough chunks for every tile of the map |
| ChunkGrids.ChunkGrid.FindChunk | src/chunkgrid.cpp:40-51 | the two tables answer like the abstract directory |
| ChunkGrids.ChunkGrid.Reserve | src/chunkgrid.cpp:15-27 | resizes exactly for a positive number of cells within the limit, and says exactly when the grid stays valid; on an empty grid it always does |
| ChunkGrids.ChunkGrid.GetOrCreateChunk | src/chunkgrid.cpp:53-69 | the directory grows by the coordinate if it was new, the handle is its handle, and links and tables stay exact |
| ChunkGrids.ChunkGrid.LinkNeighbors | src/chunkgrid.cpp:87-102 | afterwards every chunk's south and east links are exactly the handles of its existing neighbours |
| AreaStrike.PlaceInChunk | src/chunk.h:39-42 | a chunk is the eight by eight tiles that its coordinates say, and the mask bit is a tile's place in it, row by row |
| AreaStrike.BitTellsTile | src/combat.cpp:3551 | within a chunk the mask bit determines the tile, and there are 64 of them |
| AreaStrike.MaskExact | src/combat.cpp:3525-3552 | a bucket's mask shows a tile of its chunk if and only if some position strikes it |
| AreaStrike.FillBuckets | src/combat.cpp:3525-3552 | the loop makes one bucket for each struck chunk, each the one its positions call for |
| AreaStrike.ScanBucket | src/combat.cpp:3561-3579 | the scan loop computes Scan |
| AreaStrike.WalkBucket | src/combat.cpp:3580-3595 | the tile walk of one chunk computes Walk |
| AreaStrike.ScanFinds | src/combat.cpp:3557-3579 | in a well-formed world the scan, also of players and monsters only, finds each creature exactly as often as it is due |
| AreaStrike.WalkCount | src/combat.cpp:3580-3595 | so does the walk, if tiles and chunks agree |
| AreaStrike.TileByTileCount | src/combat.cpp:3497-3514 | and so does the plain loop over all tiles |
| AreaStrike.GatheredIsPlain | src/combat.cpp:3517-3598 | for distinct positions the gathered list is, as a multiset, the plain loop's, whichever way each bucket is served |
| AreaStrike.GatherBuckets | src/combat.cpp:3517-3598 | the method gathers what the buckets of the positions yield, in some order of the buckets, and so meets that |
| AreaStrike.Gather | src/combat.cpp:3381-3598 | from the first 256 tiles, on a well-formed world, each creature is gathered as often as its chunk files it if the flags mean it and it stands on a struck position, and else not; of top targets, exactly those on some tile whom the flags mean |
| AreaStrike.StrikeableExactly | src/combat.cpp:3405-3492 | the test for one creature is what each flag means by itself, and the top target's condition |
| AreaStrike.EnemyParty | src/combat.cpp:3473-3482 | a player's strike at enemies spares the caster and the partners among the players, and no one else whom the other flags allow |
| AreaStrike.EnemyMonster | src/combat.cpp:3473-3482 | a monster's spares the monster only |
| AreaStrike.FriendlyParty | src/combat.cpp:3461-3471 | a player's strike for friends means the caster and the partners only |
| AreaStrike.FriendlyMonster | src/combat.cpp:3461-3471 | a monster's means everyone else regardless of enemies and skulls |
| AreaStrike.SelfOnly | src/combat.cpp:3413-3414 | a strike at one's self means the caster only, if a valid target where it is aggressive |
| AreaStrike.Aggressive | src/combat.cpp:3421-3449 | an aggressive strike means players and monsters that are valid targets, and not the caster |
| AreaStrike.FraggedOnly | src/combat.cpp:3485-3489 | a strike at the fragged means players with a skull, and any player for a monster's friends |
| AreaStrike.TopsExactly | src/combat.cpp:3497-3515 | top targets are the caster on the caster's tile and the tile's top creature elsewhere, whom the flags mean |
| AreaStrike.TileCountExact | src/combat.cpp:3520-3553 | a bucket counts the struck positions over its chunk |
| AreaStrike.ValidChunkServes | src/chunk.h:43-70 | a chunk that satisfies the invariant of Chunks is what the strike relies on |
| AreaStrike.PlainExactly | src/combat.cpp:3525-3595 | the bucketed gathering is the plain loop on all well-formed worlds, for all strikes, if and only if no position is struck twice |
| AreaStrike.ScansAllExactly | src/combat.cpp:3557-3579 | a scan of the players and monsters misses no one that a scan of all would find, whatever tiles and targets that spare NPCs, if and only if only NPCs stand behind them |
| AreaStrike.PlayerHidesMonster | src/combat.cpp:3557-3579 | adding a player to any partitioned chunk with monsters and NPCs makes that scan incomplete |
| StrikeArea.CreateDamageLocations | src/combat.cpp:925-952 | the two offset lists hold one entry for each set cell, row by row, as 16-bit differences from the centre, and the extent is the largest of them |
| StrikeArea.CellsExact | src/combat.cpp:936-948 | the listed cells are exactly the set ones, each once |
| StrikeArea.GenPositions | src/simd_kernels.h:89-96 | each entry leads to its cell's spot around the centre, modulo 2^16, in spite of the narrowed offsets |
| StrikeArea.SpotExactly | src/combat.cpp:1074-1080 | a spot is as far from the centre as its cell from the matrix's, up to turns around a map of 65536 columns and rows |
| StrikeArea.OffsetsExactly | src/combat.cpp:1074-1080 | the stored offsets are columns and rows from the matrix's centre, as far as signed 16-bit words go |
| StrikeArea.SpotsOnce | src/combat.cpp:925-952 | no spot comes twice, around any centre, if and only if no two set cells agree modulo 2^16 in both coordinates |
| StrikeArea.FitsNoAlias | src/combat.cpp:925-952 | so none does for a matrix of at most 65536 rows and columns |
| StrikeArea.AreaExact | src/combat.cpp:1064-1166 | the area is exactly the positions in reach that pass the filter: the centre, its floor, all floors in range or the first with ground; all on the map, and each once if each spot comes once |
| StrikeArea.BuildValidatedArea | src/combat.cpp:1001-1168 | the loops over one floor, over floors and down to the first ground fill the two buffers with the area, in its order, and the tiles at its positions |
| StrikeArea.Strike | src/combat.cpp:3376-3598 | area and gathering together: unless only top creatures are struck, in a well-formed world and with a matrix as in SpotsOnce, each creature on the first 256 positions of the area whom the flags mean is found as often as its chunk files it, and no one else; of top targets exactly those on such a position |
| DamageLists.CloserExact | src/condition.cpp:1567-1569 | the loop condition on reals holds exactly when twice the sum plus the next tick stays below twice the target |
| DamageLists.StageOnTrack | src/condition.cpp:1558-1570 | each strength leaves the sum where the remaining strengths can still meet the amount |
| DamageLists.RoomLeft | src/condition.cpp:1558-1570 | repeated ticks never use up the room for one tick of each weaker strength |
| DamageLists.OneTickSuffices | src/condition.cpp:1558-1570 | for a small amount one tick of each strength already passes every target |
| DamageLists.Stage | src/condition.cpp:1563-1569 | the inner loop appends at least one tick and stops within half a tick of the target |
| DamageLists.GenerateDamageList | src/condition.cpp:1553-1571 | the list keeps what was there, is non-increasing, uses every strength from start to 1, and behind each strength comes to its target within half a tick or has one tick of it; it sums to the larger of the amount and 1 + ... + start; the largest number computed on the way is the larger of that sum and start times the amount |
| DamageLists.NearNext | src/condition.cpp:1558-1570 | one strength after the other keeps the running sums near their targets |
| DamageLists.FitsExactly | src/condition.cpp:1553-1571 | nothing leaves a signed 32-bit word if and only if start times the amount and 1 + ... + start do not |
| DamageLists.SumExact | src/condition.cpp:1553-1571 | the sum is the amount if and only if the amount is at least start(start + 1)/2, and never exceeds the amount by more than that |
| CombatDamage.PenetrateDamage | src/combat.cpp:1618-1636 | piercing and remaining parts add up to the damage |
| CombatDamage.WordShareExact | src/combat.cpp:1618-1636 | a percentage and a flat part in words are the intended share if and only if neither product nor sum leaves the word |
| CombatDamage.WrappedShareVanishes | src/combat.cpp:1618-1636 | an input for which the share wraps to nothing |
| CombatDamage.Steal | src/combat.cpp:1646-1755 | one theft takes the claim or what is left, and damage plus thefts stays constant |
| CombatDamage.ClaimExactly | src/combat.cpp:1646-1755 | a rate claims nothing without a positive part, and else its percentage plus its flat part, where a negative one comes back from the top |
| CombatDamage.ProcessSteal | src/combat.cpp:1646-1755 | what is left and the four thefts add up to the damage, and the thefts are the claims capped by it |
| CombatDamage.WeaknessAdds | src/combat.cpp:2181-2188 | a flat weakness raises the damage if and only if it does not wrap |
| CombatDamage.WeakenedExactly | src/combat.cpp:2181-2188 | a weakness adds whole percents up to the largest word, and its flat part with wrap-around |
| CombatDamage.ResistedExactly | src/combat.cpp:2198-2205 | a resistance takes whole percents and then its flat part, down to nothing |
| CombatDamage.CutExactly | src/combat.cpp:2213-2325 | a defence takes whole percents plus its flat part, and never more than there is |
| CombatDamage.DefenseAugment | src/combat.cpp:2179-2332 | after weakness and resist, the damage splits exactly into absorbed, restored, replenished, revived, reflected, deflected, ricocheted and remaining parts, each cut from what the ones before let through |
| CombatDamage.Player.DrainMana | src/player.cpp:2523-2532 | mana drops by the loss, never below zero, and not at all for infinite mana |
| CombatDamage.Player.DrainHealth | src/creature.cpp:775-829 | health drops by the loss, never below zero, and to one where nobody dies |
| CombatDamage.Player.ApplyDamage | src/combat.cpp:5030-5082 | barring a veto, the damage dealt is the damage capped by what can be drained and is exactly mana loss plus health loss; with a veto health is untouched and nothing is reported |
| Xtea.DecryptBlock | harness/packet_diff.py:38-45 | the decryption loop computes Decrypted |
| Xtea.EncryptBlock | harness/packet_diff.py:47-54 | the encryption loop computes Encrypted |
| Xtea.RoundSum | harness/packet_diff.py:38-54 | after n rounds the round sum is n steps on, whatever the data |
| Xtea.MixBits | harness/packet_diff.py:42-52 | every bit of a mix: the word crossed with itself four bits up and five bits down, added to itself, and crossed with the sum |
| Xtea.MixerWords | harness/packet_diff.py:42-52 | the first half of a round takes the key's word that bits 0 and 1 of the sum point at, the second half that of bits 11 and 12 |
| Xtea.RoundExactly | harness/packet_diff.py:50-53 | what a round of encryption makes of both words and the sum, in this order |
| Xtea.EncryptedExactly | harness/packet_diff.py:48-54 | encryption is 32 rounds from a sum of zero, up to 0xC6EF3720 |
| Xtea.IterateUndone | harness/packet_diff.py:38-54 | rounds are undone in reverse order |
| Xtea.DecryptEncrypt | harness/packet_diff.py:38-54 | decryption undoes encryption for every key and block |
| Xtea.EncryptDecrypt | harness/packet_diff.py:38-54 | encryption undoes decryption for every key and block |
| Xtea.Apply | harness/packet_diff.py:56-65 | the buffer loop codes every block, and refuses other lengths |
| Xtea.BufferRoundTrip | harness/packet_diff.py:56-65 | either direction undoes the other on every buffer of whole blocks |
| Frames.SplitFrames | harness/packet_diff.py:97-151 | the splitting loop computes Split, errors included |
| Frames.SplitConcat | harness/packet_diff.py:97-151 | frames that open one by one are split out of their concatenation in order |
| Frames.LegacyLimit | harness/make_fixture.py:25-32 | legacy_frame packs a body if and only if it has at most 65526 bytes |
| Frames.LegacyRoundTrip | harness/make_fixture.py:25-32 | splitting any concatenation of legacy frames returns exactly the bodies, in order |
| Frames.ModernRoundTrip | harness/make_fixture.py:35-48 | splitting any concatenation of packed modern frames, compressed or not, returns exactly bodies, sequence numbers and flags, in order, if and only if each message returns given the compressed stream that the ones before it have left |
| Frames.SplitExactly | harness/packet_diff.py:97-151 | the same for the rest of a capture from any position and any state of the stream |
| Frames.SendableReturn | harness/packet_diff.py:97-151 | messages with a low sequence number whose compression is undone on its own all return |
| Frames.ModernOpensExactly | harness/packet_diff.py:97-151 | a packed frame on its own is read back, body, sequence number and flag, if and only if its message is of that kind |
| Frames.HighSequenceMisread | harness/packet_diff.py:97-151 | an uncompressed frame with sequence number 2^31 and no body packs, and is not read back with any codec |
| Frames.XteaInvertible | harness/packet_diff.py:56-65 | the cipher has what the round trips need |
| Frames.ModernPlainExactly | harness/make_fixture.py:35-48 | a modern payload is the number of closing zeros, the body and those zeros, in whole blocks |
| Frames.LegacyPlainExactly | harness/make_fixture.py:25-32 | a legacy payload is the length of the body, the body and zeros, in whole blocks |
| Frames.UnpaddedExactly | harness/packet_diff.py:128-129 | which body any padding byte leaves, where one beyond the payload counts from its end once more |
| Frames.ResumedExactly | harness/packet_diff.py:130-138 | a compressed body that does not inflate by itself goes to the session's stream with the footer of a flush |
| Frames.UndecryptedExactly | harness/packet_diff.py:121-145 | left encrypted, a frame is its first word and the rest, never taken for compressed |
| Bans.ExecKeeps | src/ban.cpp:81-152 | over every interleaving, lost answers and second sendings included, the invariant of table, worlds, deleted and history rows holds |
| Bans.HistoryCounted | src/ban.cpp:81-106 | in every run each history row copies a deleted row, history rows beyond one each are as many as INSERTs applied again, and every deleted row is recorded, about to be, or dropped by a lost answer, a failed INSERT or a crash |
| Bans.OneHistoryRowEach | src/ban.cpp:81-106 | no two history rows come from one deleted row if and only if no INSERT was applied again |
| Bans.ResentInsertRepeats | src/database.cpp:86-111 | an applied INSERT whose answer is lost is sent again and recorded twice |
| Bans.ResentDeleteFindsNothing | src/ban.cpp:89-97 | an applied DELETE whose answer is lost finds nothing when it is sent again; the row is gone once and no world will record it |
| Bans.RepeatReached | src/ban.cpp:81-106 | a run from the start in which the history ends up with the same row twice |
| Bans.LossReached | src/ban.cpp:81-106 | a run from the start in which the row is in neither table, in any continuation |
| Bans.StaysUnrecorded | src/ban.cpp:81-106 | such a row gets no history row in any continuation of the run |
| Bans.OnlyExpiredRetired | src/ban.cpp:81-106 | no world's step removes or changes a ban that is unexpired or newer than the one it had read |
| Bans.SecondDeleteFindsNothing | src/ban.cpp:81-106 | of two worlds that retire the same row, the second deletes and records nothing |
| Bans.TakenUpExactly | src/ban.cpp:109-152 | a check takes up a ban only behind the second of its expiry, a sweep in that second already, and neither one without an end |
| Bans.RowsRetired | src/ban.cpp:81-106 | a world whose statements are answered gets through the rows it read: exactly those the table still has as they were read leave it, and each is recorded once |
| Bans.SweepFinishes | src/ban.cpp:135-152 | from every reachable state an answered sweep ends idle, with exactly the due bans gone from the table and each once more in the history |
| Bans.IssueKeeps | src/ban.cpp:89-94 | a newly issued ban is never the one a world has read |
| Bans.Database.RetireExpiredBan | src/ban.cpp:81-106 | alone, exactly the matching row moves to the history |
| Bans.Database.IsAccountBanned | src/ban.cpp:109-133 | banned if and only if a ban exists and has not passed its expiry, and then the caller learns its expiry, reason and issuer and otherwise nothing; an expired one is retired on the way |
| Bans.Database.SweepExpiredAccountBans | src/ban.cpp:135-152 | a sweep leaves exactly the unexpired bans and records each other one once |
| TaskQueue.ExecKeeps | src/databasetasks.cpp:17-88 | over every interleaving the queue's invariant holds |
| TaskQueue.TakenOnceInOrder | src/databasetasks.cpp:17-79 | accepted tasks are taken exactly once, in order, and all of them once the shutdown's flush has ended |
| TaskQueue.QuietAfterFlush | src/databasetasks.cpp:69-88 | whatever happens afterwards, nothing is queued, accepted or taken any more |
| TaskQueue.NoLostWakeup | src/databasetasks.cpp:17-50 | while running, the worker waits on a non-empty queue only if a notification is outstanding |
| TaskQueue.NotifiedWorkerServes | src/databasetasks.cpp:17-35 | the notification makes the worker take the oldest task next |
| TaskQueue.RefusedIffStopped | src/databasetasks.cpp:37-50 | a task is refused if and only if the shutdown has begun |
| TaskQueue.StopMissedExactly | src/databasetasks.cpp:17-88 | after every schedule up to the shutdown's last notification, a worker given its steps and no further wake-up stops if and only if the notification did not find it between its look at the state and its wait |
| TaskQueue.StopSeenExactly | src/databasetasks.cpp:17-88 | after that notification, over every schedule, the worker is on its way to see the stop if and only if it already was or a wake-up reaches it |
| TaskQueue.SeeingStops | src/databasetasks.cpp:17-35 | a worker on its way stops within its next two steps, in whatever company |
| TaskQueue.PokedStops | src/databasetasks.cpp:17-50 | an adder that still owes its notification, or a spurious wake-up, makes up for the missed one |
| TaskQueue.StopCanBeMissed | src/databasetasks.cpp:17-88 | a schedule that leads there, with nothing queued, after which the worker never stops without a wake-up |
| TaskQueue.WorkerGetsThrough | src/databasetasks.cpp:17-35 | from every reachable state of a running queue whose worker is awake or has nothing to do, two worker steps for each queued task, in whatever company short of the shutdown, take every task that was queued, in order |
| TaskQueue.WorkerRests | src/databasetasks.cpp:17-35 | on its own the worker then goes to sleep, with nothing queued and every accepted task taken |
| TaskQueue.FlushEnds | src/databasetasks.cpp:69-88 | the flush of a shutdown ends after a round for each queued task and one more, in whatever company, with every accepted task taken |
| Bestiary.CompleteExactly | src/bestiary.cpp:237-260 | a creature is complete from the largest of its thresholds on, however they are ordered |
| Bestiary.StageExactly | src/bestiary.cpp:237-260 | each stage below completion lasts from the thresholds before it up to its own |
| Bestiary.StagesOnlyRise | src/bestiary.cpp:237-260 | stages never fall as kills grow |
| Bestiary.EarnedKill | src/bestiary.cpp:297-309 | one more kill earns a creature's points exactly when it completes it, so they are awarded once |
| Bestiary.SpentTier | src/bestiary.cpp:317-346 | buying a tier adds exactly its price to what all slots have cost |
| Bestiary.NamesDistinct | src/bestiary.cpp:91-94 | augment names tell charms apart |
| Bestiary.AugmentExactly | src/bestiary.cpp:414-437 | a charm calls for an augment if and only if it has a tier, something to grant and a known creature, and for the one of its slot's tier |
| Bestiary.TierClamped | src/bestiary.cpp:96-100 | an augment's tier is the slot's, counted from zero and clamped to the three there are |
| Bestiary.RebuiltMatches | src/bestiary.cpp:414-437 | removing all charm augments and adding the derived ones leaves exactly the derived ones and every other augment |
| Bestiary.UnassignedMatches | src/bestiary.cpp:384-409 | removing one charm's augment by name leaves exactly the augments of the remaining slots |
| Bestiary.Registry.AddKill | src/bestiary.cpp:289-315 | the kill counts, the points rise exactly with the kill that reaches the largest threshold, and the balance, exclusivity and derived augments are kept |
| Bestiary.Registry.BuyCharm | src/bestiary.cpp:317-346 | bought if and only if the charm exists, has a tier left and is affordable; then the next tier, for the price of exactly that tier, with the ledger balanced and the augments rebuilt |
| Bestiary.Registry.AssignCharm | src/bestiary.cpp:348-382 | placed if and only if the charm is known, bought and free and the creature known and complete, without another charm of the category on it |
| Bestiary.Registry.UnassignCharm | src/bestiary.cpp:384-409 | freed if and only if assigned and paid for; tiers stay, augments follow |
| Bestiary.Registry.ApplyCharmAugments | src/bestiary.cpp:414-437 | afterwards the charm augments are exactly the derived ones, whatever was there |
| Bestiary.Registry.NewPlayerValid | src/player.h:163-168 | a new player satisfies all of it |
| Conditions.BothExactly | src/creature.cpp:1071-1249 | over every script of additions and removals, with scripts inside starts and merges, haste and paralysis are ever live together if and only if some addition slips by: it joins beside a live opposite that is unseen, deferred or on a monster |
| Conditions.PassBothExactly | src/creature.cpp:1410-1443 | the same over every pass of executing conditions |
| Conditions.AddedBoth | src/creature.cpp:1211-1249 | one addition leaves both live if and only if it starts, its key is new, the opposite is live, and it is unseen, or a forced haste comes while in the step, or the creature is a monster that does not delay it |
| Conditions.AddedList | src/creature.cpp:1236-1245 | behind an addition the list is what starting left and the new condition, without what it drives out, and exactly the latter are newly flagged |
| Conditions.JoinOneEach | src/creature.cpp:1230-1245 | a new condition is the only live one of its key if and only if its start left none of that key |
| Conditions.KeepsOneEach | src/creature.cpp:1211-1249 | over every script in which no start or merge adds its own key, each key has at most one live condition |
| Conditions.AddsItselfTwice | src/creature.cpp:1230-1245 | a start that adds its own key leaves two live conditions of it |
| Conditions.ApplyAllValid | src/creature.cpp:1211-1390 | after every script, list, flags and history agree, nothing has run, and only new conditions have joined |
| Conditions.KindRemovedExactly | src/creature.cpp:1288-1348 | unless put off, a removal by type takes exactly the live conditions of that type, and of that id if one is given, ends each once in the list's order, and changes nothing else |
| Conditions.ParalysisDeferredExactly | src/creature.cpp:1298-1304 | a removal of paralysis in a step, without force, changes nothing but that the scheduler is told once if there is one of it |
| Conditions.OneRemovedExactly | src/creature.cpp:1364-1390 | a removal of one condition takes that one and no other, with the same exception |
| Conditions.AddedMerges | src/creature.cpp:1230-1234 | a condition whose key is live is merged into the oldest of that key, and the list stays |
| Conditions.AddedWaits | src/creature.cpp:1216-1226 | a haste that meets a seen paralysis in a step is postponed, and one that does not start is gone |
| Conditions.AddedIsSeen | src/creature.cpp:1445-1458 | what was added is seen if and only if its sub-id is zero, it has not run out and its kind is not suppressed |
| Conditions.DropValid | src/creature.cpp:1288-1390 | a condition's flag is set and its end called exactly when it leaves the list |
| Conditions.EndLogged | src/creature.cpp:1288-1390 | the history says ended exactly for the flagged, once each, with no call afterwards |
| Conditions.TurnServes | src/creature.cpp:1415-1442 | one condition's turn: skipped if flagged, run once otherwise, ended if inactive and still listed |
| Conditions.PassServes | src/creature.cpp:1410-1443 | over every pass with arbitrary list changes: what runs does so once, in order and before its removal; what does not run was removed; what became inactive is removed |
| Conditions.PassPlain | src/creature.cpp:1410-1443 | without interference everything runs and the list loses exactly what became inactive |
| Conditions.ServedNext | src/creature.cpp:1415-1442 | what one turn adds to the account of a pass |
| Conditions.KeepNext | src/creature.cpp:1415-1442 | without interference a turn takes the condition off the list exactly if it became inactive |
| Conditions.Creature.ExecuteConditions | src/creature.cpp:1410-1443 | for arbitrary list changes made meanwhile: nothing runs twice, out of order, after its removal or if added during the pass; what did not run was removed, what became inactive is removed |
| Conditions.Creature.Turn | src/creature.cpp:1415-1442 | the loop's body serves one condition, with the list changes of its execution made through the methods |
| Conditions.Creature.AddCondition | src/creature.cpp:1211-1249 | refused, postponed with the scheduler, merged into the first live condition of its key, or started and then pushed and settled, exactly as delay, key and start decide |
| Conditions.Creature.OnAddCondition | src/creature.cpp:1071-1078 | a haste removes paralyses that the creature is seen to have, without force, and a paralysis removes hastes; a monster removes none |
| Conditions.Creature.HasCondition | src/creature.cpp:1445-1458 | true if and only if the kind is not suppressed and a live condition of it has sub-id zero and has not run out |
| Conditions.Creature.RemoveKindCondition | src/creature.cpp:1288-1348 | exactly the conditions of the type, and of the id if one is given, leave, or none while a paralysis is deferred; each ends once |
| Conditions.Creature.RemoveCondition | src/creature.cpp:1364-1390 | exactly the one condition leaves, unless deferred or not listed |
| Conditions.Creature.End | src/creature.cpp:1306-1310 | flag, list and end call go together for the one condition |
| ConditionCodec.ReadEncode | src/condition.cpp:91-100 | fields that a reader knows are all read back, and it stops right behind the end byte |
| ConditionCodec.TakeEncoded | src/condition.cpp:259-317 | the head's fields are read back in order and leave the rest |
| ConditionCodec.BaseRestored | src/condition.cpp:161-180 | the base fields survive, signed values included |
| ConditionCodec.RegenerationRestored | src/condition.cpp:874-903 | a regeneration survives |
| ConditionCodec.SoulRestored | src/condition.cpp:998-1017 | a soul regeneration survives |
| ConditionCodec.SpeedRestored | src/condition.cpp:1609-1643 | a speed change survives |
| ConditionCodec.LightRestored | src/condition.cpp:1882-1926 | a light survives |
| ConditionCodec.AttributesRestored | src/condition.cpp:430-465 | attributes survive, value by value through the reading cursors |
| ConditionCodec.IntervalsRestored | src/condition.cpp:1149-1192 | the intervals come back in order and add up their ticks |
| ConditionCodec.DamageRestored | src/condition.cpp:1149-1192 | exactly the unconsumed intervals come back |
| ConditionCodec.TicksAreTotal | src/condition.cpp:1163-1174 | the ticks are the sum of the intervals, while it fits |
| ConditionCodec.BodyRestored | src/condition.cpp:199-257 | the class created for a type knows its tags and gets its fields back |
| ConditionCodec.RoundTrip | src/condition.cpp:91-317 | create and unserialise, on the serialised condition, an end byte and any suffix, restores it and leaves the suffix |
| ConditionLayout.SerializedExactly | src/condition.cpp:161-180 | a condition is written as these tags with these payloads in this order, for every class |
| ConditionLayout.CreatedClass | src/condition.cpp:199-257 | which class, with which first values, is created for each of the 28 types |
| ConditionLayout.NoOtherClass | src/condition.cpp:252-255 | nothing is created for no type or a number beyond the types |
| ConditionLayout.KnownTags | src/condition.cpp:102-159 | which tags each class knows, and how many bytes follow them |
| ConditionLayout.UnknownTagFails | src/condition.cpp:91-100 | reading fails right behind an unknown tag or a value that is cut short |
| ConditionLayout.BaseFieldReplaces | src/condition.cpp:102-159 | a field of the base behind the head is read by every class and replaces what the head said |
| ConditionLayout.BaseFieldExactly | src/condition.cpp:102-159 | each of the six tags sets its own field, signs included |
| ConditionLayout.EndlessTicksStay | src/condition.cpp:1163-1174 | a damage without end stays so, whatever intervals are read |
| ConditionLayout.StreamEnds | src/condition.cpp:91-100 | the end of the stream ends the fields as the end byte does, even right behind a value |
| ConditionCodec.PropStream.CreateCondition | src/condition.cpp:259-317 | the method reads the head as Created says |
| ConditionCodec.PropStream.Unserialize | src/condition.cpp:91-159 | the loop reads fields as ReadFields says |
| ConditionCodec.PropWriteStream.Serialize | src/condition.cpp:161-180 | the method appends what Serialized says |
| LuaText.DecimalRead | harness/build_canary_monsters.py:55-84 | printed numbers read back as themselves, with no leading zero |
| LuaText.StringRoundTrip | harness/build_quest_log.py:98-102 | a printed string is unquoted to itself if and only if it has no backslash right before a z |
| LuaText.LayoutExactly | harness/build_canary_monsters.py:71-84 | a table is printed as `{}`, on one line exactly if it is inside of another, holds no table and fits 160 characters, and otherwise a line for each part |
| LuaText.LinesGrow | harness/build_canary_monsters.py:83-84 | each part has its own line with indentation and comma, in order |
| LuaText.JoinGrows | harness/build_canary_monsters.py:80 | parts on one line are in order with a separator between two of them and none at the end |
| LuaText.KeyExactly | harness/build_canary_monsters.py:74-76 | a key is printed plainly if it is an identifier (or one before a last line feed) and in brackets otherwise, escaped or with its sign |
| LuaText.EscapesRead | harness/build_quest_log.py:98-102 | behind a backslash, n and t give a line feed and a tab, a line feed keeps its backslash, anything else stands for itself |
| LuaPattern.NumberIsLongest | harness/build_quest_log.py:76 | a number ends where the longest hexadecimal or decimal one does that stands there, with fraction and exponent |
| LuaPattern.OperatorIsLongest | harness/build_quest_log.py:78 | an operator is the longest one that stands there, of the 26 there are |
| LuaPattern.QuoteExactly | harness/build_quest_log.py:75 | a quoted literal ends at the first quote behind an even number of backslashes, and not at all if there is none |
| LuaPattern.LongExactly | harness/build_quest_log.py:72-74 | a long bracket opens with two brackets of one level and ends with the first closing ones of that level |
| LuaPattern.CommentExactly | harness/build_quest_log.py:73 | any other comment goes up to the end of its line |
| LuaPattern.RunsExactly | harness/build_quest_log.py:71-77 | white space and names are the longest that stand there |
| LuaPattern.KindExactly | harness/build_quest_log.py:70-79 | which alternative matches, and that the order of the alternatives matters only for comments and long strings |
| LuaText.CharsExactly | harness/build_quest_log.py:71-77 | the digits, spaces and name characters one by one |
| LuaTokens.Tokens | harness/build_quest_log.py:82-95 | the tokenizing loop computes Tokenize, errors included, and where in the text each token starts |
| LuaTokens.SkipSpace | harness/build_quest_log.py:71-95 | white space between tokens does not matter |
| LuaTokens.TokenizeAtoms | harness/build_quest_log.py:71-95 | text put together from pieces that stand as tokens is tokenized into those tokens |
| LuaAtoms.DocFlatten | harness/build_canary_monsters.py:55-84 | the printed pieces are the printed text, in both layouts |
| LuaAtoms.DocStands | harness/build_canary_monsters.py:55-84 | every printed piece stands as one token where the printer puts it |
| LuaAtoms.PrintedTokens | harness/build_quest_log.py:71-95 | printed text without an index is tokenized into exactly the printed tokens |
| LuaAtoms.PrintedStrays | harness/build_quest_log.py:71-95 | with an index, into the printed tokens up to the first one and some number there, or not at all |
| LuaTerms.Parser.Value | harness/build_quest_log.py:155-186 | the method reads any value as TermAt says and moves behind it, errors and endless loops included |
| LuaTerms.Parser.Fields | harness/build_quest_log.py:233-254 | the table loop reads entries as FieldsAt says, whatever their keys |
| LuaTerms.Parser.DottedName | harness/build_quest_log.py:173-183 | the method reads a dotted reference, or keeps a call as text, as NameAt says |
| LuaTerms.Parser.Function | harness/build_quest_log.py:133-153 | the loop keeps the text of a function up to the end that closes it, or never ends |
| LuaTerms.Parser.Call | harness/build_quest_log.py:192-202 | the loop keeps the text of a call and of the calls chained to it |
| LuaTerms.Parser.Arguments | harness/build_quest_log.py:204-220 | the loop stops behind the bracket that matches, or never ends |
| LuaTerms.TermAgrees | harness/build_quest_log.py:155-254 | at every token of every text, wherever the data reader gives a value or an error the whole reader gives the same and stops at the same token |
| LuaTerms.CloseExactly | harness/build_quest_log.py:211-220 | taking arguments ends at the first closing bracket that brings the depth back to zero, and never if and only if there is none |
| LuaTerms.MemberLost | harness/build_quest_log.py:196-202 | a member without arguments behind a call is taken, and its text is not kept |
| LuaTerms.BetweenIs | harness/build_quest_log.py:192-202 | text that is kept is the source's own from the first token to the last, spaces and comments included |
| LuaNotation.FractionReads | harness/build_quest_log.py:164-166 | every fraction is read as a number between its whole part and the next, which times ten for each digit behind the dot is all its digits |
| LuaNotation.ExponentReads | harness/build_quest_log.py:164-166 | an exponent n behind a fraction multiplies it by 10^n, and -n divides it |
| LuaNotation.WholeExponentReads | harness/build_quest_log.py:164-166 | the same behind a whole number |
| LuaNotation.HexadecimalReads | harness/build_quest_log.py:164-166 | every number written in hexadecimal digits, small or large, is read as itself |
| LuaNotation.WholeReads | harness/build_quest_log.py:164-166 | whole numbers are read as themselves, and refused for a leading zero before anything but zeros |
| LuaNotation.FractionAlone | harness/build_quest_log.py:71-95 | a fraction is one token |
| LuaNotation.HexadecimalAlone | harness/build_quest_log.py:71-95 | a hexadecimal number is one token |
| LuaNotation.SignedNumberReads | harness/build_quest_log.py:170-172 | a sign turns any number round |
| LuaNotation.FormulaReads | harness/build_quest_log.py:222-231 | two strings are joined by two dots, and any other operator makes a formula of the two sides in their order |
| LuaNotation.RightToLeft | harness/build_quest_log.py:222-231 | `a - b - c` is read as a formula of a and of b - c |
| LuaNotation.KeysAlike | harness/build_quest_log.py:233-254 | keys are alike by value, truth values among the numbers, and references and code never |
| LuaNotation.TableKeyFails | harness/build_quest_log.py:238-242 | a table as a key is an error behind its value |
| LuaNotation.LongStringReads | harness/build_quest_log.py:161-163 | a long string of any level is one token, and is read as its body without a first line feed |
| LuaBlocks.FunctionKept | harness/build_quest_log.py:133-153 | a function whose blocks are properly nested, in whatever depth, is kept as its text up to the word that closes it |
| LuaBlocks.CallKept | harness/build_quest_log.py:192-220 | a call with its chained calls is kept as the text up to the last arguments, whatever the arguments are |
| LuaBlocks.NamedCallKept | harness/build_quest_log.py:173-183 | so a name with arguments behind it is read as the text of its call |
| LuaReading.PrintedReads | harness/build_quest_log.py:105-254 | reading a printed layout gives its value, with the strings and keys that come back, and uses up the text, at every depth |
| LuaIndexes.DocJams | harness/build_quest_log.py:155-254 | at every depth, the tokens up to a reference's index followed by a number make reading fail or stop at a dot |
| LuaIndexes.PrintedReadsExactly | harness/build_quest_log.py:105-254 | any printed layout is read to its end if and only if none of its references has an index |
| LuaRoundTrip.LayoutMeaning | harness/build_canary_monsters.py:55-84 | the printer's split into named fields and array part means the same dict if and only if no table has a gap in its positions |
| LuaRoundTrip.LayoutBroken | harness/build_canary_monsters.py:55-84 | with a gap the split means another dict |
| LuaRoundTrip.BackKeyExact | harness/build_canary_monsters.py:52-76 | a key comes back as itself if and only if it has no backslash right before a z and is no identifier with a line feed behind it |
| LuaRoundTrip.BackMeaning | harness/build_canary_monsters.py:55-84 | the layout of what comes back means the value printed if and only if no table has a gap and every string and key survives |
| LuaRoundTrip.RoundTrip | harness/build_quest_log.py:105-254 | for dicts with any references, what the printer wrote is read to its end if and only if no reference has an index, and gives back the same nested value if and only if, besides, no table has a gap and every string and key survives |
| LuaRoundTrip.OneFieldRead | harness/build_quest_log.py:233-254 | a table with one field is read to its end if and only if its value has no index, and then has one field, under its key if and only if the key survives |
| LuaRoundTrip.LineFeedKeyLost | harness/build_canary_monsters.py:52-76 | a field whose key is an identifier and a line feed comes back under the identifier |
| LuaClosure.ReadFits | harness/build_quest_log.py:105-254 | whatever the text, a value that the data reader gives is one that the round trip speaks of |
| LuaClosure.ReadTwice | harness/build_quest_log.py:105-254 | so what was read from any text, printed and read again, gets through and means the same exactly under that condition |
| LuaClosure.WholeReader | harness/build_quest_log.py:105-254 | the whole reader gets through printed text if and only if no reference has an index, and then to the same value as the data reader |
| LuaClosure.IndexReadOnce | harness/build_quest_log.py:171-183 | every name with a number in brackets is read as a reference whose print is not read to its end |

## Left out

- LogQueue.ExecInv: sequentially consistent steps; the weaker memory orders that the C++ code asks for are not modelled.
- Rounding of floating-point numbers, everywhere.
- The contents of a log message, writing to files, rotation and the metrics channels; messages that a producer pushes while or after the worker drains for the last time.
- Reading and writing the files of the map tools, their command lines, the spawn and house files, and the names in the zone sidecar.
- Truncated or unbalanced maps: the byte-level programs are modelled on all bytes, errors included, but the comparison with the tree is made for serialised trees.
- Block masks and floors of a chunk, chunk generations, the hash function of the overflow table, and 16-bit counters of creatures per chunk.
- MapSetAid.SetActionId: the target's item and action id are words of 16 bits, as the map stores them; the tool's command line takes any integer, finds nothing for an item id outside them and fails to pack such an action id. The same holds of MapReport.SetActionIdReported.
- The batch damage computation of an area strike, its effects and its spectators; the choice among an area's matrices by direction, their rotation and the vector forms of the position loop.
- StrikeArea.BuildValidatedArea: the distance and the stored extent that are handed back beside the buffers are left out, and so is the cache of the last chunk looked up.
- Conversion and reform of damage, charges, the choice of defence modifiers, critical hits, notifications, and the damage to monsters.
- DamageLists.GenerateDamageList: unbounded integers; what becomes of the list beyond the bound of DamageLists.FitsExactly is not modelled.
- Outfits, invisibility, drunkenness, cooldowns and the other conditions that add nothing to the base when they are written; percentages of attributes, which the source does not write either.
- ConditionCodec.StoreAt: where the source would store behind the end of an attribute array, given more values than it has, the model stores nothing.
- LuaTerms.Parser.Value: a formula is kept as its operator and its two sides; the text that Python would format for it is not modelled. Fractional numbers are exact.
- LuaTerms.CloseExactly: an endless loop of the source is an answer of its own; that the source keeps taking tokens behind the end is not modelled further.
- Printing of floating-point numbers and of values that are no tables, strings, numbers, booleans or references.
- SQL text, IP bans and name locks; a world that reads a ban and never acts on it is a crash, and a SELECT whose connection is lost is one that was not sent.
- TaskQueue.NoLostWakeup: safety only; that threads get their steps is a hypothesis of TaskQueue.StopMissedExactly and TaskQueue.WorkerGetsThrough and not a theorem.
- Running a task and its callback, and the states of the thread holder before its start and during an orderly stop.
- Stage messages, the tracker, loot statistics and the loading of charms; kills, points and prices beyond 32 bits; a charm id outside the loaded range.
- Conditions.Creature.AddCondition: what merging into a live condition changes inside it, the spawn zone's triggers, and the dismounting that an outfit brings are left out; a postponed haste that comes due is a call of its own.
- Sending of icons and messages when conditions start and end, combat conditions, and their tick events.
- Frames.ModernRoundTrip: compression, its inverse and the inverse of a stream in several parts are any functions.
- Text encodings: strings are sequences of characters, and bytes are numbers below 256.
