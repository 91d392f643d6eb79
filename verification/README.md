# Curtin's planners, verified

Curtin installs an operating system on a machine. Most of it calls external tools; the parts modelled here
decide what those tools are told to do. Each is written in Dafny in the form the code has (classes and loops
where it updates things, functions where it computes), and its properties are proved for all inputs.

| part | files |
|---|---|
| Shutdown of storage: the plan, its order, the run, the diagram | `ShutdownPlan`, `ShutdownOrder`, `ShutdownTies`, `ClearHolders`, `HoldersFormat` |
| APT sources: one-line to deb822, the text, the two generators | `AptConvert`, `Deb822Text`, `DebFields`, `AptOrder`, `AptGenerators`, `AptInPlace` |
| Partition tables and the version 2 disk run | `Alignment`, `PartTables`, `DosTable`, `TableEntries`, `DiskPlan`, `DiskActions`, `DiskPlanner`, `DiskRun`, `DiskState`, `DiskSafety`, `DiskHandler`, `DiskCases` |
| Partition handler, version 1 | `PartitionV1`, `PartitionV1Gpt` |
| Order of storage configuration | `StorageDeps`, `StorageOrder`, `StorageSort`, `StorageNames`, `StorageMerge`, `StorageTie` |
| Wiping files, merging configuration, partition names | `FileWipe`, `ConfigMerge`, `NameEncoding` |
| Shared: option and result, sorting, splitting and joining lines | `Wrappers`, `Sorting`, `Text` |

`dafny verify dfyconfig.toml` checks the whole project.

## Findings

Where a promised property does not hold of the code, the code is modelled as it is, a lemma or method gives an input
for which it fails, and another says for all inputs exactly when it holds.

- **A kept file system can be destroyed by zeroing next to it** (`DiskCases.ZeroingCanSpill`). The version 2 disk run
  zeroes a whole MiB at the start of every preserved partition that has a wipe set; if that partition is smaller than
  a MiB, its neighbour is hit. The comment at lines 509-515 of `curtin/commands/block_meta_v2.py` speaks of zeroing
  where new partitions will be; the code zeroes only preserved ones, and the model follows the code.
- **A shrunk file system can outgrow its partition** (`DiskCases.ShrinkCanMisfit`): it is shrunk to the size asked
  for, ten billion bytes on sectors of 4096 bytes in the example, and the table rounds that size down to whole
  sectors. A kept file system is safe at every step if and only if
  no wipe or zeroing reaches into its partition and a planned resize fits whole sectors
  (`DiskSafety.KeptDataExactly`); where partitions do not overlap only zeroing can reach in
  (`DiskHandler.HandleDisk`).
- **The deb822 generator can leave an enabled stanza without components** (`AptGenerators.EmptiedExample`). That
  happens exactly when disabling components takes all of them from an active source, or the source, like a flat
  repository, never had any (`AptGenerators.EmptyStanzaExactly`). The one-line generator drops a line that loses all
  its components (`AptGenerators.GenerateLegacy`).
- **Version 1 partitions need the right numbers** (`PartitionV1.AsPlannedExactly`). On a disk declared as primaries,
  an extended partition and logicals, each partition lies where the ones before it leave off if and only if no number
  is given twice, the first is 1, 5 is the number of the first logical one only (and is its number where no primary
  comes first), and every partition has a sector. Counted numbers do exactly with at most three primaries before the
  extended partition (`PartitionV1.CountedNumbersDo`). A primary declared right after the extended partition is put
  where that one starts (`PartitionV1.PrimaryAfterExtended`).
- **Shared references can put a storage item before what it rests on** (`StorageTie.OrderSharedCache`): two bcache
  devices with one cache device have equal dependency trees, so the name decides. An item comes after what it rests
  on if and only if their trees differ, or type and field put it after, or on a tie the configuration lists it later
  (`StorageMerge.ExactPlace`). Without shared references the trees always differ
  (`StorageMerge.AfterWhatItRestsOn`).
- **`align_up` needs a power of two**: for every other block size already the size 1 is aligned wrongly
  (`Alignment.OneMisaligned`), so the result is a multiple for all sizes if and only if the block size is a power of
  two (`Alignment.MaskNeedsPow2`). The constructor's divisibility check provides that (`PartTables.OneMibIsPow2`).
- **`merge_config` is not associative** (`ConfigMerge.MergeNotAssociative`). It is where, at every key and depth, the
  second configuration does not put a plain value between dictionaries of the first and the third, unless the first's
  dictionary adds nothing to the third's; and only there (`ConfigMerge.MergeAssociates`).
- **Decoding an escaped partition name does not always give the name**: an accented letter comes back as two
  characters (`NameEncoding.AccentComesBackAsTwo`). The name comes back if and only if it is ASCII
  (`NameEncoding.RoundTripExactlyAscii`).

## Model

| member | source | states |
|---|---|---|
| ShutdownPlan.Planner.Flatten | curtin/block/clear_holders.py:504-535 | The recursive update of the registry leaves exactly the registry that the specification `Flattened` gives for the old one. |
| ShutdownPlan.PlanShutdown | curtin/block/clear_holders.py:476-560 | The planner, from sorting the trees to sorting the registry, yields the plan about which the ordering lemmas speak. |
| ShutdownPlan.ProperSubtree | curtin/block/clear_holders.py:512-520 | A tree above another is strictly smaller, so where equal devices carry equal trees no device can hold itself. |
| ShutdownOrder.FlattenedRises | curtin/block/clear_holders.py:504-535 | After one call every edge of the tree goes from a lower to a higher level, whatever was registered before; no level ever falls, and nothing outside the tree changes. |
| ShutdownOrder.FlattenedAllRises | curtin/block/clear_holders.py:533-539 | The same for a list of trees in turn: later bumps do not undo the edges of trees done earlier. |
| ShutdownOrder.PlanListsEachDeviceOnce | curtin/block/clear_holders.py:537-560 | For every consistent forest the plan lists each of its devices exactly once, with its type, and no others. |
| ShutdownOrder.PlanClearsHoldersFirst | curtin/block/clear_holders.py:553-560 | Each device comes strictly after every device that holds it, directly or through others, and never before. |
| ShutdownOrder.PlanIgnoresTreeOrder | curtin/block/clear_holders.py:496-497 | Any permutation of a consistent forest gives the identical plan, ties included. |
| ShutdownOrder.RootLevel | curtin/block/clear_holders.py:499-531 | A device met for the first time gets the larger of the level it is met at and the number of devices with holders from it on; one met again goes just above both levels. |
| ShutdownOrder.PlanOrder | curtin/block/clear_holders.py:541-560 | The plan runs down the levels, and within one level from crypt over raid, lvm, bcache and partitions to disks. |
| ShutdownTies.TiesAsMet | curtin/block/clear_holders.py:485-560 | Devices of one level and type come in the order in which they are first met, walking the trees by device and each from its root. |
| ClearHolders.GenConsistent | curtin/block/clear_holders.py:445-473 | Trees generated from one view of sysfs are consistent: equal devices carry equal subtrees. |
| ClearHolders.PlanFollowsSysfs | curtin/block/clear_holders.py:626-631 | Planned are exactly the devices reached from the base paths through holders and partitions, each once, every holder first. |
| ClearHolders.RunPlan | curtin/block/clear_holders.py:633-649 | Each entry's turn, in order and by type: a disk or partition is left alone when data is to be kept and wiped otherwise; bcache, lvm, raid and crypt devices get the shutdown of their type in either case, unless they are gone; the trace says what each turn changes. |
| ClearHolders.ClearAll | curtin/block/clear_holders.py:614-649 | On any sysfs graph without cycles each device has its turn after all of its holders, and no disk or partition is shut down when data is to be kept. If handlers bring nothing back and all but those of disks and partitions take their own device away, then at a shutdown the only holders still present are disks and partitions, and at the end so is all that rests on the base paths. |
| HoldersFormat.FormatTree | curtin/block/clear_holders.py:570-581 | The nested loops give the lines of the specification `Lines`. |
| HoldersFormat.DiagramRoundTrip | curtin/block/clear_holders.py:563-583 | For names without newlines an independent reader recovers the names and who holds whom from the diagram; the last holder of every device hangs from a corner and every other from a tee, with a bar down its side. |
| HoldersFormat.DiagramInjective | curtin/block/clear_holders.py:563-583 | Trees with equal diagrams are equal in names and shape. |
| AptConvert.Flatten | curtin/commands/apt_config.py:230-255 | The first pass keeps one stanza for each (disabled, type, URI, suite) that survives, with the union of the components of its lines. |
| AptConvert.MergeSuiteKeeps | curtin/commands/apt_config.py:259-267 | One step of the suite pass keeps the meaning and the invariants (stanzas of equal prefix have disjoint suites); a missing key is met only where it is handled. |
| AptConvert.MergeSuites | curtin/commands/apt_config.py:257-267 | The suite pass keeps the meaning and leaves no two stanzas that it could still merge. |
| AptConvert.OneDebMatches | curtin/commands/apt_config.py:269-279 | A deb-src stanza can combine with at most one deb stanza, so its key is never deleted twice. |
| AptConvert.FoldSource | curtin/commands/apt_config.py:269-279 | Folding one deb-src stanza keeps the meaning and touches only that stanza and its match. |
| AptConvert.MergeTypes | curtin/commands/apt_config.py:269-279 | The type pass keeps the meaning and leaves no deb-src stanza that still matches a deb stanza. |
| AptConvert.NormalForm | curtin/commands/apt_config.py:257-279 | After both passes no two stanzas can be merged by either; the second pass does not reopen the first. |
| AptConvert.Convert | curtin/commands/apt_config.py:229-296 | Every valid line but a disabled deb-src line has a stanza that is enabled as the line is, with its type, URI, suite and all its components, and every source and component of a stanza comes from such a line, so a deb-src stanza is never disabled; the stanzas come in the order of the first lines about their sources; no two stanzas could still be merged; signed by the archive keyring exactly when all URIs are known mirrors. |
| Deb822Text.StanzaParses | curtin/commands/apt_config.py:173-217 | The fields printed for one stanza parse back to that stanza. |
| Deb822Text.PrintParseRoundTrip | curtin/commands/apt_config.py:173-217 | Parsing the joined printed stanzas gives the same stanzas in order; printing none is an error to the parser. |
| Deb822Text.PrintInjective | curtin/commands/apt_config.py:197-217 | Different lists of stanzas print differently. |
| DebFields.FieldsRead | curtin/commands/apt_config.py:173-190 | A line is a field exactly if it is a key without spaces, a colon, and a value. |
| DebFields.OneMoreLine | curtin/commands/apt_config.py:173-190 | A field sets its key to its value, replacing an earlier one; any other line changes nothing. |
| DebFields.KeysIgnoreCase | curtin/commands/apt_config.py:167-171 | Keys that differ only in case name the same field. |
| DebFields.StripDropsSpace | curtin/commands/apt_config.py:174-190 | Of a value just the white space before and behind it is dropped. |
| DebFields.MissingIsReported | curtin/commands/apt_config.py:182-189 | A paragraph is refused exactly when it lacks one of the four required fields, and the first it lacks is reported. |
| AptGenerators.Arrange | curtin/commands/apt_config.py:141-163 | A printed set shows each element once, in the order of its sort key. |
| AptGenerators.ArrangeStanza | curtin/commands/apt_config.py:141-164 | The stanza's sets are listed as they are printed: deb before deb-src; main, restricted, universe, multiverse before other components; the release, then its updates, security, backports and proposed pockets before others, by what follows the first dash; the rest, and URIs, by name. |
| AptGenerators.ConvertText | curtin/commands/apt_config.py:229-296 | The converted text parses, and its stanzas mean what the lines mean; it is empty, and refused by the parser, exactly when no line survives. Its stanzas come in the order of the first lines about them, their values in print order. |
| AptGenerators.MaybeConvert | curtin/commands/apt_config.py:220-226 | Text that parses is returned as it is; other text is converted with its meaning kept. |
| AptGenerators.ConvertTwice | curtin/commands/apt_config.py:220-226 | Converting a second time changes nothing. |
| AptGenerators.DisableSuites | curtin/commands/apt_config.py:530-547 | Exactly the active lines of disabled suites are commented out, in place. |
| AptGenerators.DisableComponents | curtin/commands/apt_config.py:550-569 | Line by line: kept, or commented out and followed by a line with what remains. |
| AptInPlace.DisabledInPlace | curtin/commands/apt_config.py:550-569 | Every line is still in its place, in order: as it was, or, if it is active and loses a component, commented out with all its components and followed by a line with those that remain. |
| AptGenerators.DisabledLinesOffer | curtin/commands/apt_config.py:550-569 | What the lines offer afterwards is what they offered before without the disabled components, main never among these; no active line is emptied. |
| AptGenerators.GenerateLegacy | curtin/commands/apt_config.py:603-613 | The one-line generator enables exactly the wanted (type, URI, suite, component) tuples and never leaves an active line emptied of its components. |
| AptGenerators.CustomizeAll | curtin/commands/apt_config.py:656-682 | Each stanza that keeps a suite, in order, with its URIs and suites rendered and the disabled suites and components taken out; the others are dropped. |
| AptGenerators.OffersExactly | curtin/commands/apt_config.py:641-682 | So customized, the converted stanzas enable exactly the tuples wanted of the original lines. |
| AptGenerators.GenerateDeb822 | curtin/commands/apt_config.py:641-689 | The deb822 generator fails exactly when no line survives conversion; otherwise its stanzas enable exactly the wanted tuples, none lacks suites, one lacks components exactly when a source was emptied or had none, and the file it writes reads back as those stanzas wherever rendering keeps words whole; the file is empty exactly when every suite is disabled. |
| AptGenerators.GeneratorsAgree | curtin/commands/apt_config.py:582-688 | For the same lines, renderings and disabled suites and components both generators enable the same tuples, and main of an enabled suite stays enabled. |
| AptGenerators.EmptyStanzaExactly | curtin/commands/apt_config.py:675-682 | An enabled stanza is left without components if and only if some active source of an enabled suite loses all of its own, or had none. |
| AptGenerators.EmptiedDiffer | curtin/commands/apt_config.py:603-689 | For every template with components on each line, one source of which is emptied, the deb822 output has an enabled stanza without components, the one-line output no active line without. |
| AptGenerators.EmptiedExample | curtin/commands/apt_config.py:603-689 | So it is for a template that is one line of universe alone, with universe disabled: both generators run on it. |
| Alignment.AlignUpIsLeast | curtin/commands/block_meta_v2.py:95-96 | For a power of two the mask form is the least multiple not below its argument. |
| Alignment.LeastMultipleUnique | curtin/commands/block_meta_v2.py:95-96 | There is only one such multiple, so this determines the result. |
| Alignment.AlignUpFrom | curtin/commands/block_meta_v2.py:95-96 | Aligning from an aligned start moves by the aligned size. |
| Alignment.OneMisaligned | curtin/commands/block_meta_v2.py:95-96 | For any block size that is not a power of two, aligning 1 does not give a multiple. |
| Alignment.MaskNeedsPow2 | curtin/commands/block_meta_v2.py:95-96 | The result is a multiple, and then the least one, for every size if and only if the block size is a power of two. |
| Alignment.FactorOfPow2 | curtin/commands/block_meta_v2.py:150-154 | Every divisor of a power of two is a power of two. |
| PartTables.OneMibIsPow2 | curtin/commands/block_meta_v2.py:146-154 | Whatever sector size the constructor accepts, it and the sectors of a MiB are powers of two. |
| PartTables.GptTable.Add | curtin/commands/block_meta_v2.py:219-239 | The entry is the one the specification gives for the entries so far, and it is appended. |
| PartTables.GptStarts | curtin/commands/block_meta_v2.py:219-239 | Without offsets, entry n starts at a MiB plus the rounded sizes of the entries before it, on a MiB boundary, with its size in sectors. |
| PartTables.GptDisjoint | curtin/commands/block_meta_v2.py:219-239 | Without offsets, entries lie in order, do not overlap, and leave gaps below a MiB. |
| TableEntries.GptEntriesFollow | curtin/commands/block_meta_v2.py:219-239 | Every GPT entry has the number given or the next, the offset given or the first whole MiB that is free, and the size in whole sectors. |
| DosTable.DosPartTable.FindLastLogical | curtin/commands/block_meta_v2.py:291-295 | The backward search finds the last logical entry. |
| DosTable.DosPartTable.FindLastPrimary | curtin/commands/block_meta_v2.py:320-324 | The forward search finds the last primary entry. |
| DosTable.DosPartTable.Add | curtin/commands/block_meta_v2.py:285-345 | The entry or error is the one the specification gives for the table so far; an error leaves the table alone. |
| DosTable.LayoutExists | curtin/commands/block_meta_v2.py:285-334 | A sequence of additions succeeds if and only if every logical one has an extended one before it and every primary one without a number is among the first four. |
| DosTable.LayoutSound | curtin/commands/block_meta_v2.py:285-345 | For every sequence of additions without offsets and with one extended entry: all starts on MiB boundaries, primaries in order and apart, logicals strung out behind the extended start. |
| DosTable.LogicalsInside | curtin/commands/block_meta_v2.py:302-318 | All logicals lie inside the extended entry if and only if the last one's end is within it, and they do when its size covers each rounded size plus a MiB. |
| DosTable.LogicalsApart | curtin/commands/block_meta_v2.py:302-318 | Logicals are numbered 5, 6, 7 and so on in order, aligned, and at least a MiB apart. |
| DosTable.DosDisjoint | curtin/commands/block_meta_v2.py:285-345 | Primaries, the extended one among them, are pairwise disjoint; so are all others when the logicals lie inside the extended one. |
| TableEntries.DosEntriesFollow | curtin/commands/block_meta_v2.py:273-345 | Every DOS entry, with offsets or without: a logical one is numbered after the logical one before it whatever number is given, and starts at the first whole MiB a MiB past it or into the last extended one; a primary has the number given or the next and the first whole MiB past the primary before it; an offset overrides the start. |
| DiskPlanner.MakePlan | curtin/commands/block_meta_v2.py:466-490 | Planning succeeds exactly when the table takes every action and each preserved partition is found where its entry starts, with the size and offset given, and can be resized if a resize is due; with distinct starts the plan says of each partition what the fields of its action ask for: the wipe given or that of the superblock for a new one, never for an extended one, whether it is kept, and the size to shrink or grow to. |
| DiskPlanner.WhyRefused | curtin/commands/block_meta_v2.py:349-443 | A preserved action is refused for the first of these that fails: the partition is found, its size and its offset are as given, at most one format action is for it, that names the type found, and the type can be resized. |
| DiskPlan.PlannedAt | curtin/commands/block_meta_v2.py:357-417 | With distinct starts the plan holds for each partition just what its own action calls for, undisturbed by the others. |
| DiskPlan.PlannedKeys | curtin/commands/block_meta_v2.py:471-490 | The plan speaks of exactly the starts the actions led to; resizes belong to preserved ones only. |
| DiskRun.RunPlan | curtin/commands/block_meta_v2.py:498-529 | The three loops around the application of the table issue the specified events, shrinks first and grows last. |
| DiskSafety.LookupNeverFails | curtin/commands/block_meta_v2.py:521-523 | When the kernel shows the table's entries, the lookup of each start in the wipes succeeds. |
| DiskSafety.WipedBefore | curtin/commands/block_meta_v2.py:504-517 | Before the table is applied exactly the partitions not preserved are wiped, and exactly the preserved ones with a wipe set are zeroed at their start. |
| DiskSafety.WipedAfter | curtin/commands/block_meta_v2.py:521-526 | Afterwards exactly the partitions with a wipe set are wiped, in its mode. |
| DiskSafety.NeverTargeted | curtin/commands/block_meta_v2.py:504-529 | A preserved partition without a wipe is never the target of a wipe or a zeroing. |
| DiskSafety.DroppedAreWiped | curtin/commands/block_meta_v2.py:504-519 | Every partition that is not preserved is wiped before the table is applied. |
| DiskSafety.RunKeepsData | curtin/commands/block_meta_v2.py:498-529 | If nothing reaches in and the resize fits, the kept file system fits its partition after every single event of the run, and ends with the size planned. |
| DiskSafety.SpillLosesData | curtin/commands/block_meta_v2.py:504-517 | If a wipe or a zeroing before the table reaches into a kept partition, its file system is lost. |
| DiskSafety.LateWipeLosesData | curtin/commands/block_meta_v2.py:521-526 | So it is if a wipe after the table reaches in. |
| DiskSafety.MisfitOutgrows | curtin/commands/block_meta_v2.py:404-417 | If a planned resize does not fit whole sectors, the file system outgrows its partition. |
| DiskSafety.KeptDataExactly | curtin/commands/block_meta_v2.py:498-529 | Kept data is safe at every step if and only if no wipe or zeroing before the table, and no wipe after it, reaches into its partition, and a planned resize fits whole sectors. |
| DiskSafety.WholeSectorsFit | curtin/commands/block_meta_v2.py:404-417 | A size that is a multiple of the sector size always fits. |
| DiskSafety.OnlyZeroingReaches | curtin/commands/block_meta_v2.py:504-517 | On a disk without overlapping partitions only zeroing can reach into a preserved partition before the table. |
| DiskSafety.WipedApartSpares | curtin/commands/block_meta_v2.py:521-526 | Where the entries that get a wipe are disjoint from a kept one, no wipe after the table reaches into it. |
| DiskSafety.RegularApart | curtin/commands/block_meta_v2.py:219-345 | Layouts without offsets, with room for the logicals, are disjoint in that way. |
| DiskActions.ResizesAre | curtin/commands/block_meta_v2.py:372-417 | A resize is planned exactly when one is asked for, there is a file system of a kind that can be resized, and no format action replaces it, names another kind or stands beside a second one: down to a smaller size, up to a larger one. |
| DiskHandler.HandleDisk | curtin/commands/block_meta_v2.py:466-529 | Planning fails exactly where an action cannot be decided, and nothing is touched then. Otherwise each partition is treated as the fields of its action ask: wiped after the table in the mode given, a new one's superblock by default, an extended or merely preserved one not at all; zeroed before the table exactly if preserved with a wipe; shrunk before it or grown after it exactly if a resize is due. Any other partition has its superblock wiped before the table and nothing else. Kept file systems are safe at every step exactly under the stated conditions; where partitions do not overlap only zeroing and a misfit can harm them. |
| DiskCases.ZeroingCanSpill | curtin/commands/block_meta_v2.py:508-517 | Two preserved partitions, the first of 512 KiB and to be wiped: the run loses the file system on the second. |
| DiskCases.ShrinkCanMisfit | curtin/commands/block_meta_v2.py:404-417 | An ntfs shrunk to 5000 bytes on a disk of 4096-byte sectors is larger than its new partition. |
| PartitionV1.DetermineNumber | curtin/commands/block_meta.py:251-279 | A number given is used; otherwise it is 1, or 5 for a logical, plus the partitions, or logicals, of the device declared before. |
| PartitionV1.FindPrevious | curtin/commands/block_meta.py:841-855 | The number of the last partition of the device declared before that is not extended. |
| PartitionV1.NumberOfLogicals | curtin/commands/block_meta.py:833-838 | The count of the device's items with the logical flag. |
| PartitionV1.PartitionHandler | curtin/commands/block_meta.py:1014-1101 | The start and length computed step by step are the specified slot, with the same errors. |
| PartitionV1.PlaceAll | curtin/commands/block_meta.py:1014-1160 | Handling every partition of a disk in turn gives the specified slots, or the first error. |
| PartitionV1.PlacedExactly | curtin/commands/block_meta.py:1041-1101 | A partition goes where those before it leave off exactly when its number and size allow it: 1 only for the first, 5 for the first logical one alone, and at least a sector. |
| PartitionV1.AsPlannedExactly | curtin/commands/block_meta.py:1041-1101 | For every configuration whose partitions of the disk are primaries, an extended one and logicals, among whatever other items and with whatever numbers: all commands succeed and each partition lies where those before it leave off if and only if numbers and sizes allow all of them and no number comes twice. |
| PartitionV1.CountedNumbersDo | curtin/commands/block_meta.py:251-279 | Where no numbers are given the counted ones are right exactly with at most three primaries before the extended partition. |
| PartitionV1.GivenNumbersDo | curtin/commands/block_meta.py:251-279 | Any different numbers up to 4 for the primaries and the extended partition, the first being 1, are right. |
| PartitionV1.FitExactly | curtin/commands/block_meta.py:1092-1101 | For any growth of the extended partition the logicals fit inside it if and only if their sizes and one gap each do. |
| PartitionV1.GrowthIsTight | curtin/commands/block_meta.py:1099-1101 | Growing it by one gap for each logical is exactly the slack needed: with any smaller growth some declared layout does not fit. |
| PartitionV1.HandlerLays | curtin/commands/block_meta.py:1041-1101 | What the handler then lays out has its logicals inside the extended partition if and only if their sectors and a gap each are no more than what was asked for it and a gap for each item of the disk with the logical flag; partitions of one kind are disjoint, logicals with a gap before each. |
| PartitionV1.HandlerFits | curtin/commands/block_meta.py:1041-1101 | Logicals whose sizes add up to no more than the size asked for the extended partition always lie inside it, and only those do where every item with the logical flag is a partition. |
| PartitionV1.MixedConfigFits | curtin/commands/block_meta.py:1041-1101 | A configuration with disks, a partition of another disk, a mount and given numbers 1 and 4 is laid out as planned, its logicals filling the extended partition. |
| PartitionV1.PrimaryAfterExtended | curtin/commands/block_meta.py:841-855 | A primary declared right after the extended partition starts where that one starts, so the two overlap. |
| PartitionV1Gpt.LaidOutExactly | curtin/commands/block_meta.py:1041-1101 | On a GPT disk without an extended partition all commands succeed and the partitions lie side by side from one MiB on if and only if their numbers differ, the first is 1, and each has a sector. |
| PartitionV1Gpt.GptSideBySide | curtin/commands/block_meta.py:1069-1076 | Then each starts behind one MiB and the sectors of those before it, and no two overlap. |
| StorageDeps.FindDepsMembers | curtin/storage_config.py:143-302 | Collected for an item are exactly the items its fields name, field by field and type by type, the items that share one of these references, and whatever is collected below. |
| StorageTie.FoundExactly | curtin/storage_config.py:205-302 | Collecting succeeds exactly when the type is known, reference fields name items, and each reference is to an allowed type, has sharers that all carry the field to sort by with comparable values, and leads to an item for which collecting succeeds. |
| StorageOrder.TreeMembers | curtin/storage_config.py:260-317 | A tree holds the item, what it rests on through any number of references, and what shares a reference along the way; nothing else. |
| StorageOrder.InLowerTree | curtin/storage_config.py:287-300 | An item is in the tree of something it rests on exactly when it shares a reference there. |
| StorageOrder.LevelsRise | curtin/storage_config.py:346-355 | The level, the size of the tree, never falls from what an item rests on to the item, and rises exactly when the trees differ, as without sharing they do. |
| StorageMerge.GetConfigTree | curtin/storage_config.py:305-317 | The keys are the item first and then each dependency once; it fails exactly when collecting does. |
| StorageSort.SortLevel | curtin/storage_config.py:357-373 | One level comes out as a permutation ordered by type name, then by the type's field, then as it came; it fails exactly when some group cannot be sorted. |
| StorageSort.ListByLevel | curtin/storage_config.py:375-387 | The level loop lists each registered item once, ordered by level, type, field and then registration; it fails exactly when two peers cannot be compared. |
| StorageNames.TypesByName | curtin/storage_config.py:365-375 | The types of one level are walked in the order of their names. |
| Sorting.SortStable | curtin/storage_config.py:369-370 | Sorting by a key leaves elements of equal key in the order in which they came. |
| Sorting.LexIs | curtin/storage_config.py:370-373 | One string sorts before another exactly if it is a start of it or has the smaller character where they first differ. |
| StorageMerge.RegisteredLevels | curtin/storage_config.py:345-355 | Exactly the top items of the trees so far have a level, the size of the first tree each heads; later duplicates are dropped. |
| StorageMerge.RegisteredAfter | curtin/storage_config.py:345-355 | The registry holds those items once each, in the order in which they first head a tree. |
| StorageMerge.MergeTrees | curtin/storage_config.py:320-387 | The merged list is a permutation of the registered items ordered by level, type, field and first tree; it fails exactly when two registered peers cannot be compared. |
| StorageMerge.OrderConfig | curtin/storage_config.py:305-387 | For every acyclic configuration the list holds each item once, by tree size, then by the name of the type, then, within a type, by its name, path, number, volume or id, and then as configured; an item that shares no reference with what it rests on comes after each item a field of it names (backing and cache devices, volumes, volume groups, devices, spares, containers, pools and so on) and after all these rest on. It fails exactly when collecting fails or peers cannot be compared. |
| StorageMerge.AfterWhatItRestsOn | curtin/storage_config.py:375-387 | An item that shares no reference with what it rests on comes after everything it rests on, directly or through others. |
| StorageMerge.ExactPlace | curtin/storage_config.py:357-387 | An item comes after what it rests on if and only if their trees differ, or type and field put it after, or on a tie the configuration lists it later; otherwise it comes before. |
| StorageTie.SharingBreaksOrder | curtin/storage_config.py:287-300 | Two bcache devices that share a cache device stand with the upper one before the one it rests on in every such list. |
| StorageTie.SharedCacheFound | curtin/storage_config.py:260-302 | On that configuration collecting succeeds for each item. |
| StorageTie.SharedCacheAccepted | curtin/storage_config.py:260-387 | All its peers can be compared as well, so the extraction accepts it. |
| StorageTie.OrderSharedCache | curtin/storage_config.py:305-387 | Extracting it succeeds, and lists the upper device first. |
| FileWipe.File.Write | curtin/block/__init__.py:1277-1280 | A write at the position overwrites and, past the end, extends, and moves the position. |
| FileWipe.WriteZeros | curtin/block/__init__.py:1274-1280 | The block loop zeroes exactly the span from the position, cut at the end of the file, and keeps the length. |
| FileWipe.ZeroFileAtOffsets | curtin/block/__init__.py:1231-1280 | Exactly the bytes covered by some valid offset are zeroed, the length stays; in strict mode it stops at the first offset that is out of range or too close to the end, having done those before. |
| FileWipe.QuickZeroPlain | curtin/block/__init__.py:1203-1228 | Exactly the first and last MiB are zeroed, the whole file when it is shorter than a MiB. |
| FileWipe.QuickZero | curtin/block/__init__.py:1197-1228 | For a device with partitions exactly the edges of each partition and of the device are zeroed. |
| FileWipe.WipeFile | curtin/block/__init__.py:1162-1194 | For every reader that returns at most what it is asked for, it ends: at the first short read, with only a prefix overwritten, or, if there is none before the end, with the file overwritten by just as many bytes of the stream of reads. |
| ConfigMerge.MergeConfig | curtin/config.py:34-40 | The loop over the second configuration, in any order of its keys, gives the specified merge. |
| ConfigMerge.LeavesOfSecond | curtin/config.py:34-40 | Every leaf of the second configuration has its value afterwards. |
| ConfigMerge.SilentKeepsFirst | curtin/config.py:34-40 | Every path the second configuration says nothing about keeps what the first had there. |
| ConfigMerge.MergeIdempotent | curtin/config.py:34-40 | Merging the same configuration twice is merging it once. |
| ConfigMerge.AddsNothingExactly | curtin/config.py:34-40 | Merging over the first configuration gives just the second exactly when every key of the first is in the second, and so on within shared dictionaries. |
| ConfigMerge.MergeAssociates | curtin/config.py:34-40 | Both groupings of three merges agree if and only if, at every key and depth, no plain value of the second lies between dictionaries of the first and third, or the first's adds nothing to the third's. |
| ConfigMerge.MergeNotAssociative | curtin/config.py:34-40 | Three configurations whose groupings differ. |
| ConfigMerge.SettingParses | curtin/config.py:47-78 | An argument spelled from a path, a text and perhaps `json:` parses to the nest of that path with the text or its JSON value at the end, or to that value itself when the last name is empty; bad JSON is reported with the key. |
| ConfigMerge.EverySettingSpelled | curtin/config.py:47-78 | Every argument with an equals sign is spelled so. |
| ConfigMerge.MergeSetting | curtin/config.py:43-78 | For every argument: the path it names has the given value afterwards, dictionaries there are merged, what lies below is found in that value, and every other path leads where it did; a missing equals sign, bad JSON and a whole configuration that is no dictionary are the errors. |
| ConfigMerge.SettingChangesItsPath | curtin/config.py:34-78 | Merging the nest of a path, whatever the value, sets that path and nothing that is neither above nor below it. |
| NameEncoding.ToUtf8HexNotation | curtin/commands/block_meta_v2.py:30-44 | The loop escapes the UTF-8 bytes of the name one by one. |
| NameEncoding.Utf8Injective | curtin/commands/block_meta_v2.py:39 | The UTF-8 form (section 3 of RFC 3629) determines the name. |
| NameEncoding.EscapeDecodes | curtin/storage_config.py:407-412 | Decoding what was escaped gives the UTF-8 bytes of the name. |
| NameEncoding.RoundTripExactlyAscii | curtin/storage_config.py:407-412 | It gives the name itself if and only if the name is ASCII. |
| NameEncoding.AccentComesBackAsTwo | curtin/storage_config.py:407-412 | An e with an acute accent comes back as two characters. |
| NameEncoding.EscapeKeepsExactly | curtin/commands/block_meta_v2.py:38-43 | The escape is the name itself if and only if the name holds ASCII letters and digits only. |
| NameEncoding.ByteEscaped | curtin/commands/block_meta_v2.py:40-43 | Any other byte becomes a backslash, an x and its two lower-case hexadecimal digits. |
| NameEncoding.EscapeInjective | curtin/commands/block_meta_v2.py:30-44 | Different names have different escapes. |
| NameEncoding.EscapeAlphabet | curtin/commands/block_meta_v2.py:40-43 | The escape holds only letters, digits and backslashes. |

## Left out

- External commands, udev, sysfs, `/proc`, mounts, locks and retries: what they report is a parameter (the holders graph, the partitions sfdisk and the kernel show, the presence of a device), what they do is an event.
- ClearHolders.RunPlan: a handler is a function from the devices present to those left; what a handler does inside is not modelled, and types without a handler (there are none in the registry) are not either.
- AptConvert.Convert: a line is the record `SourceEntry` gives (invalid, disabled, type, URI, suite, components); bracketed options are not carried, as the conversion itself does not carry them. The set of known mirrors is a parameter.
- Deb822Text.PrintParseRoundTrip: a paragraph is lines with a key and a value (section 5.1 of the Debian Policy Manual); fields other than the five of a source and Signed-By and continuation lines are not carried, and comment lines are dropped, so idempotence is stated for text built from these.
- AptGenerators.GenerateLegacy: the lines are records; their exact text, and in both generators the backup of the old file and the note left in `sources.list` are not modelled. Rendering of a URI and of a suite are functions given as parameters.
- AptGenerators.GeneratorsAgree: stated for one-line templates; a template that is already deb822 has only one generator.
- DosTable.LayoutSound: without explicit offsets and with at most one extended entry, because the code guarantees no order of offsets given by hand, nor of primaries placed after an extended entry that was moved.
- DiskSafety.KeptDataExactly: the file system is its size and takes up its whole partition, a wipe of any mode covers the whole partition it is made on, a resize sets the size at once, and an event that is cut short is not modelled; nor is any rounding or refusal of a size by the resize tools themselves. The kernel is taken to show exactly the table's entries after it was applied, each start once.
- DiskPlanner.MakePlan: the check of partition flags, and the preservation of UUIDs, names and attributes of table entries, are not modelled; nor is the text of the sfdisk script.
- PartitionV1.PartitionHandler: the sector size divides as floor division instead of through a float, which differs only from 2^53 bytes on; a length below one sector, which the tool called would refuse, is an error. Preserved and vtoc partitions and the wiping of new ones are not modelled.
- PartitionV1.HandlerFits: for msdos disks whose partitions are declared as primaries, one extended partition, then logicals; a primary right after the extended one overlaps it (`PartitionV1.PrimaryAfterExtended`), and other orders are not treated.
- StorageDeps.FindDepsMembers: stated for acyclic configurations, given by a ranking; on a cycle the code recurses without end. The dependency keys of a type are walked in a fixed order, where the code walks a set. Reference values are strings or lists of strings.
- StorageMerge.OrderConfig: values of an order field are strings or numbers; sorting by a list is refused here, while Python would compare lists.
- `config_tree_to_list`: its reversed order is not an ordering guarantee, since items that share a reference are inserted after the item they depend on.
- ConfigMerge.MergeConfig: configurations are values; that a merged dictionary is afterwards shared with the second configuration is not modelled.
- ConfigMerge.MergeSetting: the moving cursor that builds the nest is a function from the path; the JSON parser is a parameter.
- NameEncoding.EscapeDecodes: of the escapes the decoder knows only the hexadecimal one is modelled, which is the only one written.
- FileWipe.QuickZero: the `wipefs` call and the exclusive opening of the file are not modelled; partitions are windows of the device's bytes.
- Probert parsers, JSON schemas, swap sizes, DASD tracks, EFI boot order, size strings, network and boot loader texts: field by field or single formulas, without a property that spans operations.
