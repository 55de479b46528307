# Live charts for Docker containers — a Dafny model of the data pipeline

The dashboard polls `docker ps` and streams `docker stats`, and draws one
chart per device (CPU, memory, disk, network), per container or for all
selected containers together. This project models the pure part of that
pipeline as Dafny functions over immutable values. It follows the
pipeline in order:

- **Unit parsing.** `Metrics` (built on `Numerals`) turns the text docker
  prints (`"12.50%"`, `"--"`, `"10MiB / 5MiB"`) into numbers.
- **Snapshots.** `Snapshots` joins parsed records to containers by name.
- **Window.** `Window` keeps the last sixty snapshots, bounded and without
  duplicate times.
- **Containers.** `Containers` holds the collections of running, filtered
  and selected containers.
- **Colours.** `Palette` is the cyclic colour allocator.
- **Dots and items.** `Dots`, `Items`, `Devices` and `DeviceCharts` build
  the chart dots: rounded to cents, sorted by value, read values positive
  and write values negated, and merged into totals for the overview.
- **Chart datasets.** `Datasets` renders the rows a chart library draws.

The orchestration rules of the application component are modelled in:

- `Running`: colouring containers in name order, the container-set
  comparison, and building a snapshot from the latest records.
- `Streaming`: the consecutive-failure counter and the interval tick.
- `Selection`: the name filter, selection continuity, and the two
  checkbox handlers.
- `Recoloring`: the shuffle button, whose new colours reach the selection
  and every stored snapshot because they all hold the same container
  objects.
- `Charting`: the twelve-chart cap and the one-time warning.
- `Sidebar`: the sidebar width clamp.

Generic helpers live in `Wrappers`, `Seqs`, `Sorting`, `Strings` and
`Arith`.

Numbers are `real`. `parseFloat` is modelled on the unsigned numeral
grammar `digits[.digits]` that docker prints. Rounding is
`floor(100x + 1/2) / 100`. Times are opaque strings. Randomness, the
regular-expression filter and the collation order of `localeCompare` are
parameters.

The `Container` class in ui/src/classes/Container.ts has only an
identifier and a name, and its constructor takes two arguments. The rest
of the program builds containers with a third argument, a colour, and
calls `getColor` and `setColor` on them. In the model, `Container`
therefore has a `color` field.

## Model

| member | source | states |
|---|---|---|
| Numerals.ParseNum | ui/src/classes/ContainerStats.ts:47 | the numeric reading of a size or percentage is never negative |
| Numerals.Fraction | ui/src/classes/ContainerStats.ts:47 | the digits after the decimal point contribute a value in [0, 1) |
| Numerals.ParseWhole | ui/src/classes/ContainerStats.ts:47 | a whole numeral followed by a unit reads as the numeral's base-ten value |
| Numerals.ParseDecimal | ui/src/classes/ContainerStats.ts:47 | `a.b` followed by a non-digit reads as value(a) plus the fraction of b; text after the numeral is ignored |
| Numerals.NatToString | ui/src/classes/ChartData.ts:17 | the rendering of an index is a non-empty digit string whose base-ten value is the index |
| Numerals.NatToStringRoundTrip | ui/src/classes/ChartData.ts:17 | parsing the rendering of an index gives the index back |
| Metrics.ParsePercent | ui/src/classes/ContainerStats.ts:28-33 | `"--"` is 0 and every percentage is non-negative |
| Metrics.ParsePercentReadsPrefix | ui/src/classes/ContainerStats.ts:32 | the percentage is the number written before the first `%`, whatever follows it |
| Metrics.PercentExample | ui/src/classes/ContainerStats.ts:28-33 | `"12.50%"` reads as 12.5 |
| Metrics.UnitMultiplier | ui/src/classes/ContainerStats.ts:48-67 | every suffix multiplies by at least one; a suffix outside the eight known ones (`B`, `kb`, none) multiplies by exactly one |
| Metrics.UnitMultiplierPowers | ui/src/classes/ContainerStats.ts:49-64 | the k-th decimal suffix kB, MB, GB, TB is 1000^(k+1) and the k-th binary suffix KiB, MiB, GiB, TiB is 1024^(k+1) |
| Metrics.Scale | ui/src/classes/ContainerStats.ts:48-67 | scaling never shrinks a non-negative number, and an unknown suffix leaves it unchanged |
| Metrics.ScaleIsMultiplication | ui/src/classes/ContainerStats.ts:48-67 | the suffix switch is multiplication by the suffix's multiplier |
| Metrics.ConvertToBytes | ui/src/classes/ContainerStats.ts:42-68 | `"--"` converts to 0 and no size converts to a negative byte count |
| Metrics.SplitAtUnit | ui/src/classes/ContainerStats.ts:46 | splitting at the first letter run yields the numeral before it and the whole run as the unit |
| Metrics.ConvertWithUnit | ui/src/classes/ContainerStats.ts:46-67 | a numeral followed by a letter suffix converts to the numeral's value scaled by that suffix |
| Metrics.ConvertWithoutUnit | ui/src/classes/ContainerStats.ts:65-66 | a size with no letters converts to its bare numeric value |
| Metrics.ConvertDecimalWithUnit | ui/src/classes/ContainerStats.ts:46-67 | `a.b` plus a suffix converts to (value(a) + fraction(b)) scaled by the suffix |
| Metrics.BinaryExample | ui/src/classes/ContainerStats.ts:55-56 | `"1.5MiB"` is 1572864 bytes |
| Metrics.DecimalExample | ui/src/classes/ContainerStats.ts:57-58 | `"2GB"` is 2·10⁹ bytes |
| Metrics.WholeMebibytes | ui/src/classes/ContainerStats.ts:55-56 | n MiB is n·1024² bytes for every digit string n |
| Metrics.ParseMultiValues | ui/src/classes/ContainerStats.ts:35-40 | `"--"` is the pair (0, 0) and both values of any pair are non-negative |
| Metrics.ParseMultiValuesPair | ui/src/classes/ContainerStats.ts:39 | `a / b` converts a and b independently, in that order |
| Metrics.PairExample | ui/src/classes/ContainerStats.ts:39 | `"10MiB / 5MiB"` is (10·1024², 5·1024²) |
| Metrics.MakeContainerStats | ui/src/classes/ContainerStats.ts:17-26 | the record keeps its time and container; MemUsage gives (usage, limit), BlockIO gives (disk read, write), NetIO gives (network read, write); every metric is non-negative |
| Metrics.UnavailableIsZero | ui/src/classes/Stats.ts:19-28 | a record whose every field is `"--"` parses to all-zero metrics |
| Snapshots.AddContainerStats | ui/src/classes/Stats.ts:12-14 | appending keeps the time and every earlier record in place, and puts the new record last |
| Snapshots.GetContainerStats | ui/src/classes/Stats.ts:16-31 | the first record whose container name matches; with no match, a record for the queried container at the snapshot's time with every metric zero |
| Snapshots.JoinIsByName | ui/src/classes/Stats.ts:17 | two containers with the same name, whatever their identifiers, get the same record |
| Snapshots.AddThenGet | ui/src/classes/Stats.ts:12-31 | appending never changes what an already-matched name joins to, and an unmatched name joins to the appended record when it matches |
| Window.AddStats | ui/src/classes/StatsStack.ts:10-17 | the new snapshot goes last; below the bound nothing is dropped; at the bound the oldest is dropped and the rest keep their order; with size 0 the window holds one snapshot |
| Window.ContainsTime | ui/src/classes/StatsStack.ts:20 | true exactly when some snapshot has that time |
| Window.AddUniqueStats | ui/src/classes/StatsStack.ts:19-24 | a time already present leaves the window unchanged; a new time behaves exactly like `addStats` |
| Window.BoundHolds | ui/src/classes/StatsStack.ts:10-24 | no sequence of insertions takes the window past its size (past one when the size is 0), and the size never changes |
| Window.AddUniqueKeepsTimesDistinct | ui/src/classes/StatsStack.ts:19-24 | inserting through `addUniqueStats` keeps the times pairwise distinct |
| Window.SlidingWindow | ui/src/classes/StatsStack.ts:10-24 | after inserting distinct-time snapshots one by one, the window holds exactly the last min(n, size) of them in insertion order |
| Window.EvictsOldest | ui/src/classes/StatsStack.ts:11-14 | after size+1 distinct insertions, the first is gone and the last size are present in order |
| Containers.EqualsIsIdentity | ui/src/classes/Container.ts:13 | equality compares identifiers only, ignoring name and colour, and is reflexive, symmetric and transitive |
| Containers.AddContainer | ui/src/classes/ContainersCollection.ts:6-10 | appends without deduplication: one more occurrence of the container, at the end |
| Containers.ContainsContainer | ui/src/classes/ContainersCollection.ts:13 | true exactly when some element has the container's identifier |
| Containers.GetContainerByName | ui/src/classes/ContainersCollection.ts:18-25 | the first container with that name, or a not-found error exactly when no container has it |
| Containers.GetContainerById | ui/src/classes/ContainersCollection.ts:27-34 | the first container with that identifier, or a not-found error exactly when no container has it |
| Containers.RemoveContainerById | ui/src/classes/ContainersCollection.ts:46-50 | removes every container with that identifier and keeps every occurrence of the others |
| Containers.RemoveContainerByIdKeepsOrder | ui/src/classes/ContainersCollection.ts:47 | removal works piecewise over concatenation, so the survivors keep their relative order |
| Containers.RemoveContainersNotIn | ui/src/classes/ContainersCollection.ts:52-56 | keeps exactly the containers whose identifier the other collection contains, with all their occurrences |
| Containers.RemoveContainersNotInKeepsOrder | ui/src/classes/ContainersCollection.ts:52-56 | the filter works piecewise over concatenation, so the kept containers stay in their original order |
| Containers.ByNameIsTotalPreorder | ui/src/classes/ContainersCollection.ts:15 | comparing containers by name under a total preorder on names is a total preorder |
| Containers.OrderByName | ui/src/classes/ContainersCollection.ts:14-16 | the result is a permutation of the collection with names in non-decreasing collation order |
| Palette.SetUseLightPalette | ui/src/classes/Colors.ts:47-51 | selects the light or the dark palette and leaves the working queue and both stored palettes unchanged |
| Palette.InitialPalettes | ui/src/classes/Colors.ts:5-45 | the light palette has 20 colours and the dark one 16, none of them blank |
| Palette.Pop | ui/src/classes/Colors.ts:53-59 | an empty queue is refilled from the palette and yields its first colour; an empty palette yields `inherit`; otherwise the queue's head is taken; nothing but the queue changes |
| Palette.Reset | ui/src/classes/Colors.ts:61-65 | empties the working queue and keeps the palette |
| Palette.FisherYates | ui/src/classes/Colors.ts:68-71 | for any random source, the result is a permutation of the input |
| Palette.Shuffle | ui/src/classes/Colors.ts:67-74 | the selected palette becomes a permutation of itself; the queue and the other palette are untouched |
| Palette.PopInCycle | ui/src/classes/Colors.ts:53-59 | one pop in the middle of a cycle yields the next palette colour and advances the position modulo the palette size |
| Palette.CycleFrom | ui/src/classes/Colors.ts:53-59 | k pops from position m yield palette[(m+i) mod n] for i < k |
| Palette.PopsCycleAfterReset | ui/src/classes/Colors.ts:53-65 | after a reset, the i-th pop yields palette[i mod n] for a non-empty palette without blanks |
| Palette.EmptyPaletteFallback | ui/src/classes/Colors.ts:58 | with an empty palette every pop yields `inherit` |
| Dots.Round2 | ui/src/classes/ChartDot.ts:23-25 | the result has at most two decimals and lies within half a cent of the input, rounding halves up |
| Dots.Round2Fixes | ui/src/classes/ChartDot.ts:23-25 | a value with at most two decimals is unchanged by rounding |
| Dots.Round2Idempotent | ui/src/classes/ChartDot.ts:12 | rounding twice is rounding once |
| Dots.Round2KeepsSign | ui/src/classes/ChartDot.ts:23-25 | rounding never flips the sign of a value |
| Dots.MakeDot | ui/src/classes/ChartDot.ts:4-13 | the dot keeps device, name, colour and flags, and stores the value rounded to two decimals |
| Dots.MakeDotExact | ui/src/classes/ChartDot.ts:12 | a value that already has two decimals is stored as given |
| Dots.DotKindsPartition | ui/src/classes/ChartDot.ts:19-21 | every dot is exactly one of default, write, or read-with-sibling, and the default flags give a default dot |
| Items.ValueDescIsTotalPreorder | ui/src/classes/ChartItem.ts:17 | ordering by value, largest first, is a total preorder |
| Items.AddDot | ui/src/classes/ChartItem.ts:14-18 | the dots gain exactly the new dot and are sorted by value, non-increasing; the time is kept |
| Items.AddDots | ui/src/classes/ChartItem.ts:14-18 | adding dots one by one gains exactly those dots and leaves the item sorted |
| Items.GetWriteSibling | ui/src/classes/ChartItem.ts:20-28 | the first write dot with the same device and name, or none exactly when no such dot exists |
| Items.TotalConcat | ui/src/classes/ChartItem.ts:50 | the sum of a concatenation is the sum of the sums |
| Items.TotalPermutation | ui/src/classes/ChartItem.ts:50 | the sum does not depend on the order of the dots |
| Items.TotalOfCents | ui/src/classes/ChartItem.ts:50 | a sum of two-decimal values has two decimals |
| Items.TotalDot | ui/src/classes/ChartItem.ts:46-51 | the total dot belongs to the group's device, is named `<device> total`, has the device's colour, and holds the rounded sum of the group |
| Items.MergeDots | ui/src/classes/ChartItem.ts:30-73 | any default dots become one default total; otherwise reads and writes become [read total, write total]; in every other case the item is unchanged; the time is kept |
| Items.MergeDotsIdempotent | ui/src/classes/ChartItem.ts:30-73 | merging a merged item changes nothing |
| Items.MergeDotsExactSums | ui/src/classes/ChartItem.ts:45-71 | when every dot has two decimals, the totals are the exact sums of their groups |
| Items.MergeDotsOrderIndependent | ui/src/classes/ChartItem.ts:35-71 | for one device, merging depends only on the multiset of dots, not their order |
| Items.MergeExample | ui/src/classes/ChartItem.ts:53-71 | read/write pairs (10, −5) and (3, −2) merge to a read total 13 and a write total −7 |
| Items.MergeAnyOrder | ui/src/classes/ChartItem.ts:53-71 | the same four dots in any order merge to 13 and −7 |
| Devices.TooltipTitle | ui/src/classes/Device.ts:27-33 | the title is the device name, followed by ` (read / write)` exactly for disk and network |
| Devices.ConvertFromBytesToSelectedUnit | ui/src/classes/Device.ts:109-122 | an error exactly for a unit other than B, kB, MB, GB; otherwise a value that times the unit's size is the byte count, non-negative for non-negative bytes |
| Devices.ConvertUndoesParse | ui/src/classes/Device.ts:109-122 | converting bytes parsed with a unit suffix back into that unit gives the number that was written |
| DeviceCharts.MakeChartDots | ui/src/classes/Device.ts:39-78 | CPU: one default dot with the rounded percentage. Memory: one default dot with the converted usage. Disk and network: a read dot with the converted read, then a write dot with the negated converted write. Any other key: no dots. Dots carry the container's name and the container's or device's colour. An error exactly for a converting device with a bad unit |
| DeviceCharts.MakeSplitChartItem | ui/src/classes/Device.ts:101-107 | the item has the record's time and exactly that container's dots, sorted |
| DeviceCharts.CombinedDots | ui/src/classes/Device.ts:91-96 | the dots of every listed container, 1 or 2 per container, and an error exactly when some container is listed and the unit is bad |
| DeviceCharts.CombinedDotsBlock | ui/src/classes/Device.ts:91-96 | the dots of the i-th listed container are exactly block i of the combined dots, each block as long as one container's dots |
| DeviceCharts.CombinedDotsBlocks | ui/src/classes/Device.ts:91-96 | every listed container's dots sit in their own block, in the order the containers are listed |
| DeviceCharts.MakeCombinedChartItem | ui/src/classes/Device.ts:88-99 | the item has the snapshot's time and exactly the dots of every listed container, sorted |
| DeviceCharts.MakeOverviewChartItem | ui/src/classes/Device.ts:80-86 | the overview item is the combined item merged into totals |
| DeviceCharts.CpuCombinedDots | ui/src/classes/Device.ts:88-99 | CPU never fails; all its combined dots are default dots of that device, with two decimals, summing to the containers' rounded percentages |
| DeviceCharts.CpuOverviewIsSum | ui/src/classes/Device.ts:80-86 | the CPU overview is a single `CPU total` dot in the device colour whose value is the sum of the containers' rounded percentages |
| Datasets.DotKey | ui/src/classes/ChartData.ts:17 | the key is `dot-` followed by the decimal digits of the index |
| Datasets.DotKeyInjective | ui/src/classes/ChartData.ts:17 | different indexes give different keys |
| Datasets.RowOf | ui/src/classes/ChartData.ts:11-21 | the row has the item's time and maps `dot-j` to the j-th dot value, with no other keys |
| Datasets.GetData | ui/src/classes/ChartData.ts:10-22 | one row per item, in item order |
| Datasets.GetDotsSample | ui/src/classes/ChartData.ts:24-26 | the first item's dots, present exactly when there are items |
| Datasets.GetItemByTime | ui/src/classes/ChartData.ts:28-32 | the first item with that time, absent exactly when no item has it |
| Datasets.SortedLabels | ui/src/classes/ChartData.ts:35-39 | the `<device>-<dot>` labels of the dots, sorted in code-point order |
| Datasets.GetUniqueKey | ui/src/classes/ChartData.ts:34-40 | the sorted labels of the first item joined with `-`, present exactly when there are items |
| Datasets.UniqueKeyIgnoresDotOrder | ui/src/classes/ChartData.ts:34-40 | the key does not depend on the order of the first item's dots |
| Datasets.UniqueKeyIgnoresInsertionOrder | ui/src/classes/ChartData.ts:34-40 | the key does not depend on the order in which the dots were added |
| Strings.SplitJoin | ui/src/classes/ContainerStats.ts:39 | joining the pieces of a split with the separator gives back the text |
| Strings.JoinSplit | ui/src/App.tsx:171 | splitting a comma-free list joined with commas gives back the list |
| Strings.StrLeIsTotalOrder | ui/src/classes/ChartData.ts:39 | the default string sort order is total, transitive and antisymmetric |
| Sorting.SortBySorted | ui/src/classes/ContainersCollection.ts:15 | a stable insertion sort under a total preorder yields a sorted permutation |
| Sorting.SortedUnique | ui/src/App.tsx:171 | under an antisymmetric order, two sorted permutations of each other are equal |
| Sorting.SortByDecidesPermutation | ui/src/App.tsx:171 | two lists sort to the same list exactly when they are permutations of each other |
| Running.LineByNameIsTotalPreorder | ui/src/App.tsx:98 | ordering `docker ps` lines by name is a total preorder |
| Running.ColorContainers | ui/src/App.tsx:99-101 | one container per line, keeping its identifier and name, coloured with successive pops |
| Running.IdentifyRunningContainers | ui/src/App.tsx:93-105 | the containers are a permutation of the `docker ps` lines, sorted by name, and for a usable palette the i-th gets palette[i mod n] |
| Running.CycleWhenUsable | ui/src/App.tsx:96-100 | after a reset, k pops from a usable palette yield its colours cyclically |
| Running.ShuffleColors | ui/src/App.tsx:348-358 | the containers keep identifiers, names and order; the palette becomes a permutation of itself; the i-th container gets colour i mod n of the new palette |
| Recoloring.RecolorOne | ui/src/App.tsx:351-355 | a container held anywhere keeps its identifier and name; if it is one of the running containers it shows the new colour of the first such entry, otherwise it is unchanged |
| Recoloring.RecoloredUnique | ui/src/App.tsx:351-355 | the recolouring relation fixes the resulting container completely, so the description of a recoloured container is complete |
| Recoloring.RecolorAll | ui/src/App.tsx:351-355 | every container of a collection, such as the selection, is recoloured as its running counterpart, position by position |
| Recoloring.RecolorRecord | ui/src/classes/ContainerStats.ts:17-19 | a stored record holds the container object itself, so after the shuffle only its container's colour differs |
| Recoloring.RecolorStats | ui/src/classes/ContainerStats.ts:17-19 | a snapshot keeps its time and its number of records, and each record is recoloured |
| Recoloring.RecolorWindow | ui/src/classes/ContainerStats.ts:17-19 | the window keeps its size bound and its number of snapshots, and each snapshot is recoloured |
| Recoloring.UnchangedColoursKeepAll | ui/src/App.tsx:351-355 | when no colour changes, recolouring leaves any collection exactly as it was |
| Recoloring.RunningEntryRecolored | ui/src/App.tsx:351-355 | with distinct running containers, running container j is recoloured to exactly the j-th shuffled container |
| Recoloring.RunningBecomesRecolored | ui/src/App.tsx:351-355 | recolouring the running list itself yields the shuffled list, so every holder agrees with the running list |
| Recoloring.DotsShowNewColour | ui/src/classes/Device.ts:40-72 | with container colours on, every dot drawn from a stored record of running container j carries the new colour of j |
| Recoloring.ShuffleEverywhere | ui/src/App.tsx:348-358 | the shuffle keeps the running containers' identifiers, names and order, permutes the palette, and, for a non-empty palette without blank colours, gives the i-th running container colour i mod n of the shuffled palette. Each selected container equal to a running one becomes its shuffled counterpart. Every snapshot of the window keeps its time and records, and each record is recoloured |
| Running.ContainersChanged | ui/src/App.tsx:167-172 | the running set changed exactly when the multisets of running and streamed names differ |
| Running.JoinInjective | ui/src/App.tsx:171 | for names that are non-empty and comma-free, equal comma-joined lists are equal lists |
| Running.AsWrittenAgreesOnPlainNames | ui/src/App.tsx:167-172 | with such names, the comparison as written agrees with the multiset comparison |
| Running.CommaNameCounterexample | ui/src/App.tsx:171 | one container `a,b` against records `a` and `b`: the comparison as written sees no change, the multiset comparison does, and building the snapshot fails |
| Running.EmptyNameCounterexample | ui/src/App.tsx:171 | no containers against one record with an empty name: the comparison as written sees no change, the multiset comparison does |
| Running.LookupAll | ui/src/App.tsx:142-146 | on success, one container per record, each the first running container with the record's name |
| Running.LookupAllOutcome | ui/src/App.tsx:142-146 | the lookup succeeds exactly when every record's name is known, and otherwise fails on the first unknown name |
| Running.ParseAll | ui/src/App.tsx:142-146 | one parsed record per raw record, in order, each joined to its container and stamped with the time |
| Running.MakeStatsFromRaw | ui/src/App.tsx:134-149 | succeeds exactly when every streamed name is running; the snapshot has the tick's time and one parsed record per raw record, in order; otherwise it fails on the first unknown name |
| Running.UnchangedMeansAllKnown | ui/src/App.tsx:155-159 | when the multiset comparison sees no change, building the snapshot cannot fail |
| Streaming.OnOutput | ui/src/App.tsx:254-277 | no output changes nothing. A parse resets the counter, and a non-empty one replaces the latest records. A failure increments the counter, and asks for re-identification exactly when it passes 20, resetting the counter to 0 |
| Streaming.FeedKeepsSane | ui/src/App.tsx:251-269 | the counter never exceeds 20 |
| Streaming.FailureRun | ui/src/App.tsx:260-269 | k failures in a row leave the counter at (c + k) mod 21, ask for (c + k) div 21 re-identifications, and keep the latest records |
| Streaming.Tick | ui/src/App.tsx:152-162 | before any records: nothing. Changed names: re-identify. Otherwise the snapshot of the latest records is pushed through `addUniqueStats`, and it never fails |
| Streaming.TickAsWritten | ui/src/App.tsx:152-162 | the tick as written fails exactly when the joined-name comparison sees no change but some streamed name is not running |
| Streaming.TicksAgreeOnPlainNames | ui/src/App.tsx:155-160 | with non-empty comma-free names the tick as written and the corrected tick agree |
| Streaming.TickCommaCounterexample | ui/src/App.tsx:155-159 | a container `a,b` streamed as `a` and `b` makes the tick as written fail where the corrected one re-identifies |
| Selection.UpdateSelection | ui/src/App.tsx:107-132 | nothing running empties both lists. The filtered list holds every running container whose name matches, with its multiplicity. The selection is the filtered containers that were selected before by identifier, or all of them when nothing was selected |
| Selection.UpdateSelectionKeepsOrder | ui/src/App.tsx:114-130 | both the filtered list and the selection work piecewise over the running list, so each keeps the running order |
| Selection.NothingSelectedKeepsAll | ui/src/App.tsx:124 | an empty previous selection keeps every filtered container |
| Selection.KeepSelectedById | ui/src/App.tsx:124 | whether a container stays selected depends only on its identifier |
| Selection.SelectionStable | ui/src/App.tsx:121-130 | re-running the effect on its own non-empty result changes nothing |
| Selection.LostSelectionResets | ui/src/App.tsx:121-130 | when no filtered container was selected, the selection empties, and the next run selects every filtered container |
| Selection.ToggleContainerSelection | ui/src/App.tsx:305-316 | checking appends the running container with that identifier, or fails exactly when none is running; unchecking removes every selected container with that identifier and keeps every other container with all its occurrences |
| Selection.CheckThenUncheck | ui/src/App.tsx:305-316 | checking and then unchecking a container removes it by identifier from the original selection |
| Selection.ToggleDevice | ui/src/App.tsx:288-303 | a selected device key is removed, the other devices keeping their occurrences and order; an unselected one is appended as the first offered device with that key, or nothing changes when none is offered |
| Selection.Deselect | ui/src/App.tsx:291-292 | every device with the key is dropped and every other device keeps all its occurrences |
| Selection.DeselectKeepsOrder | ui/src/App.tsx:291-292 | deselection works piecewise over concatenation, so the remaining devices keep their order |
| Selection.ToggleDeviceTwice | ui/src/App.tsx:288-303 | toggling an offered, unselected device twice restores the selection |
| Charting.AppDevicesConvert | ui/src/App.tsx:35-40 | the four offered devices have distinct keys and units the conversion accepts, and each gives at least one dot |
| Charting.SplitSeries | ui/src/App.tsx:194-199 | one split item per snapshot, built from that snapshot's record for the container |
| Charting.GroupSeries | ui/src/App.tsx:211-231 | one combined or overview item per snapshot, failing exactly when there are snapshots and containers and the unit is bad |
| Charting.SplitCharts | ui/src/App.tsx:192-209 | one non-combined chart per selected container, each the split series of that container |
| Charting.ChartsOfDevice | ui/src/App.tsx:192-240 | split mode gives one chart per container, the others one chart, each with one item per snapshot and marked combined exactly in combine mode |
| Charting.Candidates | ui/src/App.tsx:188-240 | the charts of every selected device in order, one per device in overview and combine modes, one per device and container in split mode |
| Charting.CandidatesBlock | ui/src/App.tsx:188-240 | the charts of the i-th selected device are exactly block i of the candidates, every block the same size |
| Charting.CandidatesBlocks | ui/src/App.tsx:188-240 | every selected device's charts sit in their own block, in device order |
| Charting.NonEmpty | ui/src/App.tsx:201 | the charts that have items, in order |
| Charting.DashboardWindowBound | ui/src/App.tsx:71 | the window the dashboard starts with keeps the bound of sixty snapshots under any sequence of insertions |
| Charting.DashboardWindowSlides | ui/src/App.tsx:160 | fed snapshots with distinct times, the dashboard's window holds the last sixty of them, or all while fewer, oldest first |
| Charting.CapCharts | ui/src/App.tsx:201-206 | the shown charts are the first min(12, n) non-empty ones, and the limit is reached exactly when there are more than 12 |
| Charting.WarningStep | ui/src/App.tsx:242-245 | the toast fires exactly when the limit is reached and no warning was shown; the flag, once set, stays set |
| Charting.WarnsAtMostOnce | ui/src/App.tsx:242-245 | over any run of renders at most one toast fires, and one does exactly when some render reaches the limit before a warning was shown |
| Charting.NoToastOnceShown | ui/src/App.tsx:242-245 | once the warning was shown no toast ever fires |
| Charting.RenderCharts | ui/src/App.tsx:174-248 | a frozen dashboard keeps its charts; no selection clears them; otherwise the first twelve non-empty charts are drawn, and the flag and toast follow the limit |
| Charting.DrawableIffSnapshots | ui/src/App.tsx:192-240 | with snapshots every chart is non-empty (one per device, or one per device and container in split mode); without snapshots none is |
| Charting.SplitReachesLimit | ui/src/App.tsx:192-209 | in split mode with the four devices, four or more containers and a snapshot exceed the twelve-chart cap |
| Sidebar.InitialWidth | ui/src/App.tsx:79 | a missing, unparseable or zero stored width gives the default 223, any other value is taken as stored; the start-up width is never zero |
| Sidebar.StoredWidthSurvivesReload | ui/src/App.tsx:322-330 | the width stored after a resize is read back unchanged at the next start, never replaced by the default |
| Sidebar.ResizeSidebar | ui/src/App.tsx:318-334 | without a resize in progress the width is kept; otherwise it moves by the mouse delta, clamped into [170, 500] |
| Sidebar.ResizeMonotone | ui/src/App.tsx:322-329 | a larger requested width never yields a smaller clamped width |
| Sidebar.DragInRange | ui/src/App.tsx:318-334 | after any drag the width is in range, and a drag that never leaves the range moves by the sum of the deltas |

## Left out

- The React, MUI and docker-client plumbing: hooks, timers, the `docker ps` and `docker stats` processes, `JSON.parse`, toasts, `localStorage`, debounce and the JSX tree. The model takes their results as parameters: stream chunks, `docker ps` lines, stored values, the tick's time.
- The scheduling and concurrency between the stream callback and the interval timer. Each is modelled as a step function on its own state.
- ui/src/ChartsMaker.tsx is not part of this model. A chart records its device, its data and whether it was added as a combined chart.
- The name filter's regular expression and its validation are left out. The filter is an abstract predicate `matches` on names.
- `Math.random` is a parameter `rand`. The shuffle is correct for every random source.
- `localeCompare` is an abstract total preorder `nameLe`. The default `sort()` on strings is code-point order on `seq<char>`: UTF-16 code units and code points are not distinguished.
- `parseFloat` reads only the unsigned grammar `digits[.digits]`, which is what docker prints. Text with no numeral gives 0 where JavaScript gives `NaN`. A `" / "` pair with no second piece gives 0 for it where JavaScript leaves it `undefined`.
- Dots.Round2: rounds `100x` halves up without the `Number.EPSILON` nudge. Binary floating point is not modelled, so values are exact reals.
- Numerals.Fraction: proved to lie in [0, 1) and to stop at the first non-digit. Its equality with the digits read as an integer over a power of ten is not stated.
- The getters of `Container`, `Stats`, `StatsStack`, `ChartDot` and `ChartItem` are datatype fields.
- Identity of devices and dots is compared by value. The source compares devices by reference in `getWriteSibling`, and every device there is one of four constants.
- `getDotsSample` on a dataset with no items throws in the source. It is modelled as an absent value.
- The `!selectedDevices` test of the charts effect is always false for an array, so it is left out.
- The application calls `setUseLightPalette(mode === 'dark')`, so the light palette is used on the dark theme. The model keeps the flag as a parameter and does not choose between themes.
- `clone` of a collection or of the window is the identity on values. The sharing of the underlying array, and the in-place mutation of the selection, have no counterpart in a value model. The one sharing with a visible effect, the shuffle's `setColor` on shared container objects, is modelled explicitly by `Recoloring`.
- Running.ShuffleColors: recolours only the running list it returns. The recolouring of the selection and of the stored snapshots, which the source gets through shared objects, is stated by Recoloring.ShuffleEverywhere.
- Recoloring.RecolorOne: matches containers by value, as the model has no object identity. A record stored before the last re-identification holds an older object in the source and keeps its old colour there. The model recolours it when it equals a running container.
- The timestamp format of `toLocaleTimeString` is left out. Times are opaque strings compared for equality.
- Sidebar.InitialWidth: a stored width outside [170, 500] is taken as it is, as in the source. The clamp applies only from the first mouse move.

## Findings

| source | as written | input that shows it | evidently intended | confidence | as-written member | corrected member |
|---|---|---|---|---|---|---|
| ui/src/App.tsx:171 | the sorted name lists are compared through `toString()`, which joins them with commas | one running container named `a,b` against streamed records `a` and `b`; also no running containers against one record with an empty name (`Running.CommaNameCounterexample`, `Running.EmptyNameCounterexample`, `Streaming.TickCommaCounterexample`) | the names changed exactly when the multisets of names differ, so that the tick re-identifies instead of failing on an unknown name (`Running.UnchangedMeansAllKnown`) | low, not executed; docker does not allow commas in container names | Running.ContainersChangedAsWritten | Running.ContainersChanged |
