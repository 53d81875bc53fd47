# Food-delivery controller: a Dafny model

The firmware (`Core/Src/freertos.c`) runs a small city on an STM32 board.
The city is a grid of avenues and streets with restaurants and houses. The
firmware keeps:

- a list of orders (`Pedido`);
- a kitchen queue per restaurant (`Restaurante`);
- a fleet of drivers (`Repartidor`), each holding up to three accepted orders.

Commands arrive one character at a time over a serial line. `PEDIDO_WEB` creates an order and `CANCELAR_PEDIDO` cancels one.

A restaurant task prepares the queued orders:

- first come, first served while the queue is short;
- shortest job first once the queue is long.

The assigner task scores every driver with room for a ready order and ranks them. It then asks the ranked drivers in turn to confirm, using a random draw. A driver moves one A* step at a time over the unified map: a `(2n-1) x (2n-1)` grid of corners, streets and blocks. A driver waits 3 s at a restaurant and 2 s at a house. Delivered orders feed a per-order time breakdown and global percentiles.

The model is split by concern:

| module | file | what it holds |
|---|---|---|
| `Common` | common.dfy | constants, `Option`/`Result`, 32-bit tick arithmetic, removal from the middle of an array |
| `Geometry` | geometry.dfy | positions, Manhattan distance, avenue/street conversion, access points, scaling onto the unified map |
| `Orders` | orders.dfy | the order record, its creation, the per-order time breakdown and the sample filters of the global metrics |
| `Sorting` | sorting.dfy | the in-place quicksort and the percentile read off it |
| `Metrics` | metrics.dfy | the global metrics over all orders |
| `Kitchen` | kitchen.dfy | a restaurant's queue (a class over an array), FCFS/SJF selection, preparation time |
| `Commands` | commands.dfy | line assembly, blank removal, `strstr` dispatch, the two argument parsers and their round trips |
| `Routing` | routing.dfy | building the unified map and the A* next step (in place on `array2`) |
| `Drivers` | drivers.dfy | a driver (a class over an array of receipts) and its route changes |
| `Assign` | assign.dfy | detour, score, confirmation chance, candidate ranking, choice of driver |
| `System` | system.dfy | the whole controller (`Dispatch`): order list, kitchens, drivers, map and one step of each FreeRTOS task |

Modelling conventions:

- Floating-point values become integers:
  - durations are milliseconds;
  - preparation times are hundredths of a second (menu dishes take 20.00 to 29.99 s);
  - scores are whole points.
- `HAL_GetTick()` is a `now` parameter. Tick arithmetic wraps at 2^32, written out with `TickAdd` and `Elapsed`.
- `rand()` draws become parameters, one draw per ranked driver.
- The string-keyed lookup of an order (`buscarPedido`) is the function `Dispatch.Lookup`. It maps a receipt to the leg the driver must drive.

## Model

| member | source | states |
|---|---|---|
| Common.TickAdd | Core/Src/freertos.c:1324 | a tick plus a delay stays a 32-bit tick, and equals the plain sum unless the sum overflows, when it wraps by 2^32 |
| Common.NatToString | Core/Src/freertos.c:2457 | the decimal rendering of a counter is non-empty, all digits, and one digit exactly for values below 10 |
| Common.RemoveAt | Core/Src/freertos.c:2120-2123 | shifting left over the removed slot leaves the prefix before it followed by the suffix after it, the rest of the array untouched |
| Common.IndexOf | Core/Src/freertos.c:2111-2117 | the linear search returns the first index holding the value, or -1 exactly when the value is absent |
| Common.FirstIndex | Core/Src/freertos.c:2152-2158 | the first position holding the value, -1 exactly when it is absent |
| Common.FirstIndexAt | Core/Src/freertos.c:2152-2158 | a position holding the value with none before it is the first position |
| Common.WithoutAt | Core/Src/freertos.c:2119-2123 | removing the first occurrence found at index k is cutting index k out of the queue |
| Common.WithoutAbsent | Core/Src/freertos.c:2119 | removing an absent value changes nothing |
| Common.WithoutMultiset | Core/Src/freertos.c:2119-2123 | removal takes exactly one copy of the value out of the queue's multiset |
| Common.CountedOnce | Core/Src/freertos.c:2152-2158 | a list without duplicates holds any value at most once |
| Geometry.Distance | Core/Src/freertos.c:285-288 | Manhattan distance is non-negative and zero exactly between equal positions |
| Geometry.DistanceSymmetric | Core/Src/freertos.c:285-288 | distance does not depend on the order of its arguments |
| Geometry.TriangleInequality | Core/Src/freertos.c:285-288 | going through a third point is never shorter |
| Geometry.ToAvCa | Core/Src/freertos.c:263-267 | a unified-map position inside the grid converts to avenue and street numbers between 1 and the grid size |
| Geometry.FromAvCa | Core/Src/freertos.c:270-274 | avenue and street numbers within range convert to a position inside the grid |
| Geometry.AvCaRoundTrip | Core/Src/freertos.c:263-274 | converting avenue/street to a position and back returns the same pair |
| Geometry.UnifiedRoundTrip | Core/Src/freertos.c:263-274 | converting a position to avenue/street and back returns the same position |
| Geometry.AccessPoint | Core/Src/freertos.c:306-334 | a known door letter gives the cell next to the building (up is one row less), an unknown letter the building cell itself |
| Geometry.RestaurantAccess | Core/Src/freertos.c:306-319 | a restaurant's door letter U, D, L or R gives an adjacent cell, any other letter the restaurant cell |
| Geometry.HouseAccess | Core/Src/freertos.c:321-334 | a house's door letter u, d, l or r gives an adjacent cell, any other letter the house cell |
| Geometry.ScaleBuilding | Core/Src/freertos.c:579-587 | a block lands on odd unified coordinates that halve back to the block |
| Geometry.ScaleCorner | Core/Src/freertos.c:593-594 | a corner lands on even unified coordinates that halve back to the corner |
| Geometry.AccessPointOnStreet | Core/Src/freertos.c:306-334 | the door of any block on the map is inside the unified grid and on a street cell (exactly one coordinate even) |
| Orders.NewOrder | Core/Src/freertos.c:2447-2487 | a new web order is CREADO, unassigned, with no driver, every flag and timestamp cleared except the creation tick, and carries the given ids, receipt, dishes and preparation time |
| Orders.Span | Core/Src/freertos.c:998-1018 | a phase duration is positive exactly when both timestamps were recorded, the later is later and the gap is at most 4000 s, and then it is the gap; otherwise 0 |
| Orders.OrderMetrics | Core/Src/freertos.c:992-1018 | each of the queue, preparation, wait, drive and end-to-end fields lies between 0 and 4000 s, is positive exactly when its two timestamps were recorded in order at most 4000 s apart, and is then their gap |
| Orders.PhasesAddUp | Core/Src/freertos.c:998-1018 | for timestamps recorded in order and a trip within 4000 s, the four phases add up to the positive end-to-end time |
| Orders.EmitMetrics | Core/Src/freertos.c:987-1018 | a breakdown is produced exactly when none was sent before, and the order is marked as sent |
| Orders.EmitAtMostOnce | Core/Src/freertos.c:988-990 | a second emission produces nothing and leaves the order as the first one left it |
| Orders.TotalSample | Core/Src/freertos.c:1132-1141 | an order yields an end-to-end sample exactly when it is analyzable and its OrderMetrics total lies strictly between 0 and 4000 s, and the sample is that total |
| Orders.PrepSample | Core/Src/freertos.c:1132-1151 | an order yields a preparation sample exactly when it is analyzable and its OrderMetrics preparation time lies strictly between 0 and 4000 s, and the sample is that time |
| Orders.CollectStep | Core/Src/freertos.c:1129-1153 | scanning one more order appends its sample, if any, to the samples gathered so far |
| Orders.TotalSamplesBounded | Core/Src/freertos.c:1129-1141 | there are no more end-to-end samples than orders and every sample lies strictly between 0 and 4000 s |
| Orders.PrepSamplesBounded | Core/Src/freertos.c:1129-1153 | there are no more preparation samples than orders and every sample lies strictly between 0 and 4000 s |
| Orders.OnlyAnalyzableCounted | Core/Src/freertos.c:1129-1153 | a list with no delivered order yields no sample of either kind |
| Orders.SampleMatchesBreakdown | Core/Src/freertos.c:1010-1018 | the global end-to-end sample agrees with the per-order total, except at exactly 4000 s, which the per-order breakdown keeps and the global filter drops |
| Sorting.InsertCorrect | Core/Src/freertos.c:1077-1099 | inserting into a sorted list keeps it sorted and adds exactly that element (the reference sort that quicksort is measured against) |
| Sorting.SortCorrect | Core/Src/freertos.c:1077-1099 | the reference sort is sorted and a permutation of its input |
| Sorting.SortedHeadIsLeast | Core/Src/freertos.c:1077-1099 | the first element of a sorted list is no larger than any of its elements |
| Sorting.SortedUnique | Core/Src/freertos.c:1077-1099 | two sorted permutations of the same samples are equal, so any correct sort gives the same percentiles |
| Sorting.Swap | Core/Src/freertos.c:1085-1093 | the swap exchanges the two cells and keeps the multiset |
| Sorting.Partition | Core/Src/freertos.c:1079-1095 | Lomuto partition puts the pivot at its index with smaller elements before and no smaller ones after, permutes only the range and keeps the multiset |
| Sorting.PartitionStep | Core/Src/freertos.c:1082-1089 | one scan step keeps the partition invariant over one more element |
| Sorting.SortedJoin | Core/Src/freertos.c:1095-1097 | sorted parts below and at-least the pivot join around it into a sorted list |
| Sorting.QuickSortJoin | Core/Src/freertos.c:1095-1097 | after both recursive sorts the whole range is sorted and nothing outside it moved |
| Sorting.QuickSort | Core/Src/freertos.c:1077-1099 | the range is sorted in place, the array is a permutation of the old one and nothing outside the range changed |
| Sorting.RankIndex | Core/Src/freertos.c:1112-1113 | the percentile index is inside the list and never past percent of its length |
| Sorting.Percentile | Core/Src/freertos.c:1102-1116 | calcularPercentil returns the percentile of the samples (0 for none), one of the samples, without changing the caller's array |
| Sorting.SortedPercentile | Core/Src/freertos.c:1102-1116 | any sorted permutation of the samples gives the same percentile, and it is one of the samples |
| Sorting.PercentileMonotone | Core/Src/freertos.c:1102-1116 | a higher percent never gives a smaller percentile |
| Sorting.Extremes | Core/Src/freertos.c:1102-1116 | the 0th and 100th percentiles bound every sample |
| Metrics.StatsSound | Core/Src/freertos.c:1119-1166 | no more deliveries analysed than orders; p50 at most p95; 0 without samples, else a sample strictly between 0 and 4000 s |
| Metrics.PercentileWithin | Core/Src/freertos.c:1160-1164 | a percentile of samples bounded by (0, 4000 s) is one of them and inside the bounds |
| Metrics.GlobalMetrics | Core/Src/freertos.c:1119-1166 | calcularMetricasGlobales computes the percentiles and count of the specification over the live orders |
| Metrics.Gather | Core/Src/freertos.c:1123-1153 | one pass over the orders gathers exactly the end-to-end and preparation samples, in list order |
| Metrics.Record | Core/Src/freertos.c:1136-1150 | storing a sample appends it to the stored prefix and advances the count by one; no sample changes nothing |
| Kitchen.Restaurant.constructor | Core/Src/freertos.c:766-787 | a new restaurant has an empty queue and its threshold, menu and site |
| Kitchen.Restaurant.Enqueue | Core/Src/freertos.c:2495-2501 | an order id is appended to the queue exactly when there is room; otherwise the queue is unchanged |
| Kitchen.Restaurant.SelectIndex | Core/Src/freertos.c:1612-1632 | a short queue takes its head (FCFS); a long one takes the first order with the least preparation time (SJF) |
| Kitchen.Restaurant.TakeNext | Core/Src/freertos.c:1612-1637 | the selected order leaves the queue, which keeps the others in order and loses exactly one copy of it |
| Kitchen.Restaurant.Cut | Core/Src/freertos.c:1612-1636 | cutting an index keeps the queue before and after it in order |
| Kitchen.Restaurant.Remove | Core/Src/freertos.c:2107-2133 | cancellation removes the first occurrence of the order id, returning its index, or leaves the queue alone and returns -1 exactly when the id is absent |
| Kitchen.PrepTime | Core/Src/freertos.c:2476-2483 | the preparation time sums the menu times of the dishes on the menu; with a non-negative menu it is non-negative |
| Kitchen.PrepTimeBounded | Core/Src/freertos.c:2476-2483 | the preparation time is at most the number of dishes times the slowest menu time |
| Kitchen.PrepTimeAppend | Core/Src/freertos.c:2476-2483 | the preparation time of two dish lists together is the sum of their times |
| Kitchen.QuickestByIndex | Core/Src/freertos.c:1620-1632 | an order no slower than every queued order is a quickest one in SJF's sense |
| Kitchen.NegativeDishPassesGuard | Core/Src/freertos.c:2479 | the dish guard as written lets dish -1 through although -1 is not on the menu |
| Commands.CString | Core/Src/freertos.c:2291-2292 | the string ends at the first NUL: a NUL-free prefix of the buffer, the whole buffer when there is none |
| Commands.LineAssembler.constructor | Core/Src/freertos.c:2282-2283 | the line buffer starts empty |
| Commands.LineAssembler.Feed | Core/Src/freertos.c:2288-2539 | a line ending yields the pending line when it is non-empty and resets; other characters are kept while fewer than 255 are pending and dropped after |
| Commands.Clean | Core/Src/freertos.c:2343-2349 | the cleaned line is no longer than the line and holds no space, tab, CR or LF |
| Commands.CleanKeepsUnblanked | Core/Src/freertos.c:2343-2349 | a line without blanks is left as it is |
| Commands.CleanIdempotent | Core/Src/freertos.c:2343-2349 | cleaning twice is cleaning once |
| Commands.CleanLine | Core/Src/freertos.c:2385-2390 | the character loop produces the cleaned line |
| Commands.FindComma | Core/Src/freertos.c:2355 | a found comma is at or after the start |
| Commands.FindCommaSkips | Core/Src/freertos.c:2394 | strchr finds the first comma when no comma or NUL precedes it |
| Commands.FindCommaNone | Core/Src/freertos.c:2394 | strchr finds nothing when there is no comma |
| Commands.DigitsEnd | Core/Src/freertos.c:2401 | the digit run that atoi reads ends at the first non-digit |
| Commands.DigitsValue | Core/Src/freertos.c:2401 | the value of a digit run is non-negative |
| Commands.AtoiOfRendering | Core/Src/freertos.c:2401 | atoi reads back a rendered number followed by a non-digit |
| Commands.NatToStringInjective | Core/Src/freertos.c:2457 | distinct counters render differently |
| Commands.Receipt | Core/Src/freertos.c:2457 | a receipt starts with PED- followed by at least one character |
| Commands.ReceiptInjective | Core/Src/freertos.c:2457 | distinct counters give distinct receipts |
| Commands.FirstKeyword | Core/Src/freertos.c:2297-2531 | the first keyword in the dispatch order that the line contains, with no earlier one contained |
| Commands.Classify | Core/Src/freertos.c:2297-2531 | the command is unknown exactly when no keyword occurs, otherwise that of the first keyword in order that occurs |
| Commands.ContainsPrefix | Core/Src/freertos.c:2297 | a line starting with a keyword contains it |
| Commands.WebOrderBeforeRandomOrder | Core/Src/freertos.c:2377-2516 | a PEDIDO_WEB line also contains PEDIDO, yet is never taken for the random-order command |
| Commands.AbsentCharNotContained | Core/Src/freertos.c:2297-2337 | a keyword with a letter absent from the line is not contained in it |
| Commands.DispatchTo | Core/Src/freertos.c:2297-2531 | a line starting with a keyword and followed by digits and commas dispatches to it when every earlier keyword has a letter it lacks |
| Commands.WebOrderDispatch | Core/Src/freertos.c:2297-2377 | PEDIDO_WEB followed by numeric arguments dispatches to the web-order parser |
| Commands.CancelDispatch | Core/Src/freertos.c:2297-2337 | a cancellation of any issued receipt dispatches to the cancellation parser |
| Commands.CancelArgument | Core/Src/freertos.c:2354-2373 | a parsed receipt is non-empty, NUL-free and at most 19 characters |
| Commands.ParseCancel | Core/Src/freertos.c:2354-2373 | the strchr walk computes the receipt argument or its error |
| Commands.CopyReceipt | Core/Src/freertos.c:2359-2363 | the copy keeps the string up to its NUL, cut at 19 characters |
| Commands.CStringLength | Core/Src/freertos.c:2359-2363 | a buffer with no NUL before i has a string at least i long |
| Commands.CStringEnds | Core/Src/freertos.c:2359-2363 | a buffer with its first NUL at i has a string exactly i long |
| Commands.DishList | Core/Src/freertos.c:2414-2420 | the dish loop reads at most as many dishes as its budget allows |
| Commands.Dishes | Core/Src/freertos.c:2414-2420 | at most ten dishes are read |
| Commands.WebOrderArguments | Core/Src/freertos.c:2393-2422 | a parsed web order carries at most ten dishes |
| Commands.WebOrderFrom | Core/Src/freertos.c:2401-2420 | the fields read between the three commas carry at most ten dishes |
| Commands.ParseWebOrder | Core/Src/freertos.c:2393-2422 | the strchr walk computes the web-order arguments or their error |
| Commands.ReadDishes | Core/Src/freertos.c:2414-2420 | the dish loop reads the dishes of the specification |
| Commands.WebOrderFields | Core/Src/freertos.c:2393-2422 | with three commas found in order, parsing succeeds with the fields between them |
| Commands.WebFieldsRead | Core/Src/freertos.c:2401-2409 | the restaurant and house are read one-based and stored zero-based |
| Commands.NumberBeforeComma | Core/Src/freertos.c:2401-2402 | a rendered number before a comma is read back and the comma found after it |
| Commands.NumberAtEnd | Core/Src/freertos.c:2418-2419 | a rendered number at the end is read back and no further comma is found |
| Commands.DishListOfRendering | Core/Src/freertos.c:2414-2420 | the dish loop reads back every dish of a rendered comma-separated list within budget |
| Commands.DishesOfJoin | Core/Src/freertos.c:2414-2420 | up to ten rendered dishes are read back exactly |
| Commands.WebArgumentsRoundTrip | Core/Src/freertos.c:2393-2422 | a line keyword,rest,house,dishes… parses to those fields, the ids made zero-based |
| Commands.WebOrderDispatched | Core/Src/freertos.c:2377 | a rendered web order dispatches to the web-order parser |
| Commands.WebOrderClean | Core/Src/freertos.c:2385-2390 | cleaning leaves a rendered web order unchanged |
| Commands.WebOrderRoundTrip | Core/Src/freertos.c:2377-2422 | a rendered web order dispatches to PEDIDO_WEB and, cleaned and parsed, gives back its restaurant, house and dishes |
| Commands.CancelClean | Core/Src/freertos.c:2343-2349 | cleaning leaves a cancellation of a blank-free receipt unchanged |
| Commands.CancelArgumentOf | Core/Src/freertos.c:2354-2363 | the receipt after the comma is read back |
| Commands.CancelRoundTrip | Core/Src/freertos.c:2337-2373 | a cancellation of a blank-free receipt of at most 19 characters, cleaned and parsed, gives back the receipt |
| Routing.FillOpen | Core/Src/freertos.c:553-557 | every cell of the square is opened and the rest of the array is unchanged |
| Routing.PlaceCorners | Core/Src/freertos.c:559-563 | every even/even cell takes the corner at half its coordinates, the rest unchanged |
| Routing.PlaceBlocks | Core/Src/freertos.c:565-569 | every odd/odd cell takes the block at half its coordinates, the rest unchanged |
| Routing.BuildUnifiedMap | Core/Src/freertos.c:550-570 | the unified map has size 2n-1 and every cell is its corner, block or open street cell |
| Routing.CornerCellScaled | Core/Src/freertos.c:559-563 | a corner scaled onto the unified map finds its own cell there |
| Routing.BlockCellScaled | Core/Src/freertos.c:565-569 | a block scaled onto the unified map finds its own cell there |
| Routing.StreetCellsOpen | Core/Src/freertos.c:553-557 | every street cell (exactly one coordinate even) of the unified map is open |
| Routing.Neighbour | Core/Src/freertos.c:478-506 | each of the four directions gives an adjacent cell |
| Routing.SelectMin | Core/Src/freertos.c:482-487 | the chosen open node has the least f, and is the first such node |
| Routing.PopAt | Core/Src/freertos.c:489-494 | removing the chosen node keeps the other open nodes in order and consistent |
| Routing.Improve | Core/Src/freertos.c:514-517 | a shorter path through the current cell lowers the cell's cost to the current cost plus one and records the current cell as parent |
| Routing.Relax | Core/Src/freertos.c:504-530 | considering a neighbour keeps every parent a legal move and the open list within capacity |
| Routing.Close | Core/Src/freertos.c:499-502 | closing a cell strictly shrinks the set of unclosed cells |
| Routing.Expand | Core/Src/freertos.c:504-530 | expanding all four neighbours keeps the parents legal and the open list consistent |
| Routing.SearchStep | Core/Src/freertos.c:481-530 | each step closes a new cell, or pops a stale node without closing one |
| Routing.Search | Core/Src/freertos.c:459-531 | the search ends, leaving a parent table of legal moves |
| Routing.Walk | Core/Src/freertos.c:533-544 | when the walk back from the goal moves at all, the walked parent links, read forwards, are a chain of legal moves from the start through the returned cell to the goal |
| Routing.NextStep | Core/Src/freertos.c:447-545 | the next step is the start or an adjacent passable cell, the start when already at the goal, and any other step is the first move of a chain of legal moves that ends at the goal |
| Drivers.CourseState | Core/Src/freertos.c:1253-1263 | the next leg is driven to the house once picked up, to the restaurant otherwise |
| Drivers.CoursePhase | Core/Src/freertos.c:1253-1263 | the phase is 1 exactly for a picked-up order |
| Drivers.CourseTarget | Core/Src/freertos.c:1253-1263 | the target is the house's door once picked up, the restaurant's door otherwise |
| Drivers.Driver.constructor | Core/Src/freertos.c:830-848 | a new driver stands at its position idle, off route, not waiting, with no target, no orders and all counters zero |
| Drivers.Driver.Accepted | Core/Src/freertos.c:126-157 | a driver holds at most its capacity of receipts |
| Drivers.Driver.SetCourse | Core/Src/freertos.c:1253-1263 | the driver heads for the leg's target in its state and phase; nothing else changes |
| Drivers.Driver.GoIdle | Core/Src/freertos.c:1265-1273 | the driver is idle, off route, with no target and phase 0; nothing else changes |
| Drivers.Driver.Drop | Core/Src/freertos.c:1237-1241 | the receipt at k leaves the list, the others keep their order |
| Drivers.Driver.Continue | Core/Src/freertos.c:1243-1273 | the whole new driver state is MovedOn of the old one: the index wraps to 0 past the end, an empty driver goes idle with no target, a found order sets the course, a missing one leaves the course as it was |
| Drivers.Driver.Accept | Core/Src/freertos.c:1464-1476 | the receipt is appended and counted; an idle driver starts towards the restaurant with order 0 current; the whole new state is AcceptedBy of the old one |
| Drivers.Driver.Decline | Core/Src/freertos.c:1494 | one more rejection is counted and nothing else changes: the whole new state is Refused of the old one |
| Drivers.Driver.Find | Core/Src/freertos.c:2152-2158 | the first index of the receipt, -1 exactly when it is not held |
| Drivers.Driver.RemoveSlot | Core/Src/freertos.c:2160-2245 | the whole new driver state is Removed of the old one: the receipt leaves the list; an earlier index moves the current one back; removing the current order unblocks the driver, resets a wait tick to 0 and moves on to the next order |
| Drivers.Driver.Release | Core/Src/freertos.c:2152-2248 | the index found is the receipt's first position, and the whole new driver state is Released of the old one: a held receipt is removed as RemoveSlot does, an unknown one changes nothing |
| Drivers.Driver.FinishWait | Core/Src/freertos.c:1194-1280 | the new driver state and the outcome are AfterWait of the old state: waiting goes on before the wait tick; afterwards a pickup heads for the house in phase 1, a hand-over is HandedOver (removed, counted, next course or idle) |
| Drivers.Driver.Handover | Core/Src/freertos.c:1224-1273 | the delivered receipt is the current one, and the whole new state is HandedOver of the old one: removed, counted, then on to the next order or idle |
| Drivers.Driver.Advance | Core/Src/freertos.c:1290-1339 | arrival means the step is the target and the current order is found, and the whole new state is Advanced of the old one: the driver stands on the step, and on arrival starts a 3 s pickup or 2 s hand-over wait |
| Drivers.Driver.DropCurrent | Core/Src/freertos.c:2165-2228 | cancelling the current order leaves the whole state as Removed says for the current index |
| Drivers.Driver.Unblock | Core/Src/freertos.c:2170-2174 | a waiting driver stops waiting and its wait tick goes back to 0; nothing else changes |
| Drivers.Driver.DropOther | Core/Src/freertos.c:2230-2245 | cancelling another order removes it and moves the current index back when it was earlier; nothing else changes |
| Drivers.RemovedKeepsServing | Core/Src/freertos.c:2230-2245 | cancelling an order other than the current one keeps the driver on the same order, course, wait and cell, with one order fewer |
| Drivers.RemovedServesNext | Core/Src/freertos.c:2165-2228 | cancelling the current order unblocks the driver and puts it on the order that followed (the first one after the last) with that order's course, or leaves it idle with no target when it was the only one |
| Drivers.HandedOverServesNext | Core/Src/freertos.c:1224-1273 | a hand-over counts one delivery and puts the driver on the following order with its course, or leaves it idle when it was the only one |
| Drivers.ReleasedHeld | Core/Src/freertos.c:2152-2245 | on the receipt list a cancellation removes exactly the first occurrence; an absent receipt changes nothing at all |
| Drivers.MovedOnKeepsList | Core/Src/freertos.c:1243-1273 | moving on to the next order never changes the receipt list |
| Drivers.WaitOutcomes | Core/Src/freertos.c:1194-1280 | the wait goes on exactly before the wait tick and then changes nothing; once over, the order is collected exactly when it is found in phase 0 (then heading for the house) and delivered exactly when found in phase 1 (then removed and counted) |
| Drivers.AdvancedKeepsCourse | Core/Src/freertos.c:1287-1339 | a step changes the position and never the list, index, target, phase or counters; away from the target, or with no order, it changes nothing else |
| Drivers.PickupWaitsThreeSeconds | Core/Src/freertos.c:1194-1335 | a driver reaching the restaurant with its order found waits exactly until 3000 ms after arriving and then collects the order and heads for the house |
| Drivers.HandoverWaitsTwoSeconds | Core/Src/freertos.c:1194-1335 | a driver reaching the house with its order found waits exactly until 2000 ms after arriving and then hands the order over |
| Drivers.AcceptedByServes | Core/Src/freertos.c:1464-1476 | taking an order appends exactly its receipt and counts it, moving no position, wait or other count; an idle driver with no orders then serves that receipt and heads for its restaurant in phase 0; a busy one keeps serving the same order on the same course |
| Drivers.AfterOfferEffects | Core/Src/freertos.c:1447-1588 | after an offer round a driver's list has grown by the receipt exactly when it took the order, and its refusals by one exactly when it was asked and declined; position, wait and deliveries stay; a driver neither asked nor chosen is unchanged |
| Assign.Deviation | Core/Src/freertos.c:356-379 | the detour is never negative, zero for an idle or empty driver, and the fixed unknown detour when the current order is missing |
| Assign.NoDetourOnTheWay | Core/Src/freertos.c:356-379 | picking up at the driver's destination or position costs no detour |
| Assign.DetourBehind | Core/Src/freertos.c:356-379 | a pickup b cells behind a driver heading straight on costs a detour of 2b |
| Assign.Score | Core/Src/freertos.c:382-412 | an empty driver within the detour limit scores 100 minus the distance, plus 5 when idle |
| Assign.ScoreByDistance | Core/Src/freertos.c:382-412 | between otherwise equal drivers, each cell nearer the pickup is worth one point |
| Assign.ScoreByLoad | Core/Src/freertos.c:382-412 | each additional carried order costs 10 points |
| Assign.SameRestaurantPreferred | Core/Src/freertos.c:382-412 | a driver already bound for the same restaurant scores at least 30 points more than one that is not |
| Assign.AcceptChance | Core/Src/freertos.c:415-437 | the acceptance chance is between 5 and 100 percent |
| Assign.ConfirmsBelowChance | Core/Src/freertos.c:415-437 | a driver confirms exactly when the draw falls below the acceptance chance |
| Assign.ChanceMonotone | Core/Src/freertos.c:415-437 | a higher score never lowers the chance |
| Assign.CandidateOf | Core/Src/freertos.c:1373-1379 | a candidate records the driver and its detour |
| Assign.CandidatesExact | Core/Src/freertos.c:1364-1383 | the candidates are exactly the drivers with room, once each, in driver order, with their scores |
| Assign.Gather | Core/Src/freertos.c:1364-1383 | the scoring loop fills the candidate array with the candidates of the specification |
| Assign.SwapCandidates | Core/Src/freertos.c:1419-1421 | the swap exchanges two candidates and keeps the multiset |
| Assign.SelectStep | Core/Src/freertos.c:1416-1423 | one comparison keeps the best so far at position i |
| Assign.SelectBest | Core/Src/freertos.c:1416-1423 | the inner pass leaves at i a candidate no later one beats, permuting only the tail |
| Assign.RankPass | Core/Src/freertos.c:1415-1424 | one outer pass extends the ranked prefix by one |
| Assign.RankStep | Core/Src/freertos.c:1415-1424 | a best-at-i tail after a ranked prefix gives a ranked prefix one longer |
| Assign.RankCandidates | Core/Src/freertos.c:1415-1424 | the exchange sort ranks the candidates by score, ties by smaller detour, as a permutation |
| Assign.RankedHeadIsBest | Core/Src/freertos.c:1415-1424 | the first ranked candidate is beaten by none |
| Assign.RearrangedCandidates | Core/Src/freertos.c:1364-1424 | any permutation of the candidates still names distinct drivers with room and their scores |
| Assign.FirstConfirming | Core/Src/freertos.c:1447-1499 | the first ranked driver whose draw confirms, with all before it declining, or none when all decline |
| Assign.Chosen | Core/Src/freertos.c:1447-1560 | the chosen rank is the first whose draw confirms, every earlier one declining; it is the top rank without confirming only when every ranked driver declined (the forced assignment) |
| Assign.SureDriverNotPassed | Core/Src/freertos.c:1447-1499 | a driver sure to confirm (score 70 or more within the detour limit) is never passed over for a lower-ranked one |
| Assign.AskedExactlyDeclined | Core/Src/freertos.c:1447-1499 | with distinct drivers in the ranking, a driver is among the first `stop` asked exactly when it declined, and a driver outside the ranking was never asked |
| System.FindFrom | Core/Src/freertos.c:296-304 | the search returns the first order from the start with the receipt, or none exactly when there is none |
| System.FindOrder | Core/Src/freertos.c:296-304 | buscarPedido finds the first order with the receipt, or nothing exactly when no order carries it |
| System.LegOf | Core/Src/freertos.c:336-353 | a known order gives the leg between its restaurant and house doors, picked up exactly when RECOGIDO |
| System.Elapsed | Core/Src/freertos.c:1902 | unsigned tick subtraction is the difference, plus 2^32 when the tick counter wrapped |
| System.ElapsedAfterAdd | Core/Src/freertos.c:1902 | the elapsed time since a tick to that tick plus a delay is the delay, across wrap-around |
| System.ReadyCheck | Core/Src/freertos.c:1900-1917 | an order in preparation becomes ready, stamped now, exactly once its preparation time has elapsed; otherwise it is unchanged |
| System.ReadyExactlyWhenDue | Core/Src/freertos.c:1900-1917 | an order is ready exactly when the elapsed time reaches its preparation time |
| System.StartPreparing | Core/Src/freertos.c:1640-1659 | the order enters preparation at the restaurant, stamped now; its creation tick is set when missing |
| System.Withdrawn | Core/Src/freertos.c:2255-2261 | a cancelled order is CANCELADO with every flag cleared and no driver |
| System.Assigned | Core/Src/freertos.c:1478-1482 | an assigned order is ACEPTADO with the driver, no retries and the assignment tick |
| System.Retried | Core/Src/freertos.c:1386-1398 | a retry counts up to 5 and then starts over from 0 |
| System.RetriesBounded | Core/Src/freertos.c:1386-1398 | the retry count stays between 0 and 5 |
| System.RetriesCycle | Core/Src/freertos.c:1386-1398 | six retries bring the count back where it was |
| System.Collected | Core/Src/freertos.c:1207-1212 | a picked-up order is RECOGIDO, on route, no longer in preparation, stamped now |
| System.Handed | Core/Src/freertos.c:1224-1228 | a delivered order is ENTREGADO, off route, stamped now |
| System.Dispatch.constructor | Core/Src/freertos.c:599-658 | the controller starts with no orders, receipts numbered from 1 and round robin at driver 0 |
| System.Dispatch.Live | Core/Src/freertos.c:95-124 | the live orders are the first numPedidos slots |
| System.Dispatch.LookupOnMap | Core/Src/freertos.c:336-353 | every leg the lookup returns lies inside the map |
| System.Dispatch.NextReceiptFresh | Core/Src/freertos.c:2457 | the next receipt is carried by no live order |
| System.Dispatch.ReceiptsUnique | Core/Src/freertos.c:2457 | no two live orders share a receipt |
| System.Dispatch.FindIndex | Core/Src/freertos.c:296-304 | the loop finds the first live order with the receipt, as specified |
| System.Dispatch.PlaceWebOrder | Core/Src/freertos.c:2425-2507 | a bad restaurant, a bad house, no dishes and a full list are errors that change nothing, the restaurant's queue included; otherwise a new order with the next receipt is appended and queued |
| System.Dispatch.AddOrder | Core/Src/freertos.c:2447-2507 | the new order is appended with the next receipt, findable by it, and queued at its restaurant when there is room |
| System.Dispatch.AppendOrder | Core/Src/freertos.c:2487-2507 | the order is appended at index numPedidos and found there by its receipt |
| System.Dispatch.QueueOrder | Core/Src/freertos.c:2495-2501 | the id joins the restaurant's queue when there is room |
| System.Dispatch.SetOrder | Core/Src/freertos.c:95-124 | exactly one order slot is replaced |
| System.Dispatch.CancelOrder | Core/Src/freertos.c:2088-2268 | cancellation fails, changing nothing, exactly when no order has the receipt; otherwise, for the order found: a driver mid-handover rejects it, and then neither the orders nor that driver change; otherwise the order is withdrawn, a CREADO order leaves its kitchen queue, and its driver's state becomes Released of the old one |
| System.Dispatch.CancelAt | Core/Src/freertos.c:2098-2268 | a CREADO order leaves its kitchen queue; a driver mid-handover rejects the cancellation, and then neither the orders nor that driver change; otherwise the order is withdrawn and the driver's whole state becomes Released of the old one |
| System.Dispatch.Withdraw | Core/Src/freertos.c:2136-2261 | rejected exactly during a handover, leaving the orders and the driver unchanged; otherwise the order is withdrawn and the driver's whole state becomes Released of the old one |
| System.Dispatch.Unqueue | Core/Src/freertos.c:2107-2133 | the order id leaves its kitchen queue (its first occurrence) |
| System.Dispatch.Unassign | Core/Src/freertos.c:2136-2252 | rejected exactly when the driver is mid-handover, and then the driver is unchanged; otherwise its whole state becomes Released of the old one, which removes the receipt's first occurrence |
| System.Dispatch.Views | Core/Src/freertos.c:1364-1374 | what the scoring sees of each driver |
| System.Dispatch.DeclineAt | Core/Src/freertos.c:1494 | the driver's whole new state is Refused of the old one: one more rejection and no other field changed; every other driver is unchanged |
| System.Dispatch.AskInTurn | Core/Src/freertos.c:1447-1499 | the drivers are asked in ranked order until one confirms (`k`, or -1); the first `stop` ranked drivers are exactly those that declined; every driver's whole new state is Asked of the old one: Refused when among them, unchanged otherwise |
| System.Dispatch.AcceptAt | Core/Src/freertos.c:1464-1476 | the driver's whole new state is AcceptedBy of the old one with the order's receipt and restaurant door: the receipt appended and counted, an idle driver heading for the restaurant with order 0 current in phase 0; every other driver is unchanged |
| System.Dispatch.Hand | Core/Src/freertos.c:1464-1482 | the order becomes assigned to the driver; the driver's whole new state is AcceptedBy of the old one; every other driver is unchanged |
| System.Dispatch.AssignOrder | Core/Src/freertos.c:1345-1597 | an ineligible order changes no order, no driver and no turn; for an eligible one the views and ranking are the Survey of the old state, a driver is chosen exactly when the ranking is not empty and it is the Chosen rank; no candidate means a retry; otherwise the order is assigned and round robin moves past the driver; every driver's whole new state is AfterOffer of the old one |
| System.Dispatch.FindDriver | Core/Src/freertos.c:1364-1597 | the views and ranking are the Survey of the old state; no candidate means a retry with every driver unchanged; otherwise the chosen driver is the Chosen rank, the order is assigned to it and round robin moves on; every driver's whole new state is AfterOffer of the old one |
| System.Dispatch.Survey | Core/Src/freertos.c:1364-1424 | the ranked candidates are distinct drivers with room |
| System.Dispatch.Offer | Core/Src/freertos.c:1447-1588 | the chosen driver is the Chosen rank of the ranking; the first `stop` ranked drivers are exactly those that declined; every driver's whole new state is AfterOffer of the old one (refused if it declined, AcceptedBy if chosen, unchanged otherwise); the order is assigned to the chosen driver and round robin moves past it |
| System.Dispatch.Award | Core/Src/freertos.c:1464-1588 | the order becomes assigned to the driver, round robin moves past it, the driver's whole new state is AcceptedBy of the old one and every other driver is unchanged |
| System.Dispatch.PassTurn | Core/Src/freertos.c:1587-1588 | the round robin index moves to the driver after the chosen one |
| System.Dispatch.MoveDriver | Core/Src/freertos.c:1184-1342 | a waiting driver's state and outcome are AfterWait of the old state; a driver en route moves at most one cell, marked on the map, a real move beginning a chain of legal moves to its target, no other cell but the old one changes, and its state is Advanced of the old one; a parked driver is unchanged; the map changes only in the moving branch; no order changes unless a wait ends, a pickup collects the order and a handover delivers it and emits its metrics once |
| System.Dispatch.EndWait | Core/Src/freertos.c:1194-1280 | the driver's new state and the outcome are AfterWait of its old state; a pickup collects the order, a handover delivers it and emits its metrics |
| System.Dispatch.FinishAt | Core/Src/freertos.c:1194-1280 | the driver's new state and the outcome are AfterWait of its old state over the live orders; the order involved is a live one |
| System.Dispatch.Step | Core/Src/freertos.c:1287-1339 | the driver moves at most one cell, marked on the map with no other cell but the old one changed, stays put at its target, arrives exactly when it reaches the target with a known order, a real move begins a chain of legal moves to its target, and its whole state is Advanced of the old one |
| System.Dispatch.Route | Core/Src/freertos.c:1288-1291 | the old cell is cleared and the new one (adjacent or the same) marked, no other cell changes; a step away from the cell is the first move of a chain of legal moves on the map that ends at the goal |
| System.Dispatch.AdvanceAt | Core/Src/freertos.c:1290-1339 | the driver stands on the step, arrives exactly when the step is its target and its order is known, and its whole state is Advanced of the old one |
| System.Dispatch.MarkReady | Core/Src/freertos.c:1900-1917 | every live order is checked for readiness at this tick, the rest of the list untouched |
| System.Dispatch.KitchenBusy | Core/Src/freertos.c:1939-1948 | the kitchen is busy exactly when one of its orders is in preparation and not ready |
| System.Dispatch.ServeKitchen | Core/Src/freertos.c:1938-1955 | an idle kitchen with a queue serves entry `slot` by the FCFS/SJF rule (Served), cuts it from the queue and starts preparing the order; a busy or empty kitchen changes neither orders nor queue |
| System.Dispatch.ProcessRestaurant | Core/Src/freertos.c:1600-1669 | a restaurant with a queue serves entry `slot`: the head up to the threshold, the first quickest entry beyond it (Served); the queue becomes the old queue with that entry cut out, and the order starts preparing; nothing otherwise |
| System.Dispatch.TakeFrom | Core/Src/freertos.c:1612-1637 | the taken id is entry `slot` of the old queue, the head when the queue is within the threshold and the first quickest entry beyond it (Served), and the new queue is the old one with exactly that entry cut out |

## Left out

- Concurrency is not modelled. That covers the FreeRTOS tasks, mutexes, the queue-capacity semaphore, event groups and `vTaskDelay`. Each modelled operation is one atomic step. A mutex that times out (the source then skips that restaurant or driver) is not modelled.
- UART output (`printf`, the JSON events, `enviarMapa*`, `enviarEstadisticas`) is not modelled. The same goes for the output side of `enviarMetricasGlobales`. The model returns the values that would be printed.
- Floating point is not modelled, and neither are the averages `promedioTotal`/`promedioPreparacion`, which are printed only. Scores, chances and durations are integers in the units given above.
- `tipoDestino` (a display string) is not modelled. Neither are `velocidad` and `factorDesvio`, which no modelled operation reads.
- Random generation is not modelled. That covers the city, restaurants, houses and drivers built by `inicializarSistema`, and also `regenerarMapa`, `crearPedidoAleatorio` and `solicitarPedidoAutomaticoAWeb`. The `Dispatch` constructor takes the generated city as parameters. It starts from the state that `limpiarSistemaCompleto` resets to.
- The idle drivers' random moves in `StartTaskRepartidores` are not modelled. The `lastCheck` gating of the restaurant task is not modelled either.
- The START, STOP, MAP, REGEN, STATS, METRICS, INFO and HELP commands are classified but their effects are not modelled. They only print or set the running flag.
- Routing.NextStep: the model proves that every step is legal, that a step away from the start begins a chain of legal moves to the goal, and that the search terminates. It does not prove that a path is found whenever one exists: the open list holds at most 400 entries and drops pushes beyond that, and the driver then stays where it is. It does not prove that the path is shortest either.
- Assign.RankCandidates: among candidates equal in both score and detour the contract does not fix the order. The exchange sort's swaps decide which of them comes first, and so which one a forced assignment picks.
- System.Dispatch.AssignOrder: the assigner re-checks capacity just before asking a driver. That re-check is not modelled, because without concurrency it can never fail. The forced-assignment fallback's "no driver with room" branch, which marks an order BUSCANDO_MOTORISTA, cannot be reached for the same reason and is not modelled.
- System.Dispatch.AssignOrder: when there are no candidates, the model counts the retry. It does not model the 3 s or 10 s delay or the re-raised event.
- System.Dispatch.ServeKitchen: the queue-capacity semaphore taken before a restaurant is served is not modelled. An idle kitchen with a queue is always served.
- System.Dispatch.MoveDriver: the source tests `HAL_GetTick() >= tiempoEspera` without wrap-around. The model compares the same 32-bit values, so a wait whose end wrapped past 2^32 ends early there as well.
- Commands.Atoi: the model reads an unbounded integer, whereas `atoi` on the 32-bit target clamps to the `int` range. A clamped id or dish number is too large, too small or negative exactly when the unbounded one is, so the checks that follow decide the same way.
- System.Dispatch.Step: the unified map is the only grid A* searches. The per-step map redraw for display is not modelled.
- The dashboard and the simulation described for the rest of the repository are not part of this model.

## Findings

| source | as written | input that shows it | evidently intended | confidence | as-written member | corrected member |
|---|---|---|---|---|---|---|
| Core/Src/freertos.c:2479 | the preparation-time guard only checks `platillos[i] < numPlatillos`, so a negative dish id reads the menu at a negative index | `PEDIDO_WEB,1,1,-1` | only dish ids from 0 to numPlatillos - 1 count towards the preparation time | not executed | Kitchen.NegativeDishPassesGuard | Kitchen.PrepTime |
