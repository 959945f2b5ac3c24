# Pacman container packing: a Dafny model of the packing orchestration

This project models the core of the Pacman packing prototype. A manifest names a shipment. The shipment lists
quantities of container types and item types. The solver expands those lines into individual containers and
items, and then searches over orderings of the containers. For each ordering it packs the containers one after
the other. Each container gets the items the previous one left over, and a single-container algorithm (EB-AFIT)
does the placement. The best packing found is written back as packing-container and packing-item records, a
total cost and per-type counts of the unpacked items. Two TypeScript pieces are modelled too: the website panel
that lays resource tags out in columns, and the subscription processor that routes manifest updates to
websocket topics.

The Dafny modules follow the source files:

- `Wrappers`: `Option`, `Result` and the .NET exception messages the model raises.
- `Ordering`: a stable sort by algorithm name, which stands in for `OrderBy(r => r.AlgorithmName)`. Names are
  compared in ordinal order; `OrderBy` itself uses the culture-sensitive default string comparer (see "## Left out").
- `Entities`: `Item`, `AlgorithmPackingResult` and `ContainerPackingResult` are classes, since the solver
  updates their fields in place. `Container` is a value, since nothing changes it after construction.
- `PackingService`: `GetPackingAlgorithmFromTypeID`, `Pack`, `PackManifest` and `ExecutePack`. Each
  method is proved against a specification function on values (`PackValue`, `PackManifestValue`,
  `SearchValue`, `ExecutePlan`), and the lemmas state what the source promises about those functions.
- `DynamoToEntityMapper`: the `Mapper` class. It holds the tables it writes, the two shared lists the
  `Get*ForManifest` methods fill, and an identifier oracle.
- `ResourceTagsDetails`: `getColumnsContent` and the column arithmetic of the panel.
- `ManifestUpdateProcessor`: `getTopicById`, `toSubscribe`, `getTopic`, `toProcess` and `process`.

Some parts of the system are not shown, or are outside the program. They enter the model as parameters:

- The single-container algorithm is a `Runner`: a function from algorithm, container and items to the
  placements it makes, the items it leaves out and the elapsed milliseconds.
- The orderings `Permute()` produces are a function `permute` from the container list to a sequence of
  orderings.
- The no-improvement threshold is a parameter. `NoImprovePermutations` models how the static constructor
  derives it from `MaximumPermutations`.
- `Guid.NewGuid` is an oracle `guid: nat -> string`, indexed by how many identifiers were drawn before.

## Model

| member | source | states |
|---|---|---|
| Ordering.LexLeTotal | application/csharp/AWS.Prototyping.Pacman.Solver/src/AWS.Prototyping.Pacman.Solver/PackingService.cs:294-295 | Any two algorithm names are comparable in the ordinal order the model sorts by, which stands in for `OrderBy`'s default comparer. |
| Ordering.LexLeTransitive | application/csharp/AWS.Prototyping.Pacman.Solver/src/AWS.Prototyping.Pacman.Solver/PackingService.cs:294-295 | The ordinal order the model sorts by is transitive, so sorting by it is well defined. |
| Ordering.SortOrder | application/csharp/AWS.Prototyping.Pacman.Solver/src/AWS.Prototyping.Pacman.Solver/PackingService.cs:294-295 | The index order of the model's `OrderBy` is a permutation of the positions, sorted by key in ordinal order, and stable: equal names keep their original order. |
| Entities.Item.constructor | application/csharp/AWS.Prototyping.Pacman.Solver/src/AWS.Prototyping.Pacman.Solver/Entities/Item.cs:34-45 | A new item stores every constructor argument unchanged and has Volume = dim1·dim2·dim3. It starts unpacked, at the origin, with zero pack dimensions. |
| Entities.Item.Place | application/csharp/AWS.Prototyping.Pacman.Solver/src/AWS.Prototyping.Pacman.Solver/Entities/Item.cs:71-169 | Writing a placement sets IsPacked, the coordinates and the pack dimensions, and changes nothing else. In particular Volume is unchanged. |
| Entities.NewContainer | application/csharp/AWS.Prototyping.Pacman.Solver/src/AWS.Prototyping.Pacman.Solver/Entities/Container.cs:30-40 | The constructor keeps the id, the three sides, the type id, the cost and the maximum weight it is given, and leaves Features unset. |
| Entities.AlgorithmPackingResult.constructor | application/csharp/AWS.Prototyping.Pacman.Solver/src/AWS.Prototyping.Pacman.Solver/Entities/AlgorithmPackingResult.cs:24-28 | A new result has empty packed and unpacked lists, and zero metrics. |
| Entities.AlgorithmPackingResult.RecordMetrics | application/csharp/AWS.Prototyping.Pacman.Solver/src/AWS.Prototyping.Pacman.Solver/PackingService.cs:278-286 | Pack overwrites the pack time and both percentages, and leaves the item lists and the identity untouched. |
| Entities.ContainerPackingResult.constructor | application/csharp/AWS.Prototyping.Pacman.Solver/src/AWS.Prototyping.Pacman.Solver/Entities/ContainerPackingResult.cs:27-30 | A new container result has an empty list of algorithm results. |
| Entities.ContainerPackingResult.Add | application/csharp/AWS.Prototyping.Pacman.Solver/src/AWS.Prototyping.Pacman.Solver/PackingService.cs:288-291 | Adding appends exactly the one algorithm result and keeps the container id. |
| Entities.ContainerPackingResult.OrderByAlgorithmName | application/csharp/AWS.Prototyping.Pacman.Solver/src/AWS.Prototyping.Pacman.Solver/PackingService.cs:294-295 | After ordering, the list holds the same results (as a multiset) and is the stable sort of the old list by algorithm name, in ordinal order. |
| PackingService.NoImprovePermutations | application/csharp/AWS.Prototyping.Pacman.Solver/src/AWS.Prototyping.Pacman.Solver/PackingService.cs:34-44 | The threshold is 15 unless `MaximumPermutations` parses as an integer, in which case it is that integer. |
| PackingService.GetPackingAlgorithmFromTypeID | application/csharp/AWS.Prototyping.Pacman.Solver/src/AWS.Prototyping.Pacman.Solver/PackingService.cs:314-324 | An algorithm is returned exactly for type id 1 (EB-AFIT); every other id raises "Invalid algorithm type.". |
| PackingService.RunResult | application/csharp/AWS.Prototyping.Pacman.Solver/src/AWS.Prototyping.Pacman.Solver/Entities/AlgorithmPackingResult.cs:38-45 | The run's result is a complete pack exactly when its unpacked list is empty. |
| PackingService.Percent | application/csharp/AWS.Prototyping.Pacman.Solver/src/AWS.Prototyping.Pacman.Solver/PackingService.cs:284-286 | A percentage is finite exactly when the divisor is non-zero, and it is then part·100/whole. A zero divisor gives NaN or infinity. |
| PackingService.Runs | application/csharp/AWS.Prototyping.Pacman.Solver/src/AWS.Prototyping.Pacman.Solver/PackingService.cs:260-291 | With every algorithm id known, there is one algorithm run per requested id, in request order. |
| PackingService.AlgorithmRunItems | application/csharp/AWS.Prototyping.Pacman.Solver/src/AWS.Prototyping.Pacman.Solver/PackingService.cs:266-275 | Each algorithm works on fresh copies of every input item. The packed and unpacked lists are the items the run placed or left out, with their volume dim1·dim2·dim3, and placed items are marked packed. |
| PackingService.WithMetricsFacts | application/csharp/AWS.Prototyping.Pacman.Solver/src/AWS.Prototyping.Pacman.Solver/PackingService.cs:278-286 | After Run, the pack time is the measured time. Container percentage · L·W·H = packed volume · 100 and item percentage · (packed + unpacked volume) = packed volume · 100, each when its divisor is non-zero. Item lists and names are unchanged. |
| PackingService.PackOneFacts | application/csharp/AWS.Prototyping.Pacman.Solver/src/AWS.Prototyping.Pacman.Solver/PackingService.cs:257-295 | One container's result carries the container's id and one algorithm result per requested id. It holds exactly the runs of those ids, sorted by algorithm name. |
| PackingService.PackValueFails | application/csharp/AWS.Prototyping.Pacman.Solver/src/AWS.Prototyping.Pacman.Solver/PackingService.cs:249-306 | Pack raises exactly when it has a container to pack and some requested algorithm id is unknown. |
| PackingService.PackStepValueMeaning | application/csharp/AWS.Prototyping.Pacman.Solver/src/AWS.Prototyping.Pacman.Solver/PackingService.cs:215-226 | Packing one container in PackManifest raises on an unknown algorithm id or an empty id list. Otherwise it yields that container's result and the unpacked items of its first algorithm result. |
| PackingService.PackFromStep | application/csharp/AWS.Prototyping.Pacman.Solver/src/AWS.Prototyping.Pacman.Solver/PackingService.cs:208-232 | When a container is packed, the loop stops if nothing is left unpacked. Otherwise it goes on with the next container and exactly the leftover items. |
| PackingService.PackManifestShape | application/csharp/AWS.Prototyping.Pacman.Solver/src/AWS.Prototyping.Pacman.Solver/PackingService.cs:203-237 | PackManifest visits containers in the given order, with `Results[i].ContainerID == containers[i].ID` and at most one result per container. Each container receives the previous container's leftover items. It stops only on cancellation, on a complete pack or at the end of the list. The returned unpacked items are the last packed container's leftovers, or empty when none was packed. |
| PackingService.ContainerIdOfStep | application/csharp/AWS.Prototyping.Pacman.Solver/src/AWS.Prototyping.Pacman.Solver/PackingService.cs:257-258 | The result of packing a container carries that container's id. |
| PackingService.PackManifestOutcome | application/csharp/AWS.Prototyping.Pacman.Solver/src/AWS.Prototyping.Pacman.Solver/PackingService.cs:199-240 | PackManifest raises exactly when a first container is packed uncancelled with an unknown or empty algorithm list. With no containers, or cancellation before the first, it returns no results and no unpacked items even if there are items. |
| PackingService.PackerNeverFails | application/csharp/AWS.Prototyping.Pacman.Solver/src/AWS.Prototyping.Pacman.Solver/PackingService.cs:57-96 | With the single algorithm EB-AFIT, packing an ordering never raises. |
| PackingService.AsWrittenNeverImproves | application/csharp/AWS.Prototyping.Pacman.Solver/src/AWS.Prototyping.Pacman.Solver/PackingService.cs:104-114 | As written, both cost sums range over the candidate's own containers, so no candidate ever replaces the best. |
| PackingService.SearchAsWritten | application/csharp/AWS.Prototyping.Pacman.Solver/src/AWS.Prototyping.Pacman.Solver/PackingService.cs:82-125 | With a negative threshold, nothing is packed. Otherwise exactly min(number of orderings, threshold + 2) orderings are packed. The best is the first ordering's packing, taken without comparison. The counter ends at the number packed minus 1. Cancellation is signalled exactly when orderings remain. |
| PackingService.SearchKeepsCheapest | application/csharp/AWS.Prototyping.Pacman.Solver/src/AWS.Prototyping.Pacman.Solver/PackingService.cs:99-122 | With the best's cost summed over the best's own containers and no early stop, the search keeps a packing of least cost among all orderings. |
| PackingService.CostComparisonCounterexample | application/csharp/AWS.Prototyping.Pacman.Solver/src/AWS.Prototyping.Pacman.Solver/PackingService.cs:104-114 | Containers A (cost 2) and B (cost 1): a candidate using B improves on a best using A under the intended comparison, but not under the comparison as written. |
| PackingService.CloneItems | application/csharp/AWS.Prototyping.Pacman.Solver/src/AWS.Prototyping.Pacman.Solver/PackingService.cs:266-271 | The per-algorithm list holds new, distinct item objects with the same constructor fields as the input items, in the same order, all unpacked. |
| PackingService.WritePlacements | application/csharp/AWS.Prototyping.Pacman.Solver/src/AWS.Prototyping.Pacman.Solver/Algorithms/IPackingAlgorithm.cs:21 | The run's in-place writes leave each item either placed as the run placed it or untouched. |
| PackingService.Run | application/csharp/AWS.Prototyping.Pacman.Solver/src/AWS.Prototyping.Pacman.Solver/Algorithms/IPackingAlgorithm.cs:21 | Run returns a new result whose lists are the items the run placed and left out, with their written state. |
| PackingService.FillMetrics | application/csharp/AWS.Prototyping.Pacman.Solver/src/AWS.Prototyping.Pacman.Solver/PackingService.cs:278-286 | The result's metrics are replaced by the measured time and the two percentages of the container. |
| PackingService.RunAlgorithm | application/csharp/AWS.Prototyping.Pacman.Solver/src/AWS.Prototyping.Pacman.Solver/PackingService.cs:262-286 | Cloning, running and measuring one algorithm gives a new result equal to the algorithm run on values. |
| PackingService.PackContainer | application/csharp/AWS.Prototyping.Pacman.Solver/src/AWS.Prototyping.Pacman.Solver/PackingService.cs:257-295 | Packing one container raises "Invalid algorithm type." exactly when the value-level pack raises, and otherwise returns a new result equal to it. |
| PackingService.PackNext | application/csharp/AWS.Prototyping.Pacman.Solver/src/AWS.Prototyping.Pacman.Solver/PackingService.cs:297-300 | A packed container's result is appended to the results and nothing before it changes. |
| PackingService.Pack | application/csharp/AWS.Prototyping.Pacman.Solver/src/AWS.Prototyping.Pacman.Solver/PackingService.cs:249-306 | Pack raises exactly when the value-level Pack does, and otherwise returns results equal to it: one per container, in container order. |
| PackingService.PackAlone | application/csharp/AWS.Prototyping.Pacman.Solver/src/AWS.Prototyping.Pacman.Solver/PackingService.cs:215-220 | Packing a single-container list and reading `[0]` and its `[0]` agree with the value-level step, including its exceptions. |
| PackingService.PackStep | application/csharp/AWS.Prototyping.Pacman.Solver/src/AWS.Prototyping.Pacman.Solver/PackingService.cs:217-232 | One PackManifest iteration appends the container's result and hands on its leftovers, as the value-level step says. |
| PackingService.PackManifest | application/csharp/AWS.Prototyping.Pacman.Solver/src/AWS.Prototyping.Pacman.Solver/PackingService.cs:199-240 | PackManifest raises exactly when the value-level PackManifest does, and otherwise returns a result equal to it. |
| PackingService.PackOrdering | application/csharp/AWS.Prototyping.Pacman.Solver/src/AWS.Prototyping.Pacman.Solver/PackingService.cs:96 | Packing one ordering agrees with the value-level packer and leaves the current best result untouched. |
| PackingService.SearchStep | application/csharp/AWS.Prototyping.Pacman.Solver/src/AWS.Prototyping.Pacman.Solver/PackingService.cs:96-123 | One iteration of the search loop updates the best result and the counter exactly as the value-level step does. |
| PackingService.SearchOrders | application/csharp/AWS.Prototyping.Pacman.Solver/src/AWS.Prototyping.Pacman.Solver/PackingService.cs:82-125 | The search loop returns the best result, the counter and the cancellation flag of the value-level search. |
| PackingService.LoadValueMeaning | application/csharp/AWS.Prototyping.Pacman.Solver/src/AWS.Prototyping.Pacman.Solver/PackingService.cs:51-55 | Loading succeeds exactly when the manifest and its shipment exist and every line with positive quantity names a known type. It then yields the manifest, one container per unit of container quantity and one quantity-1 item per unit of item quantity, named by consecutive identifiers. |
| PackingService.PackerHasFirstResults | application/csharp/AWS.Prototyping.Pacman.Solver/src/AWS.Prototyping.Pacman.Solver/PackingService.cs:150-151 | Every container result of a packing has an algorithm result at `[0]`, so printing the best result never raises. |
| PackingService.ExecutePlanAsWritten | application/csharp/AWS.Prototyping.Pacman.Solver/src/AWS.Prototyping.Pacman.Solver/PackingService.cs:45-157 | Once loading succeeds, ExecutePack saves the first ordering's packing, or saves nothing when there is no ordering or the threshold is negative. |
| PackingService.LoadInputs | application/csharp/AWS.Prototyping.Pacman.Solver/src/AWS.Prototyping.Pacman.Solver/PackingService.cs:51-55 | Loading the manifest, containers and items returns the value-level load and leaves the shared container list holding the containers. |
| PackingService.PlanSearch | application/csharp/AWS.Prototyping.Pacman.Solver/src/AWS.Prototyping.Pacman.Solver/PackingService.cs:80-151 | The search raises exactly when the plan fails: the search itself raised, or a container result of the best packing has no first algorithm result. Otherwise the best packing is the plan's. |
| PackingService.SaveBest | application/csharp/AWS.Prototyping.Pacman.Solver/src/AWS.Prototyping.Pacman.Solver/PackingService.cs:147-163 | The best result is saved by SaveManifest. If saving raises, the manifest is marked "Error" and the records written before the exception stay. |
| PackingService.SearchAndSave | application/csharp/AWS.Prototyping.Pacman.Solver/src/AWS.Prototyping.Pacman.Solver/PackingService.cs:60-163 | The search runs on the loaded inputs. Its best result is saved, nothing is saved when there is none, and the manifest is marked "Error" when a step raises. |
| PackingService.ExecutePack | application/csharp/AWS.Prototyping.Pacman.Solver/src/AWS.Prototyping.Pacman.Solver/PackingService.cs:45-166 | The whole operation: on any exception the manifest is marked "Error", and otherwise the search's best result is saved as SaveManifest saves it. |
| DynamoToEntityMapper.Load | application/csharp/AWS.Prototyping.Pacman.Solver/src/AWS.Prototyping.Pacman.Solver/DataMappers/DynamoToEntityMapper.cs:141-144 | A load returns the stored record exactly when the key is present. |
| DynamoToEntityMapper.ContainerCopiesFacts | application/csharp/AWS.Prototyping.Pacman.Solver/src/AWS.Prototyping.Pacman.Solver/DataMappers/DynamoToEntityMapper.cs:54-64 | Each expanded container has a fresh identifier, the type's length, the type's height as Width and width as Height, the volume L·W·H, the type's id, max weight and features, and the line's cost. |
| DynamoToEntityMapper.ItemCopiesFacts | application/csharp/AWS.Prototyping.Pacman.Solver/src/AWS.Prototyping.Pacman.Solver/DataMappers/DynamoToEntityMapper.cs:66-76 | Each expanded item has a fresh identifier, quantity 1, the type's dimensions in the order length, height, width, and the type's id, required features and weight. |
| DynamoToEntityMapper.ExpandContainersMeaning | application/csharp/AWS.Prototyping.Pacman.Solver/src/AWS.Prototyping.Pacman.Solver/DataMappers/DynamoToEntityMapper.cs:124-134 | Expanding the container lines gets through exactly when every line with positive quantity has a known type. The list then holds the sum of the positive quantities, with the k-th container named by the k-th identifier drawn. |
| DynamoToEntityMapper.ExpandItemsMeaning | application/csharp/AWS.Prototyping.Pacman.Solver/src/AWS.Prototyping.Pacman.Solver/DataMappers/DynamoToEntityMapper.cs:94-103 | The same for the item lines. |
| DynamoToEntityMapper.ExpandContainersStuck | application/csharp/AWS.Prototyping.Pacman.Solver/src/AWS.Prototyping.Pacman.Solver/DataMappers/DynamoToEntityMapper.cs:126-132 | Once a line raises, the lines after it are not expanded. |
| DynamoToEntityMapper.ExpandItemsStuck | application/csharp/AWS.Prototyping.Pacman.Solver/src/AWS.Prototyping.Pacman.Solver/DataMappers/DynamoToEntityMapper.cs:96-101 | Once a line raises, the lines after it are not expanded. |
| DynamoToEntityMapper.CentreRoundTrip | application/csharp/AWS.Prototyping.Pacman.Solver/src/AWS.Prototyping.Pacman.Solver/DataMappers/DynamoToEntityMapper.cs:214-216 | The corner coordinates the solver wrote are recovered from the saved centre coordinates: X pairs with Length, Y with Height and Z with Width. |
| DynamoToEntityMapper.CentreInside | application/csharp/AWS.Prototyping.Pacman.Solver/src/AWS.Prototyping.Pacman.Solver/DataMappers/DynamoToEntityMapper.cs:214-216 | An item lying inside the container in corner coordinates lies inside the box centred on the origin in saved coordinates. |
| DynamoToEntityMapper.Typed | application/csharp/AWS.Prototyping.Pacman.Solver/src/AWS.Prototyping.Pacman.Solver/DataMappers/DynamoToEntityMapper.cs:210 | The filter keeps exactly the packed items whose ItemTypeId is not empty. |
| DynamoToEntityMapper.TypedCounts | application/csharp/AWS.Prototyping.Pacman.Solver/src/AWS.Prototyping.Pacman.Solver/DataMappers/DynamoToEntityMapper.cs:210 | The filter keeps every typed item as many times as it occurs, and drops every untyped one. |
| DynamoToEntityMapper.TypedAppend | application/csharp/AWS.Prototyping.Pacman.Solver/src/AWS.Prototyping.Pacman.Solver/DataMappers/DynamoToEntityMapper.cs:210 | The filter keeps the items' order: filtering a + b gives the filtered a followed by the filtered b. |
| DynamoToEntityMapper.PackingItemsForMeaning | application/csharp/AWS.Prototyping.Pacman.Solver/src/AWS.Prototyping.Pacman.Solver/DataMappers/DynamoToEntityMapper.cs:209-232 | One record is saved per packed item with a type, in order, with the translated coordinates and pack dimensions. Records are named by consecutive identifiers. |
| DynamoToEntityMapper.FindContainer | application/csharp/AWS.Prototyping.Pacman.Solver/src/AWS.Prototyping.Pacman.Solver/DataMappers/DynamoToEntityMapper.cs:187 | `Find` returns a container with the id, or null exactly when there is none. |
| DynamoToEntityMapper.FirstLine | application/csharp/AWS.Prototyping.Pacman.Solver/src/AWS.Prototyping.Pacman.Solver/DataMappers/DynamoToEntityMapper.cs:192 | `First` returns a manifest line of the type, or raises exactly when there is none. |
| DynamoToEntityMapper.FindContainerFirst | application/csharp/AWS.Prototyping.Pacman.Solver/src/AWS.Prototyping.Pacman.Solver/DataMappers/DynamoToEntityMapper.cs:187 | The container `Find` returns is the first one with the id: every container before it has another id. |
| DynamoToEntityMapper.FirstLineFirst | application/csharp/AWS.Prototyping.Pacman.Solver/src/AWS.Prototyping.Pacman.Solver/DataMappers/DynamoToEntityMapper.cs:192 | The line `First` returns is the first one of the type: every line before it has another type. Its cost is the one added to TotalCost, even when later lines of the type cost something else. |
| DynamoToEntityMapper.SaveResultFacts | application/csharp/AWS.Prototyping.Pacman.Solver/src/AWS.Prototyping.Pacman.Solver/DataMappers/DynamoToEntityMapper.cs:185-232 | One result raises exactly when its container is unknown, or is typed but has no manifest line or no algorithm result. Otherwise it adds the manifest price of the container and one packing container if typed. |
| DynamoToEntityMapper.SaveResultsMeaning | application/csharp/AWS.Prototyping.Pacman.Solver/src/AWS.Prototyping.Pacman.Solver/DataMappers/DynamoToEntityMapper.cs:183-233 | The loop gets through exactly when every result is saveable. TotalCost is then the sum, from 0, of the first manifest line's cost over the typed containers. The k-th packing container is saved for the k-th typed container result: it has that container's type, the `PercentContainerVolumePacked` of its first algorithm result and the manifest's id. Whether or not the loop gets through, the item records come in runs, one per packing container and in the same order; every record of a run carries that packing container's id, type and manifest id. |
| DynamoToEntityMapper.SaveResultsStuck | application/csharp/AWS.Prototyping.Pacman.Solver/src/AWS.Prototyping.Pacman.Solver/DataMappers/DynamoToEntityMapper.cs:185-233 | Once a result raises, the later results write nothing. |
| DynamoToEntityMapper.GroupIndex | application/csharp/AWS.Prototyping.Pacman.Solver/src/AWS.Prototyping.Pacman.Solver/DataMappers/DynamoToEntityMapper.cs:235 | Locates the group of a key, or finds that none has it. |
| DynamoToEntityMapper.GroupCountsMeaning | application/csharp/AWS.Prototyping.Pacman.Solver/src/AWS.Prototyping.Pacman.Solver/DataMappers/DynamoToEntityMapper.cs:235-240 | The grouping has one group per distinct ItemTypeId occurring, each counting that type's occurrences, with distinct keys. The counts add up to the number of unpacked items. The groups come in the order their keys first occur. |
| DynamoToEntityMapper.Mapper.constructor | application/csharp/AWS.Prototyping.Pacman.Solver/src/AWS.Prototyping.Pacman.Solver/DataMappers/DynamoToEntityMapper.cs:26-35 | A new mapper holds the tables given and empty shared lists, with no identifier drawn. |
| DynamoToEntityMapper.Mapper.NewGuid | application/csharp/AWS.Prototyping.Pacman.Solver/src/AWS.Prototyping.Pacman.Solver/DataMappers/DynamoToEntityMapper.cs:198 | Each new identifier is the next one from the oracle. |
| DynamoToEntityMapper.Mapper.ConvertContainers | application/csharp/AWS.Prototyping.Pacman.Solver/src/AWS.Prototyping.Pacman.Solver/DataMappers/DynamoToEntityMapper.cs:54-64 | convertContainers appends exactly the line's copies (none for quantity ≤ 0). It raises on a missing type only when the quantity is positive. |
| DynamoToEntityMapper.Mapper.ConvertPackages | application/csharp/AWS.Prototyping.Pacman.Solver/src/AWS.Prototyping.Pacman.Solver/DataMappers/DynamoToEntityMapper.cs:66-76 | convertPackages appends exactly the line's item copies, with the same rule for a missing type. |
| DynamoToEntityMapper.Mapper.GetContainersForManifest | application/csharp/AWS.Prototyping.Pacman.Solver/src/AWS.Prototyping.Pacman.Solver/DataMappers/DynamoToEntityMapper.cs:106-135 | A missing manifest or shipment raises before the list is touched. Otherwise the shared list is cleared and holds the expansion of the shipment's container lines. |
| DynamoToEntityMapper.Mapper.GetItemsForManifest | application/csharp/AWS.Prototyping.Pacman.Solver/src/AWS.Prototyping.Pacman.Solver/DataMappers/DynamoToEntityMapper.cs:78-104 | The same for the items. |
| DynamoToEntityMapper.Mapper.ExpandContainerLines | application/csharp/AWS.Prototyping.Pacman.Solver/src/AWS.Prototyping.Pacman.Solver/DataMappers/DynamoToEntityMapper.cs:124-132 | After clearing, the shared container list holds the expansion of the lines up to the first line whose type is missing, one identifier drawn per container, and the call reports whether every line got through. |
| DynamoToEntityMapper.Mapper.ExpandItemLines | application/csharp/AWS.Prototyping.Pacman.Solver/src/AWS.Prototyping.Pacman.Solver/DataMappers/DynamoToEntityMapper.cs:94-101 | The same for the item lines and the shared item list. |
| DynamoToEntityMapper.Mapper.GetManifestById | application/csharp/AWS.Prototyping.Pacman.Solver/src/AWS.Prototyping.Pacman.Solver/DataMappers/DynamoToEntityMapper.cs:137-147 | Returns the stored manifest, or raises "Manifest with ID … was not found.". |
| DynamoToEntityMapper.Mapper.SaveErrorManifest | application/csharp/AWS.Prototyping.Pacman.Solver/src/AWS.Prototyping.Pacman.Solver/DataMappers/DynamoToEntityMapper.cs:149-161 | Sets the manifest's status to "Error" and changes nothing else, or raises when it is missing. |
| DynamoToEntityMapper.Mapper.SavePackedItem | application/csharp/AWS.Prototyping.Pacman.Solver/src/AWS.Prototyping.Pacman.Solver/DataMappers/DynamoToEntityMapper.cs:210-229 | A packed item with a type adds one record with a new identifier; an untyped one adds nothing. |
| DynamoToEntityMapper.Mapper.SavePackedItems | application/csharp/AWS.Prototyping.Pacman.Solver/src/AWS.Prototyping.Pacman.Solver/DataMappers/DynamoToEntityMapper.cs:210-232 | The packed items of one algorithm result add exactly their records, in order. |
| DynamoToEntityMapper.Mapper.SaveResultItems | application/csharp/AWS.Prototyping.Pacman.Solver/src/AWS.Prototyping.Pacman.Solver/DataMappers/DynamoToEntityMapper.cs:209-232 | The algorithm results of one container add their records one result after the other. |
| DynamoToEntityMapper.Mapper.SaveTypedResult | application/csharp/AWS.Prototyping.Pacman.Solver/src/AWS.Prototyping.Pacman.Solver/DataMappers/DynamoToEntityMapper.cs:194-232 | A typed container result adds its cost and draws the packing container's identifier, then reads `[0]`. It saves the packing container and its items as the value-level step says. |
| DynamoToEntityMapper.Mapper.SaveContainerResult | application/csharp/AWS.Prototyping.Pacman.Solver/src/AWS.Prototyping.Pacman.Solver/DataMappers/DynamoToEntityMapper.cs:185-233 | One iteration of the SaveManifest loop writes what the value-level step writes and raises what it raises. |
| DynamoToEntityMapper.Mapper.SaveContainerResults | application/csharp/AWS.Prototyping.Pacman.Solver/src/AWS.Prototyping.Pacman.Solver/DataMappers/DynamoToEntityMapper.cs:183-233 | Starting from a total cost of 0, the records of every container result before the first exception are appended, and the total cost and the exception are those of the value-level fold. |
| DynamoToEntityMapper.Mapper.SaveManifest | application/csharp/AWS.Prototyping.Pacman.Solver/src/AWS.Prototyping.Pacman.Solver/DataMappers/DynamoToEntityMapper.cs:163-245 | A missing manifest raises and nothing is written. Otherwise the records of every result before the first exception are appended. Without an exception the manifest becomes "Complete", with empty record lists, the total cost and the per-type counts of the unpacked items. |
| ResourceTagsDetails.Slice | application/typescript/packages/@aws-prototype/website/src/components/ResourceTagsDetails/index.tsx:27 | Within the array, `slice(start, end)` is exactly the elements from start to end. An end past the array stops at its end. A range that is empty or starts past the end gives no elements. |
| ResourceTagsDetails.GetColumnsContent | application/typescript/packages/@aws-prototype/website/src/components/ResourceTagsDetails/index.tsx:23-31 | A column shows the tags of its slice, in order. For a column of the layout, that slice lies within the tags and is shown unclamped. As written, every element of the column has key `columnIndex-0`. |
| ResourceTagsDetails.GetColumnsContentKeyed | application/typescript/packages/@aws-prototype/website/src/components/ResourceTagsDetails/index.tsx:23-31 | With `tagIndex` counting the column's tags, the column shows the same tags and its keys are distinct. |
| ResourceTagsDetails.ColumnsCount | application/typescript/packages/@aws-prototype/website/src/components/ResourceTagsDetails/index.tsx:34-35 | There are as many columns as tags, but never more than three. |
| ResourceTagsDetails.Columns | application/typescript/packages/@aws-prototype/website/src/components/ResourceTagsDetails/index.tsx:33-45 | There is one column per index below the column count, and none when there are no tags. |
| ResourceTagsDetails.ColumnsContiguous | application/typescript/packages/@aws-prototype/website/src/components/ResourceTagsDetails/index.tsx:25-26 | Column 0 starts at 0 and each column starts where the previous one ends. |
| ResourceTagsDetails.ColumnsEndAtCount | application/typescript/packages/@aws-prototype/website/src/components/ResourceTagsDetails/index.tsx:34-37 | `mod` columns of avg+1 and the rest of avg add up to the number of tags. |
| ResourceTagsDetails.ColumnWithin | application/typescript/packages/@aws-prototype/website/src/components/ResourceTagsDetails/index.tsx:25-27 | Every column's slice lies within the tags, so `slice` never clamps. |
| ResourceTagsDetails.ColumnShowsSlice | application/typescript/packages/@aws-prototype/website/src/components/ResourceTagsDetails/index.tsx:25-27 | Each column shows exactly the tags from its start to its end, in order. |
| ResourceTagsDetails.ShownPrefix | application/typescript/packages/@aws-prototype/website/src/components/ResourceTagsDetails/index.tsx:41-44 | The first i columns, read in order, show exactly the tags before column i's start. |
| ResourceTagsDetails.ColumnsPartition | application/typescript/packages/@aws-prototype/website/src/components/ResourceTagsDetails/index.tsx:34-44 | Reading the columns one after the other gives back the tags: every tag is shown exactly once and in order. |
| ResourceTagsDetails.ColumnsBalanced | application/typescript/packages/@aws-prototype/website/src/components/ResourceTagsDetails/index.tsx:26-37 | The first `n % columns` columns hold floor(n / columns)+1 tags and the others floor(n / columns), so any two sizes differ by at most one. |
| ResourceTagsDetails.DuplicateKeysAsWritten | application/typescript/packages/@aws-prototype/website/src/components/ResourceTagsDetails/index.tsx:24-28 | As written, a column with two or more tags repeats its key. Four tags give a first column of two tags, both keyed `0-0`. |
| ResourceTagsDetails.KeysDistinctKeyed | application/typescript/packages/@aws-prototype/website/src/components/ResourceTagsDetails/index.tsx:24-28 | With `tagIndex` counting, the keys within each column are distinct. |
| ManifestUpdateProcessor.Property | application/typescript/packages/@aws-prototype/subscription/src/SubscriptionProcessor/ManifestUpdateProcessor.ts:26 | `payload?.id` is a defined value only when the payload is an object that has the property. |
| ManifestUpdateProcessor.TopicById | application/typescript/packages/@aws-prototype/subscription/src/SubscriptionProcessor/ManifestUpdateProcessor.ts:17-22 | The topic is the id followed by `_ManifestUpdate`. |
| ManifestUpdateProcessor.TopicByIdInjective | application/typescript/packages/@aws-prototype/subscription/src/SubscriptionProcessor/ManifestUpdateProcessor.ts:20-22 | Different ids give different topics. |
| ManifestUpdateProcessor.ToSubscribe | application/typescript/packages/@aws-prototype/subscription/src/SubscriptionProcessor/ManifestUpdateProcessor.ts:25-27 | The result is truthy exactly when the type is "ManifestUpdate" and the payload has a truthy id, and it is then that id. |
| ManifestUpdateProcessor.GetTopic | application/typescript/packages/@aws-prototype/subscription/src/SubscriptionProcessor/ManifestUpdateProcessor.ts:29-31 | getTopic raises a TypeError exactly when the payload is null or undefined. A string id gives that id's topic, and a payload without an id gives the topic of the text "undefined". |
| ManifestUpdateProcessor.ToProcess | application/typescript/packages/@aws-prototype/subscription/src/SubscriptionProcessor/ManifestUpdateProcessor.ts:33-39 | True exactly when the source is "aws:dynamodb", the event name is "MODIFY" and the source ARN starts with the table ARN. An unset ARN is matched as the text "undefined". A missing source ARN raises once the first two conditions hold. |
| ManifestUpdateProcessor.Process | application/typescript/packages/@aws-prototype/subscription/src/SubscriptionProcessor/ManifestUpdateProcessor.ts:41-52 | There is a message exactly when the record has a new image. The message has type "ManifestUpdate" and the image as data. Its topic is the one getTopic gives a subscriber whose payload id is the image's `Id`, and for a string `Id` it is that id's topic. |
| ManifestUpdateProcessor.TopicsAgree | application/typescript/packages/@aws-prototype/subscription/src/SubscriptionProcessor/ManifestUpdateProcessor.ts:29-45 | A subscriber whose payload id equals a processed image's `Id` listens on that message's topic. For string ids, it is the only such subscriber. |

## Left out

- The EB-AFIT placement algorithm is not part of this model. `Run` is a parameter that returns placements, the items left out and the elapsed time. No orientation, overlap, feature or weight rule is modelled.
- `Permute()` is not part of this model: the orderings come from a parameter `permute`.
- The environment variables are not read. The threshold is a parameter of `ExecutePack`, and `NoImprovePermutations` models the parse with the outcome of `int.TryParse` given as an `Option<int>`. An unset MANIFEST_TABLE_ARN is `None`.
- Concurrency (`Parallel.ForEach`, the `lock` blocks) is modelled sequentially, with the algorithms run in request order before the sort by name. An "Invalid algorithm type." raised inside the two `Parallel.ForEach` loops of Pack reaches the caller wrapped in an `AggregateException`; the model raises the inner message. Only the logged message differs: an `AggregateException` is not an `OperationCanceledException`, so the search loop rethrows it as it rethrows the inner one, and ExecutePack's outer catch marks the manifest "Error" either way.
- PackingService.PackManifest: the cancellation token is a function from container position to "cancellation requested". ExecutePack calls `cts.Cancel()` only right before `break`, so every pack it starts sees an uncancelled token. A Run that observes cancellation and throws `OperationCanceledException` is not modelled.
- PackingService.Percent: `Math.Round(…, 2)` and double precision are not modelled. Volumes, percentages, coordinates, costs and TotalCost are reals, summed exactly, and a division by zero gives a non-finite value (NaN or infinity).
- The `Stopwatch` reading is the run's `elapsedMs`. The compute-time log in ExecutePack is not modelled.
- X-Ray segments and `Console.WriteLine` are not modelled. The one exception is the `[0]` access of `PrintPackingResult` in ExecutePack, modelled as a check proved never to fail.
- DynamoDB tables are maps. Loads are map lookups, and saves are map updates or appends to a record sequence. The `UpdatedAt` timestamp is not modelled.
- The manifests table is keyed by each manifest's own id; ExecutePack requires this of the table it is given.
- The static `Containers` and `Items` lists are fields of the `Mapper`, shared by every call on it.
- DataModel DTO classes (Manifest.cs, Shipment.cs and the type records) are not part of this model. Their fields that the mapper reads appear in the model's datatypes; a null string is the empty string, and a null list is the empty list.
- ManifestUpdateProcessor.Process: `DynamoDB.Converter.unmarshall` is not modelled. The new image is already an object. JavaScript numbers are integers, and arrays are not among the modelled values.
- ResourceTagsDetails.Slice: negative bounds are not modelled, since the panel never passes one. React rendering is reduced to the list of elements with their key, label and value.
- LexLeTotal: the model orders algorithm names ordinally, while `OrderBy(r => r.AlgorithmName)` uses the culture-sensitive `Comparer<string>.Default`, under which "a" sorts before "B". The culture's collation tables are outside the model. No output changes: EB-AFIT is the only algorithm, so all names in a container result are equal and every stable sort leaves the list as it is.
- LexLeTransitive: states transitivity of the ordinal order that stands in for the culture-sensitive default comparer, for the reason given for LexLeTotal.
- SortOrder: sorts by the ordinal order instead of the culture-sensitive default comparer, for the reason given for LexLeTotal.
- OrderByAlgorithmName: reorders by the ordinal order instead of the culture-sensitive default comparer, for the reason given for LexLeTotal.
- The `PackingResult` class is a datatype holding the container results and the unpacked items. Its empty constructor is not used and is not modelled.

Where the documented behaviour and the code differ, the model follows the code:

- ExecutePack packs up to threshold + 2 orderings when no ordering improves on the first: the counter must exceed the threshold before the loop stops (PackingService.SearchAsWritten).
- When the items offered to a container have total volume 0, the item percentage is NaN, not 100%.
- If SaveManifest raises part-way, the packing-container and packing-item records written before the exception stay in their tables while the manifest is marked "Error".

## Findings

| source | as written | input that shows it | evidently intended | confidence | as-written member | corrected member |
|---|---|---|---|---|---|---|
| application/csharp/AWS.Prototyping.Pacman.Solver/src/AWS.Prototyping.Pacman.Solver/PackingService.cs:104-110 | Both cost sums are taken over the candidate's containers, so `costOfOptimalResult > costOfPackedContainers` never holds and the first ordering's packing is always kept. | Containers A (cost 2) and B (cost 1); the best packing uses A and a later candidate uses only B. | The best's cost is summed over the best's own containers, so the cheaper candidate replaces it. | not executed | PackingService.CostComparisonCounterexample | PackingService.SearchKeepsCheapest |
| application/typescript/packages/@aws-prototype/website/src/components/ResourceTagsDetails/index.tsx:24-28 | `tagIndex` is never incremented, so every element of a column gets the key `columnIndex-0`. | Four tags: the first column holds two tags, both keyed `0-0`. | `tagIndex` counts the column's tags, so the keys are `columnIndex-k` and distinct. | not executed | ResourceTagsDetails.DuplicateKeysAsWritten | ResourceTagsDetails.KeysDistinctKeyed |
