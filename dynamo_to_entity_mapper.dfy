/**
 * The persistence boundary of the solver. Quantity lines of a shipment are expanded into individual
 * containers and items. A packing result is written back as packing-container and packing-item records,
 * a total cost and a per-type count of the items left unpacked. The DynamoDB tables are values held by
 * the mapper. `Guid.NewGuid` is an oracle indexed by how many identifiers were drawn before.
 */
module DynamoToEntityMapper {
  import opened Wrappers
  import opened Entities

  // The records the mapper reads and writes, reduced to the fields the mapper uses.

  datatype Dimension = Dimension(length: real, width: real, height: real)

  datatype ContainerType = ContainerType(
    id: string, dimension: Dimension, maxWeight: real, features: Option<seq<string>>)

  datatype ItemType = ItemType(id: string, dimension: Dimension, requiredFeatures: seq<string>, weight: real)

  /** A shipment line asking for `quantity` containers of one type, at a cost per container. */
  datatype ShipmentContainer = ShipmentContainer(containerTypeId: string, quantity: int, cost: real)

  /** A shipment line asking for `quantity` items of one type. */
  datatype ShipmentItem = ShipmentItem(itemTypeId: string, quantity: int)

  datatype Shipment = Shipment(id: string, containers: seq<ShipmentContainer>, items: seq<ShipmentItem>)

  datatype UnpackedItem = UnpackedItem(itemTypeId: string, quantity: int)

  datatype PackingContainer = PackingContainer(
    id: string, containerTypeId: string, packedPercent: Double, manifestId: string)

  datatype PackingItem = PackingItem(
    id: string, containerTypeId: string, coordinates: Point, itemTypeId: string,
    packingContainerId: string, packingDimension: Dimension, manifestId: string)

  datatype Manifest = Manifest(
    id: string, status: string, shipmentId: string, containers: seq<ShipmentContainer>,
    packingContainers: seq<PackingContainer>, packingItems: seq<PackingItem>,
    totalCost: real, unpackedItems: seq<UnpackedItem>)

  /** The tables the mapper only reads, by key. */
  datatype Catalog = Catalog(
    shipments: map<string, Shipment>, containerTypes: map<string, ContainerType>, itemTypes: map<string, ItemType>)

  /** `LoadAsync`: the record stored under `key`, or null. */
  function Load<V>(table: map<string, V>, key: string): (r: Option<V>)
    ensures r.Some? <==> key in table
    ensures r.Some? ==> r.value == table[key]
  {
    if key in table then Some(table[key]) else None
  }

  function ManifestNotFound(id: string): string {
    "Manifest with ID " + id + " was not found."
  }

  function ShipmentNotFound(id: string): string {
    "Shipment with ID " + id + " was not found."
  }

  // ---------------------------------------------------------------------------------------------------------
  // Expansion of quantity lines
  // ---------------------------------------------------------------------------------------------------------

  /** The number of times `for (var i = 0; i < quantity; i++)` runs. */
  function Copies(quantity: int): nat {
    if quantity <= 0 then 0 else quantity
  }

  /**
   * The containers one shipment line expands to. The k-th copy is named by identifier `first + k`. The type's
   * (Length, Height, Width) are passed to the (length, width, height) parameters of the Container constructor.
   */
  function ContainerCopies(t: ContainerType, line: ShipmentContainer, guid: nat -> string, first: nat)
    : (r: seq<Container>)
    ensures |r| == Copies(line.quantity)
  {
    seq(Copies(line.quantity), k requires 0 <= k < Copies(line.quantity) =>
      NewContainer(guid(first + k), t.dimension.length, t.dimension.height, t.dimension.width,
                   t.id, line.cost, t.maxWeight).(features := t.features))
  }

  /** The constructor arguments of the items one shipment line expands to, with the same dimension order. */
  function ItemCopies(t: ItemType, line: ShipmentItem, guid: nat -> string, first: nat): (r: seq<ItemSpec>)
    ensures |r| == Copies(line.quantity)
  {
    seq(Copies(line.quantity), k requires 0 <= k < Copies(line.quantity) =>
      ItemSpec(guid(first + k), t.dimension.length, t.dimension.height, t.dimension.width, 1,
               t.id, t.requiredFeatures, t.weight))
  }

  /** Each expanded container: its identifier, the swapped sides, the type's fields and the line's cost. */
  lemma ContainerCopiesFacts(t: ContainerType, line: ShipmentContainer, guid: nat -> string, first: nat, k: nat)
    requires k < Copies(line.quantity)
    ensures var c := ContainerCopies(t, line, guid, first)[k];
      && c.id == guid(first + k)
      && c.length == t.dimension.length && c.width == t.dimension.height && c.height == t.dimension.width
      && c.volume == t.dimension.length * t.dimension.width * t.dimension.height
      && c.containerTypeId == t.id && c.maxWeight == t.maxWeight && c.features == t.features
      && c.cost == line.cost
  {
    var l, w, h := t.dimension.length, t.dimension.width, t.dimension.height;
    var built := NewContainer(guid(first + k), l, h, w, t.id, line.cost, t.maxWeight);
    assert ContainerCopies(t, line, guid, first)[k] == built.(features := t.features);
    assert built.volume == l * h * w;
    assert l * h * w == l * (h * w) == l * (w * h);
  }

  /** Each expanded item: its identifier, quantity 1, and the type's identifier, features and weight. */
  lemma ItemCopiesFacts(t: ItemType, line: ShipmentItem, guid: nat -> string, first: nat, k: nat)
    requires k < Copies(line.quantity)
    ensures var s := ItemCopies(t, line, guid, first)[k];
      && s.id == guid(first + k) && s.quantity == 1
      && s.dim1 == t.dimension.length && s.dim2 == t.dimension.height && s.dim3 == t.dimension.width
      && s.itemTypeId == t.id && s.requiredFeatures == t.requiredFeatures && s.weight == t.weight
      && NewItemValue(s).volume == t.dimension.length * t.dimension.width * t.dimension.height
  {
    var l, w, h := t.dimension.length, t.dimension.width, t.dimension.height;
    assert ItemCopies(t, line, guid, first)[k]
        == ItemSpec(guid(first + k), l, h, w, 1, t.id, t.requiredFeatures, t.weight);
    assert l * h * w == l * (h * w) == l * (w * h);
  }

  /** What expanding a list of lines leaves in the shared list, and whether it got through every line. */
  datatype Expansion<T> = Expansion(built: seq<T>, complete: bool)

  /**
   * The containers the lines expand to, in line order. A line whose type is missing dereferences null, but
   * only once its loop body runs: a missing type on a line of quantity 0 or less goes unnoticed.
   */
  function ExpandContainers(types: map<string, ContainerType>, lines: seq<ShipmentContainer>,
                            guid: nat -> string, first: nat): Expansion<Container>
    decreases |lines|
  {
    if lines == [] then
      Expansion([], true)
    else
      var e := ExpandContainers(types, lines[..|lines| - 1], guid, first);
      var line := lines[|lines| - 1];
      if !e.complete || line.quantity <= 0 then e
      else if line.containerTypeId !in types then Expansion(e.built, false)
      else Expansion(e.built + ContainerCopies(types[line.containerTypeId], line, guid, first + |e.built|), true)
  }

  /** The same for item lines, as constructor arguments. */
  function ExpandItems(types: map<string, ItemType>, lines: seq<ShipmentItem>, guid: nat -> string, first: nat)
    : Expansion<ItemSpec>
    decreases |lines|
  {
    if lines == [] then
      Expansion([], true)
    else
      var e := ExpandItems(types, lines[..|lines| - 1], guid, first);
      var line := lines[|lines| - 1];
      if !e.complete || line.quantity <= 0 then e
      else if line.itemTypeId !in types then Expansion(e.built, false)
      else Expansion(e.built + ItemCopies(types[line.itemTypeId], line, guid, first + |e.built|), true)
  }

  /** The sum of the line quantities, counting a negative quantity as 0. */
  function TotalContainers(lines: seq<ShipmentContainer>): nat {
    if lines == [] then 0 else TotalContainers(lines[..|lines| - 1]) + Copies(lines[|lines| - 1].quantity)
  }

  function TotalItems(lines: seq<ShipmentItem>): nat {
    if lines == [] then 0 else TotalItems(lines[..|lines| - 1]) + Copies(lines[|lines| - 1].quantity)
  }

  /** Every line that asks for at least one container names a type the table holds. */
  ghost predicate ContainerTypesKnown(types: map<string, ContainerType>, lines: seq<ShipmentContainer>) {
    forall i :: 0 <= i < |lines| && lines[i].quantity > 0 ==> lines[i].containerTypeId in types
  }

  ghost predicate ItemTypesKnown(types: map<string, ItemType>, lines: seq<ShipmentItem>) {
    forall i :: 0 <= i < |lines| && lines[i].quantity > 0 ==> lines[i].itemTypeId in types
  }

  /**
   * The expansion gets through every line exactly when each line asking for containers names a known type.
   * It then holds one container per unit of quantity, and the k-th container has the k-th identifier drawn.
   */
  lemma {:induction false} ExpandContainersMeaning(types: map<string, ContainerType>,
                                                  lines: seq<ShipmentContainer>, guid: nat -> string, first: nat)
    ensures var e := ExpandContainers(types, lines, guid, first);
      && (e.complete <==> ContainerTypesKnown(types, lines))
      && (e.complete ==> |e.built| == TotalContainers(lines))
      && (forall k :: 0 <= k < |e.built| ==> e.built[k].id == guid(first + k))
    decreases |lines|
  {
    if lines != [] {
      var front := lines[..|lines| - 1];
      var line := lines[|lines| - 1];
      ExpandContainersMeaning(types, front, guid, first);
      var e := ExpandContainers(types, front, guid, first);
      assert forall i :: 0 <= i < |front| ==> front[i] == lines[i];
      if e.complete && line.quantity > 0 && line.containerTypeId in types {
        var copies := ContainerCopies(types[line.containerTypeId], line, guid, first + |e.built|);
        forall k | |e.built| <= k < |e.built| + |copies|
          ensures (e.built + copies)[k].id == guid(first + k)
        {
          ContainerCopiesFacts(types[line.containerTypeId], line, guid, first + |e.built|, k - |e.built|);
        }
      }
    }
  }

  lemma {:induction false} ExpandItemsMeaning(types: map<string, ItemType>, lines: seq<ShipmentItem>,
                                             guid: nat -> string, first: nat)
    ensures var e := ExpandItems(types, lines, guid, first);
      && (e.complete <==> ItemTypesKnown(types, lines))
      && (e.complete ==> |e.built| == TotalItems(lines))
      && (forall k :: 0 <= k < |e.built| ==> e.built[k].id == guid(first + k) && e.built[k].quantity == 1)
    decreases |lines|
  {
    if lines != [] {
      var front := lines[..|lines| - 1];
      var line := lines[|lines| - 1];
      ExpandItemsMeaning(types, front, guid, first);
      var e := ExpandItems(types, front, guid, first);
      assert forall i :: 0 <= i < |front| ==> front[i] == lines[i];
      if e.complete && line.quantity > 0 && line.itemTypeId in types {
        var copies := ItemCopies(types[line.itemTypeId], line, guid, first + |e.built|);
        forall k | |e.built| <= k < |e.built| + |copies|
          ensures (e.built + copies)[k].id == guid(first + k) && (e.built + copies)[k].quantity == 1
        {
          ItemCopiesFacts(types[line.itemTypeId], line, guid, first + |e.built|, k - |e.built|);
        }
      }
    }
  }

  /** Once a line has raised, the later lines change nothing. */
  lemma {:induction false} ExpandContainersStuck(types: map<string, ContainerType>, lines: seq<ShipmentContainer>,
                                                j: nat, guid: nat -> string, first: nat)
    requires j <= |lines| && !ExpandContainers(types, lines[..j], guid, first).complete
    ensures ExpandContainers(types, lines, guid, first) == ExpandContainers(types, lines[..j], guid, first)
    decreases |lines| - j
  {
    if j < |lines| {
      assert lines[..j + 1][..j] == lines[..j];
      ExpandContainersStuck(types, lines, j + 1, guid, first);
    } else {
      assert lines[..j] == lines;
    }
  }

  lemma {:induction false} ExpandItemsStuck(types: map<string, ItemType>, lines: seq<ShipmentItem>,
                                           j: nat, guid: nat -> string, first: nat)
    requires j <= |lines| && !ExpandItems(types, lines[..j], guid, first).complete
    ensures ExpandItems(types, lines, guid, first) == ExpandItems(types, lines[..j], guid, first)
    decreases |lines| - j
  {
    if j < |lines| {
      assert lines[..j + 1][..j] == lines[..j];
      ExpandItemsStuck(types, lines, j + 1, guid, first);
    } else {
      assert lines[..j] == lines;
    }
  }

  /**
   * What GetContainersForManifest does with the tables: the manifest and its shipment must exist, then the
   * shipment's container lines are expanded.
   */
  function ContainersForManifest(manifests: map<string, Manifest>, catalog: Catalog, manifestId: string,
                                 guid: nat -> string, first: nat): Result<Expansion<Container>, string>
  {
    if manifestId !in manifests then Failure(ManifestNotFound(manifestId))
    else
      var shipmentId := manifests[manifestId].shipmentId;
      if shipmentId !in catalog.shipments then Failure(ShipmentNotFound(shipmentId))
      else Success(ExpandContainers(catalog.containerTypes, catalog.shipments[shipmentId].containers, guid, first))
  }

  /** What GetItemsForManifest does with the tables, for the shipment's item lines. */
  function ItemsForManifest(manifests: map<string, Manifest>, catalog: Catalog, manifestId: string,
                            guid: nat -> string, first: nat): Result<Expansion<ItemSpec>, string>
  {
    if manifestId !in manifests then Failure(ManifestNotFound(manifestId))
    else
      var shipmentId := manifests[manifestId].shipmentId;
      if shipmentId !in catalog.shipments then Failure(ShipmentNotFound(shipmentId))
      else Success(ExpandItems(catalog.itemTypes, catalog.shipments[shipmentId].items, guid, first))
  }

  // ---------------------------------------------------------------------------------------------------------
  // Translation of a packing result
  // ---------------------------------------------------------------------------------------------------------

  /**
   * Where a packed item's centre lies when the origin is the container's centre. The solver places items by
   * their corner, with the origin at a corner of the container. X pairs with Length, Y with Height and Z
   * with Width.
   */
  function Centre(c: Container, item: ItemValue): Point {
    Point(c.length / 2.0 * -1.0 + item.coord.x + item.packDim.x / 2.0,
          c.height / 2.0 * -1.0 + item.coord.y + item.packDim.y / 2.0,
          c.width / 2.0 * -1.0 + item.coord.z + item.packDim.z / 2.0)
  }

  /** The corner the solver wrote is recovered from the saved centre. */
  lemma CentreRoundTrip(c: Container, item: ItemValue)
    ensures Centre(c, item).x + c.length / 2.0 - item.packDim.x / 2.0 == item.coord.x
    ensures Centre(c, item).y + c.height / 2.0 - item.packDim.y / 2.0 == item.coord.y
    ensures Centre(c, item).z + c.width / 2.0 - item.packDim.z / 2.0 == item.coord.z
  {
  }

  /** An item lying inside the container in corner coordinates lies inside it in centre coordinates. */
  lemma CentreInside(c: Container, item: ItemValue)
    requires 0.0 <= item.coord.x && item.coord.x + item.packDim.x <= c.length
    requires 0.0 <= item.coord.y && item.coord.y + item.packDim.y <= c.height
    requires 0.0 <= item.coord.z && item.coord.z + item.packDim.z <= c.width
    ensures var p := Centre(c, item);
      && -c.length / 2.0 <= p.x - item.packDim.x / 2.0 && p.x + item.packDim.x / 2.0 <= c.length / 2.0
      && -c.height / 2.0 <= p.y - item.packDim.y / 2.0 && p.y + item.packDim.y / 2.0 <= c.height / 2.0
      && -c.width / 2.0 <= p.z - item.packDim.z / 2.0 && p.z + item.packDim.z / 2.0 <= c.width / 2.0
  {
  }

  /** The record saved for one packed item. */
  function NewPackingItem(c: Container, packingContainerId: string, manifestId: string, item: ItemValue,
                          id: string): PackingItem
  {
    PackingItem(id, c.containerTypeId, Centre(c, item), item.spec.itemTypeId, packingContainerId,
                Dimension(length := item.packDim.x, width := item.packDim.z, height := item.packDim.y), manifestId)
  }

  /** `Where(a => !string.IsNullOrEmpty(a.ItemTypeId))`: the items that have a type, in order. */
  function Typed(items: seq<ItemValue>): (r: seq<ItemValue>)
    ensures |r| <= |items|
    ensures forall x :: x in r <==> x in items && x.spec.itemTypeId != ""
  {
    if items == [] then []
    else
      var front := Typed(items[..|items| - 1]);
      var last := items[|items| - 1];
      assert items == items[..|items| - 1] + [last];
      if last.spec.itemTypeId == "" then front else front + [last]
  }

  /** The filter keeps every typed item as often as it occurs, and no other. */
  lemma {:induction false} TypedCounts(items: seq<ItemValue>)
    ensures forall x :: multiset(Typed(items))[x] == if x.spec.itemTypeId != "" then multiset(items)[x] else 0
    decreases |items|
  {
    if items != [] {
      var front, last := items[..|items| - 1], items[|items| - 1];
      TypedCounts(front);
      assert items == front + [last];
      assert multiset(items) == multiset(front) + multiset{last};
    }
  }

  /** The filter keeps the order of the items: filtering a list piece by piece gives the filtered list. */
  lemma {:induction false} TypedAppend(a: seq<ItemValue>, b: seq<ItemValue>)
    ensures Typed(a + b) == Typed(a) + Typed(b)
    decreases |b|
  {
    if b != [] {
      var front, last := b[..|b| - 1], b[|b| - 1];
      assert (a + b)[..|a + b| - 1] == a + front;
      TypedAppend(a, front);
    } else {
      assert a + b == a;
    }
  }

  /** The records saved for the packed items of one algorithm result, named by consecutive identifiers. */
  function PackingItemsFor(c: Container, packingContainerId: string, manifestId: string,
                           packed: seq<ItemValue>, guid: nat -> string, first: nat): seq<PackingItem>
    decreases |packed|
  {
    if packed == [] then []
    else
      var front := PackingItemsFor(c, packingContainerId, manifestId, packed[..|packed| - 1], guid, first);
      var item := packed[|packed| - 1];
      if item.spec.itemTypeId == "" then front
      else front + [NewPackingItem(c, packingContainerId, manifestId, item, guid(first + |front|))]
  }

  /** PackingItemsFor on a list whose last item is typed: the records for the others, then one for the last. */
  lemma PackingItemsForLast(c: Container, packingContainerId: string, manifestId: string,
                            packed: seq<ItemValue>, guid: nat -> string, first: nat)
    requires packed != [] && packed[|packed| - 1].spec.itemTypeId != ""
    ensures var saved := PackingItemsFor(c, packingContainerId, manifestId, packed[..|packed| - 1], guid, first);
      PackingItemsFor(c, packingContainerId, manifestId, packed, guid, first)
        == saved + [NewPackingItem(c, packingContainerId, manifestId, packed[|packed| - 1], guid(first + |saved|))]
  {
  }

  /** PackingItemsFor on a list whose last item has no type: the records for the others. */
  lemma PackingItemsForSkip(c: Container, packingContainerId: string, manifestId: string,
                            packed: seq<ItemValue>, guid: nat -> string, first: nat)
    requires packed != [] && packed[|packed| - 1].spec.itemTypeId == ""
    ensures PackingItemsFor(c, packingContainerId, manifestId, packed, guid, first)
         == PackingItemsFor(c, packingContainerId, manifestId, packed[..|packed| - 1], guid, first)
  {
  }

  /** The k-th record saved is for the k-th packed item that has a type, and is named by identifier first + k. */
  lemma {:induction false} PackingItemsForMeaning(c: Container, packingContainerId: string, manifestId: string,
                                                 packed: seq<ItemValue>, guid: nat -> string, first: nat)
    ensures var r := PackingItemsFor(c, packingContainerId, manifestId, packed, guid, first);
      && |r| == |Typed(packed)|
      && forall k :: 0 <= k < |r| ==>
           r[k] == NewPackingItem(c, packingContainerId, manifestId, Typed(packed)[k], guid(first + k))
    decreases |packed|
  {
    if packed != [] {
      var front, last := packed[..|packed| - 1], packed[|packed| - 1];
      PackingItemsForMeaning(c, packingContainerId, manifestId, front, guid, first);
      var saved := PackingItemsFor(c, packingContainerId, manifestId, front, guid, first);
      if last.spec.itemTypeId != "" {
        PackingItemsForLast(c, packingContainerId, manifestId, packed, guid, first);
        var typed := Typed(packed);
        assert typed == Typed(front) + [last];
        RecordsExtend(c, packingContainerId, manifestId, saved, Typed(front), last, guid, first);
        var r := PackingItemsFor(c, packingContainerId, manifestId, packed, guid, first);
        assert r == saved + [NewPackingItem(c, packingContainerId, manifestId, last, guid(first + |saved|))];
        assert |r| == |typed|;
      } else {
        PackingItemsForSkip(c, packingContainerId, manifestId, packed, guid, first);
        assert Typed(packed) == Typed(front);
      }
    }
  }

  /** One more typed item adds its record, named by the next identifier, after the records before it. */
  lemma RecordsExtend(c: Container, packingContainerId: string, manifestId: string, saved: seq<PackingItem>,
                      typed: seq<ItemValue>, last: ItemValue, guid: nat -> string, first: nat)
    requires |saved| == |typed|
    requires forall k :: 0 <= k < |saved| ==>
      saved[k] == NewPackingItem(c, packingContainerId, manifestId, typed[k], guid(first + k))
    ensures var r := saved + [NewPackingItem(c, packingContainerId, manifestId, last, guid(first + |saved|))];
      forall k :: 0 <= k < |r| ==>
        r[k] == NewPackingItem(c, packingContainerId, manifestId, (typed + [last])[k], guid(first + k))
  {
    var r := saved + [NewPackingItem(c, packingContainerId, manifestId, last, guid(first + |saved|))];
    forall k | 0 <= k < |r|
      ensures r[k] == NewPackingItem(c, packingContainerId, manifestId, (typed + [last])[k], guid(first + k))
    {
      if k < |saved| {
        assert r[k] == saved[k] && (typed + [last])[k] == typed[k];
      }
    }
  }

  /** The records saved for the first `n` algorithm results of one container, one result after the other. */
  function ResultItems(c: Container, packingContainerId: string, manifestId: string,
                       aprs: seq<AlgorithmResult>, n: nat, guid: nat -> string, first: nat): seq<PackingItem>
    requires n <= |aprs|
    decreases n
  {
    if n == 0 then []
    else
      var front := ResultItems(c, packingContainerId, manifestId, aprs, n - 1, guid, first);
      front + PackingItemsFor(c, packingContainerId, manifestId, aprs[n - 1].packedItems, guid, first + |front|)
  }

  lemma AppendAssociative<T>(a: seq<T>, b: seq<T>, c: seq<T>)
    ensures a + b + c == a + (b + c)
  {
  }

  /** `List<Container>.Find`: the first container with the identifier, or null. */
  function FindContainer(containers: seq<Container>, id: string): (r: Option<Container>)
    ensures r.Some? ==> r.value in containers && r.value.id == id
    ensures r.None? <==> forall k :: 0 <= k < |containers| ==> containers[k].id != id
  {
    if containers == [] then None
    else if containers[0].id == id then Some(containers[0])
    else FindContainer(containers[1..], id)
  }

  /** Find returns the first container with the identifier: every container before it has another one. */
  lemma {:induction false} FindContainerFirst(containers: seq<Container>, id: string)
    ensures var r := FindContainer(containers, id);
      r.Some? ==> exists k :: 0 <= k < |containers| && containers[k] == r.value &&
                               forall j :: 0 <= j < k ==> containers[j].id != id
    decreases |containers|
  {
    if containers != [] && containers[0].id != id {
      var r := FindContainer(containers[1..], id);
      FindContainerFirst(containers[1..], id);
      if r.Some? {
        var k :| 0 <= k < |containers[1..]| && containers[1..][k] == r.value &&
                 forall j :: 0 <= j < k ==> containers[1..][j].id != id;
        assert forall j :: 0 < j < k + 1 ==> containers[j] == containers[1..][j - 1];
        assert containers[k + 1] == r.value;
      }
    } else if containers != [] {
      assert containers[0] == FindContainer(containers, id).value;
    }
  }

  /** `First(a => a.ContainerTypeId == type)`: the first manifest line of the type, or none. */
  function FirstLine(lines: seq<ShipmentContainer>, containerTypeId: string): (r: Option<ShipmentContainer>)
    ensures r.Some? ==> r.value in lines && r.value.containerTypeId == containerTypeId
    ensures r.None? <==> forall k :: 0 <= k < |lines| ==> lines[k].containerTypeId != containerTypeId
  {
    if lines == [] then None
    else if lines[0].containerTypeId == containerTypeId then Some(lines[0])
    else FirstLine(lines[1..], containerTypeId)
  }

  /**
   * First returns the first line of the type: every line before it has another type. Lines of one type can
   * differ in cost, so the price of a container is the cost on this line.
   */
  lemma {:induction false} FirstLineFirst(lines: seq<ShipmentContainer>, containerTypeId: string)
    ensures var r := FirstLine(lines, containerTypeId);
      r.Some? ==> exists k :: 0 <= k < |lines| && lines[k] == r.value &&
                              forall j :: 0 <= j < k ==> lines[j].containerTypeId != containerTypeId
    decreases |lines|
  {
    if lines != [] && lines[0].containerTypeId != containerTypeId {
      var r := FirstLine(lines[1..], containerTypeId);
      FirstLineFirst(lines[1..], containerTypeId);
      if r.Some? {
        var k :| 0 <= k < |lines[1..]| && lines[1..][k] == r.value &&
                 forall j :: 0 <= j < k ==> lines[1..][j].containerTypeId != containerTypeId;
        assert forall j :: 0 < j < k + 1 ==> lines[j] == lines[1..][j - 1];
        assert lines[k + 1] == r.value;
      }
    } else if lines != [] {
      assert lines[0] == FirstLine(lines, containerTypeId).value;
    }
  }

  /**
   * What SaveManifest has written so far: the records appended to the two tables, the running total cost,
   * how many identifiers were drawn, and the exception that stopped it, if one did.
   */
  datatype Writes = Writes(
    packingContainers: seq<PackingContainer>, packingItems: seq<PackingItem>, totalCost: real,
    drawn: nat, error: Option<string>)

  /** One iteration of the loop over the container results. */
  function SaveResult(m: Manifest, containers: seq<Container>, r: ContainerResult, guid: nat -> string,
                      w: Writes): Writes
  {
    match FindContainer(containers, r.containerId)
    case None => w.(error := Some(NULL_REFERENCE))
    case Some(c) =>
      if c.containerTypeId == "" then w
      else
        match FirstLine(m.containers, c.containerTypeId)
        case None => w.(error := Some(NO_MATCHING_ELEMENT))
        case Some(line) => SaveTyped(m, c, line, r, guid, w)
  }

  /**
   * A typed container result priced by `line`: the cost is added and an identifier drawn for the packing
   * container before its first algorithm result is read, then the packing container and its items are written.
   */
  function SaveTyped(m: Manifest, c: Container, line: ShipmentContainer, r: ContainerResult, guid: nat -> string,
                     w: Writes): Writes
  {
    var cost := w.totalCost + line.cost;
    if r.algorithmPackingResults == [] then
      w.(totalCost := cost, drawn := w.drawn + 1, error := Some(INDEX_OUT_OF_RANGE))
    else
      var pc := PackingContainer(guid(w.drawn), c.containerTypeId,
                                 r.algorithmPackingResults[0].percentContainerVolumePacked, m.id);
      var items := ResultItems(c, pc.id, m.id, r.algorithmPackingResults, |r.algorithmPackingResults|, guid,
                               w.drawn + 1);
      Writes(w.packingContainers + [pc], w.packingItems + items, cost, w.drawn + 1 + |items|, w.error)
  }

  /** The loop over the container results, stopping at the first exception. */
  function SaveResults(m: Manifest, containers: seq<Container>, rs: seq<ContainerResult>, guid: nat -> string,
                       start: Writes): Writes
    decreases |rs|
  {
    if rs == [] then start
    else
      var w := SaveResults(m, containers, rs[..|rs| - 1], guid, start);
      if w.error.Some? then w else SaveResult(m, containers, rs[|rs| - 1], guid, w)
  }

  /** A container result the loop gets through: its container is known, and it has a costed line if typed. */
  ghost predicate Saveable(m: Manifest, containers: seq<Container>, r: ContainerResult) {
    match FindContainer(containers, r.containerId)
    case None => false
    case Some(c) =>
      c.containerTypeId == "" ||
      (FirstLine(m.containers, c.containerTypeId).Some? && r.algorithmPackingResults != [])
  }

  /** The container of the result has a type, so the loop saves records for it. */
  predicate IsTyped(containers: seq<Container>, r: ContainerResult) {
    var found := FindContainer(containers, r.containerId);
    found.Some? && found.value.containerTypeId != ""
  }

  /** The manifest price of a typed container: the cost on the manifest's first line of its type. */
  function Price(m: Manifest, containers: seq<Container>, r: ContainerResult): real {
    var found := FindContainer(containers, r.containerId);
    if found.Some? && found.value.containerTypeId != "" && FirstLine(m.containers, found.value.containerTypeId).Some?
    then FirstLine(m.containers, found.value.containerTypeId).value.cost
    else 0.0
  }

  /** The sum of the manifest prices of the typed containers of `rs`. */
  function ManifestCost(m: Manifest, containers: seq<Container>, rs: seq<ContainerResult>): real
    decreases |rs|
  {
    if rs == [] then 0.0 else ManifestCost(m, containers, rs[..|rs| - 1]) + Price(m, containers, rs[|rs| - 1])
  }

  /** The number of container results of `rs` whose container has a type. */
  function TypedCount(containers: seq<Container>, rs: seq<ContainerResult>): nat
    decreases |rs|
  {
    if rs == [] then 0
    else TypedCount(containers, rs[..|rs| - 1]) + (if IsTyped(containers, rs[|rs| - 1]) then 1 else 0)
  }

  /** One iteration: it raises exactly on an unsaveable result, and otherwise adds the result's price. */
  lemma SaveResultFacts(m: Manifest, containers: seq<Container>, r: ContainerResult, guid: nat -> string,
                        w: Writes)
    requires w.error.None?
    ensures var v := SaveResult(m, containers, r, guid, w);
      && (v.error.None? <==> Saveable(m, containers, r))
      && (v.error.None? ==> v.totalCost == w.totalCost + Price(m, containers, r)
                            && |v.packingContainers| == |w.packingContainers| + (if IsTyped(containers, r) then 1 else 0))
      && (v.error.Some? ==> v.error.value in {NULL_REFERENCE, NO_MATCHING_ELEMENT, INDEX_OUT_OF_RANGE})
  {
  }

  /** The container results of `rs` whose container has a type, in order. */
  function TypedResults(containers: seq<Container>, rs: seq<ContainerResult>): seq<ContainerResult>
    decreases |rs|
  {
    if rs == [] then []
    else TypedResults(containers, rs[..|rs| - 1]) + (if IsTyped(containers, rs[|rs| - 1]) then [rs[|rs| - 1]] else [])
  }

  /**
   * `pc` is the packing container saved for the container result `r`: it has the type of r's container, the
   * packed percentage of r's first algorithm result, and the manifest's id.
   */
  ghost predicate SavedFor(m: Manifest, containers: seq<Container>, r: ContainerResult, pc: PackingContainer) {
    && FindContainer(containers, r.containerId).Some?
    && pc.containerTypeId == FindContainer(containers, r.containerId).value.containerTypeId
    && r.algorithmPackingResults != []
    && pc.packedPercent == r.algorithmPackingResults[0].percentContainerVolumePacked
    && pc.manifestId == m.id
  }

  /** Every record of `items` belongs to the packing container `pc`: its id, type and manifest. */
  ghost predicate BelongTo(items: seq<PackingItem>, pc: PackingContainer) {
    forall i :: 0 <= i < |items| ==>
      && items[i].packingContainerId == pc.id
      && items[i].containerTypeId == pc.containerTypeId
      && items[i].manifestId == pc.manifestId
  }

  function Flatten(groups: seq<seq<PackingItem>>): seq<PackingItem>
    decreases |groups|
  {
    if groups == [] then [] else Flatten(groups[..|groups| - 1]) + groups[|groups| - 1]
  }

  /** The item records come in runs, one per packing container, each belonging to its packing container. */
  ghost predicate ItemsLinked(pcs: seq<PackingContainer>, items: seq<PackingItem>) {
    exists groups :: Linked(groups, pcs, items)
  }

  ghost predicate Linked(groups: seq<seq<PackingItem>>, pcs: seq<PackingContainer>, items: seq<PackingItem>) {
    |groups| == |pcs| && Flatten(groups) == items && forall k :: 0 <= k < |groups| ==> BelongTo(groups[k], pcs[k])
  }

  /** The records saved for the algorithm results of a container belong to its packing container. */
  lemma {:induction false} ResultItemsBelong(c: Container, pc: PackingContainer, aprs: seq<AlgorithmResult>, n: nat,
                                            guid: nat -> string, first: nat)
    requires n <= |aprs| && c.containerTypeId == pc.containerTypeId
    ensures BelongTo(ResultItems(c, pc.id, pc.manifestId, aprs, n, guid, first), pc)
    decreases n
  {
    if n > 0 {
      var front := ResultItems(c, pc.id, pc.manifestId, aprs, n - 1, guid, first);
      ResultItemsBelong(c, pc, aprs, n - 1, guid, first);
      PackingItemsBelong(c, pc, aprs[n - 1].packedItems, guid, first + |front|);
      BelongAppend(front, PackingItemsFor(c, pc.id, pc.manifestId, aprs[n - 1].packedItems, guid, first + |front|), pc);
    }
  }

  /** The records saved for one algorithm result's packed items belong to the packing container. */
  lemma PackingItemsBelong(c: Container, pc: PackingContainer, packed: seq<ItemValue>, guid: nat -> string,
                           first: nat)
    requires c.containerTypeId == pc.containerTypeId
    ensures BelongTo(PackingItemsFor(c, pc.id, pc.manifestId, packed, guid, first), pc)
  {
    PackingItemsForMeaning(c, pc.id, pc.manifestId, packed, guid, first);
  }

  lemma BelongAppend(a: seq<PackingItem>, b: seq<PackingItem>, pc: PackingContainer)
    requires BelongTo(a, pc) && BelongTo(b, pc)
    ensures BelongTo(a + b, pc)
  {
    forall i | 0 <= i < |a + b|
      ensures (a + b)[i].packingContainerId == pc.id && (a + b)[i].containerTypeId == pc.containerTypeId
           && (a + b)[i].manifestId == pc.manifestId
    {
      if i < |a| {
        assert (a + b)[i] == a[i];
      } else {
        assert (a + b)[i] == b[i - |a|];
      }
    }
  }

  /**
   * One iteration either writes no record, or, for a typed result it gets through, appends one packing
   * container saved for it and a run of item records that belong to that container.
   */
  lemma SaveResultRecords(m: Manifest, containers: seq<Container>, r: ContainerResult, guid: nat -> string,
                          w: Writes)
    requires w.error.None?
    ensures var v := SaveResult(m, containers, r, guid, w);
      !(v.error.None? && IsTyped(containers, r)) ==>
        v.packingContainers == w.packingContainers && v.packingItems == w.packingItems
    ensures var v := SaveResult(m, containers, r, guid, w);
      v.error.None? && IsTyped(containers, r) ==>
        && |v.packingContainers| == |w.packingContainers| + 1
        && v.packingContainers[..|w.packingContainers|] == w.packingContainers
        && SavedFor(m, containers, r, v.packingContainers[|w.packingContainers|])
        && |w.packingItems| <= |v.packingItems| && v.packingItems[..|w.packingItems|] == w.packingItems
        && BelongTo(v.packingItems[|w.packingItems|..], v.packingContainers[|w.packingContainers|])
  {
    var v := SaveResult(m, containers, r, guid, w);
    if v.error.None? && IsTyped(containers, r) {
      var c := FindContainer(containers, r.containerId).value;
      var line := FirstLine(m.containers, c.containerTypeId).value;
      assert v == SaveTyped(m, c, line, r, guid, w);
      var pc := PackingContainer(guid(w.drawn), c.containerTypeId,
                                 r.algorithmPackingResults[0].percentContainerVolumePacked, m.id);
      var items := ResultItems(c, pc.id, m.id, r.algorithmPackingResults, |r.algorithmPackingResults|, guid,
                               w.drawn + 1);
      ResultItemsBelong(c, pc, r.algorithmPackingResults, |r.algorithmPackingResults|, guid, w.drawn + 1);
      assert v.packingItems == w.packingItems + items;
      assert v.packingItems[|w.packingItems|..] == items;
    }
  }

  /**
   * What the loop writes: item records in runs that belong to the packing containers, and, when it gets
   * through, one packing container saved for each typed container result, in order.
   */
  lemma {:induction false} SaveResultsRecords(m: Manifest, containers: seq<Container>, rs: seq<ContainerResult>,
                                             guid: nat -> string, drawn: nat)
    ensures var w := SaveResults(m, containers, rs, guid, Writes([], [], 0.0, drawn, None));
      && ItemsLinked(w.packingContainers, w.packingItems)
      && (w.error.None? ==>
            && |w.packingContainers| == |TypedResults(containers, rs)|
            && forall k :: 0 <= k < |w.packingContainers| ==>
                 SavedFor(m, containers, TypedResults(containers, rs)[k], w.packingContainers[k]))
    decreases |rs|
  {
    if rs == [] {
      assert Linked([], [], []);
    } else {
      var front, last := rs[..|rs| - 1], rs[|rs| - 1];
      SaveResultsRecords(m, containers, front, guid, drawn);
      var w := SaveResults(m, containers, front, guid, Writes([], [], 0.0, drawn, None));
      var groups :| Linked(groups, w.packingContainers, w.packingItems);
      SaveResultsRecordsStep(m, containers, TypedResults(containers, front), last, guid, w, groups);
    }
  }

  /** One iteration of the loop keeps what SaveResultsRecords states. */
  lemma SaveResultsRecordsStep(m: Manifest, containers: seq<Container>, typed: seq<ContainerResult>,
                               r: ContainerResult, guid: nat -> string, w: Writes, groups: seq<seq<PackingItem>>)
    requires Linked(groups, w.packingContainers, w.packingItems)
    requires w.error.None? ==>
      && |w.packingContainers| == |typed|
      && forall k :: 0 <= k < |w.packingContainers| ==> SavedFor(m, containers, typed[k], w.packingContainers[k])
    ensures var v := if w.error.Some? then w else SaveResult(m, containers, r, guid, w);
      var more := typed + (if IsTyped(containers, r) then [r] else []);
      && ItemsLinked(v.packingContainers, v.packingItems)
      && (v.error.None? ==>
            && |v.packingContainers| == |more|
            && forall k :: 0 <= k < |v.packingContainers| ==> SavedFor(m, containers, more[k], v.packingContainers[k]))
  {
    if w.error.None? {
      var v := SaveResult(m, containers, r, guid, w);
      SaveResultRecords(m, containers, r, guid, w);
      if v.error.None? && IsTyped(containers, r) {
        var pc := v.packingContainers[|w.packingContainers|];
        var run := v.packingItems[|w.packingItems|..];
        assert v.packingContainers == w.packingContainers + [pc];
        assert v.packingItems == w.packingItems + run;
        LinkedExtend(groups, w.packingContainers, w.packingItems, pc, run);
        SavedForExtend(m, containers, typed, w.packingContainers, r, pc);
      } else {
        assert Linked(groups, v.packingContainers, v.packingItems);
      }
    } else {
      assert Linked(groups, w.packingContainers, w.packingItems);
    }
  }

  /** A run of records belonging to a new packing container extends the linked runs. */
  lemma LinkedExtend(groups: seq<seq<PackingItem>>, pcs: seq<PackingContainer>, items: seq<PackingItem>,
                     pc: PackingContainer, run: seq<PackingItem>)
    requires Linked(groups, pcs, items) && BelongTo(run, pc)
    ensures Linked(groups + [run], pcs + [pc], items + run)
  {
    var more := groups + [run];
    assert more[..|more| - 1] == groups;
  }

  /** A packing container saved for one more typed result extends the packing containers saved so far. */
  lemma SavedForExtend(m: Manifest, containers: seq<Container>, typed: seq<ContainerResult>,
                       pcs: seq<PackingContainer>, r: ContainerResult, pc: PackingContainer)
    requires |pcs| == |typed| && SavedFor(m, containers, r, pc)
    requires forall k :: 0 <= k < |pcs| ==> SavedFor(m, containers, typed[k], pcs[k])
    ensures forall k :: 0 <= k < |pcs| + 1 ==> SavedFor(m, containers, (typed + [r])[k], (pcs + [pc])[k])
  {
    forall k | 0 <= k < |pcs| + 1
      ensures SavedFor(m, containers, (typed + [r])[k], (pcs + [pc])[k])
    {
      if k < |pcs| {
        assert (typed + [r])[k] == typed[k] && (pcs + [pc])[k] == pcs[k];
      }
    }
  }

  /**
   * The loop gets through every result exactly when each one is saveable. It then adds one packing container
   * per typed container, saved for that container's result, and the total cost is the manifest price of those
   * containers, counted from 0. Whether or not it gets through, the item records written come in runs, each
   * belonging to one of the packing containers written, in order.
   */
  lemma SaveResultsMeaning(m: Manifest, containers: seq<Container>, rs: seq<ContainerResult>,
                           guid: nat -> string, drawn: nat)
    ensures var w := SaveResults(m, containers, rs, guid, Writes([], [], 0.0, drawn, None));
      && (w.error.None? <==> forall i :: 0 <= i < |rs| ==> Saveable(m, containers, rs[i]))
      && (w.error.None? ==> w.totalCost == ManifestCost(m, containers, rs)
                            && |w.packingContainers| == TypedCount(containers, rs))
      && (w.error.Some? ==> w.error.value in {NULL_REFERENCE, NO_MATCHING_ELEMENT, INDEX_OUT_OF_RANGE})
    ensures var w := SaveResults(m, containers, rs, guid, Writes([], [], 0.0, drawn, None));
      && ItemsLinked(w.packingContainers, w.packingItems)
      && (w.error.None? ==>
            && |w.packingContainers| == |TypedResults(containers, rs)|
            && forall k :: 0 <= k < |w.packingContainers| ==>
                 SavedFor(m, containers, TypedResults(containers, rs)[k], w.packingContainers[k]))
  {
    SaveResultsCost(m, containers, rs, guid, drawn);
    SaveResultsRecords(m, containers, rs, guid, drawn);
  }

  /** The error and total-cost part of SaveResultsMeaning. */
  lemma {:induction false} SaveResultsCost(m: Manifest, containers: seq<Container>, rs: seq<ContainerResult>,
                                          guid: nat -> string, drawn: nat)
    ensures var w := SaveResults(m, containers, rs, guid, Writes([], [], 0.0, drawn, None));
      && (w.error.None? <==> forall i :: 0 <= i < |rs| ==> Saveable(m, containers, rs[i]))
      && (w.error.None? ==> w.totalCost == ManifestCost(m, containers, rs)
                            && |w.packingContainers| == TypedCount(containers, rs))
      && (w.error.Some? ==> w.error.value in {NULL_REFERENCE, NO_MATCHING_ELEMENT, INDEX_OUT_OF_RANGE})
    decreases |rs|
  {
    if rs != [] {
      var front := rs[..|rs| - 1];
      SaveResultsCost(m, containers, front, guid, drawn);
      assert forall i :: 0 <= i < |front| ==> front[i] == rs[i];
      var w := SaveResults(m, containers, front, guid, Writes([], [], 0.0, drawn, None));
      if w.error.None? {
        SaveResultFacts(m, containers, rs[|rs| - 1], guid, w);
      }
    }
  }

  /** Once a result has raised, the later results change nothing. */
  lemma {:induction false} SaveResultsStuck(m: Manifest, containers: seq<Container>, rs: seq<ContainerResult>,
                                           j: nat, guid: nat -> string, start: Writes)
    requires j <= |rs| && SaveResults(m, containers, rs[..j], guid, start).error.Some?
    ensures SaveResults(m, containers, rs, guid, start) == SaveResults(m, containers, rs[..j], guid, start)
    decreases |rs| - j
  {
    if j < |rs| {
      assert rs[..j + 1][..j] == rs[..j];
      SaveResultsStuck(m, containers, rs, j + 1, guid, start);
    } else {
      assert rs[..j] == rs;
    }
  }

  // ---------------------------------------------------------------------------------------------------------
  // Grouping of unpacked items
  // ---------------------------------------------------------------------------------------------------------

  /** The position of the group with the key, if there is one. */
  function GroupIndex(groups: seq<UnpackedItem>, key: string): (r: Option<nat>)
    ensures r.Some? ==> r.value < |groups| && groups[r.value].itemTypeId == key
    ensures r.None? <==> forall j :: 0 <= j < |groups| ==> groups[j].itemTypeId != key
  {
    if groups == [] then None
    else if groups[0].itemTypeId == key then Some(0)
    else
      match GroupIndex(groups[1..], key)
      case None => None
      case Some(j) => Some(j + 1)
  }

  /** `GroupBy(u => u.ItemTypeId)` with a count per group; groups come in the order their key first occurs. */
  function GroupCounts(keys: seq<string>): seq<UnpackedItem>
    decreases |keys|
  {
    if keys == [] then []
    else
      var groups := GroupCounts(keys[..|keys| - 1]);
      var key := keys[|keys| - 1];
      match GroupIndex(groups, key)
      case None => groups + [UnpackedItem(key, 1)]
      case Some(j) => groups[j := groups[j].(quantity := groups[j].quantity + 1)]
  }

  function ItemTypeIds(items: seq<ItemValue>): (r: seq<string>)
    ensures |r| == |items| && forall k :: 0 <= k < |items| ==> r[k] == items[k].spec.itemTypeId
  {
    seq(|items|, k requires 0 <= k < |items| => items[k].spec.itemTypeId)
  }

  function TotalQuantity(groups: seq<UnpackedItem>): int
    decreases |groups|
  {
    if groups == [] then 0 else TotalQuantity(groups[..|groups| - 1]) + groups[|groups| - 1].quantity
  }

  lemma {:induction false} TotalQuantityUpdate(groups: seq<UnpackedItem>, j: nat, q: int)
    requires j < |groups|
    ensures TotalQuantity(groups[j := groups[j].(quantity := q)]) == TotalQuantity(groups) - groups[j].quantity + q
    decreases |groups|
  {
    var g := groups[j := groups[j].(quantity := q)];
    if j < |groups| - 1 {
      assert g[..|g| - 1] == groups[..|groups| - 1][j := groups[j].(quantity := q)];
      TotalQuantityUpdate(groups[..|groups| - 1], j, q);
    } else {
      assert g[..|g| - 1] == groups[..|groups| - 1];
    }
  }

  /** The group keys are distinct. */
  ghost predicate DistinctKeys(groups: seq<UnpackedItem>) {
    forall i, j :: 0 <= i < j < |groups| ==> groups[i].itemTypeId != groups[j].itemTypeId
  }

  /**
   * `groups` has one group per distinct key of `keys`: the group keys are exactly the keys occurring, each
   * group counts the occurrences of its key, and the counts add up to the number of keys.
   */
  ghost predicate CountsOf(keys: seq<string>, groups: seq<UnpackedItem>) {
    && DistinctKeys(groups)
    && (forall key :: GroupIndex(groups, key).Some? <==> key in keys)
    && (forall j :: 0 <= j < |groups| ==> groups[j].quantity == multiset(keys)[groups[j].itemTypeId] > 0)
    && TotalQuantity(groups) == |keys|
  }

  /** A key not seen before opens a group of its own. */
  lemma CountsNewKey(keys: seq<string>, groups: seq<UnpackedItem>, key: string)
    requires CountsOf(keys, groups) && GroupIndex(groups, key).None?
    ensures CountsOf(keys + [key], groups + [UnpackedItem(key, 1)])
  {
    var r := groups + [UnpackedItem(key, 1)];
    assert r[..|r| - 1] == groups;
    NewKeyQuantities(keys, groups, key);
    NewKeyGroups(keys, groups, key);
  }

  /** A new group of count 1 for a key not seen before keeps every count equal to its key's occurrences. */
  lemma NewKeyQuantities(keys: seq<string>, groups: seq<UnpackedItem>, key: string)
    requires CountsOf(keys, groups) && GroupIndex(groups, key).None?
    ensures var r := groups + [UnpackedItem(key, 1)];
      forall i :: 0 <= i < |r| ==> r[i].quantity == multiset(keys + [key])[r[i].itemTypeId] > 0
  {
    var r := groups + [UnpackedItem(key, 1)];
    assert multiset(keys + [key]) == multiset(keys) + multiset{key};
    assert key !in keys;
    forall i | 0 <= i < |r|
      ensures r[i].quantity == multiset(keys + [key])[r[i].itemTypeId] > 0
    {
      if i < |groups| {
        assert r[i] == groups[i] && groups[i].itemTypeId != key;
      }
    }
  }

  /** A new group for a key not seen before keeps the group keys distinct and exactly the keys occurring. */
  lemma NewKeyGroups(keys: seq<string>, groups: seq<UnpackedItem>, key: string)
    requires CountsOf(keys, groups) && GroupIndex(groups, key).None?
    ensures var r := groups + [UnpackedItem(key, 1)];
      && DistinctKeys(r)
      && forall k :: GroupIndex(r, k).Some? <==> k in keys + [key]
  {
    var r := groups + [UnpackedItem(key, 1)];
    forall k
      ensures GroupIndex(r, k).Some? <==> k in keys + [key]
    {
      if GroupIndex(groups, k).Some? {
        assert r[GroupIndex(groups, k).value].itemTypeId == k;
      }
      if k == key {
        assert r[|groups|].itemTypeId == k;
      }
      if GroupIndex(r, k).Some? && GroupIndex(r, k).value < |groups| {
        assert groups[GroupIndex(r, k).value].itemTypeId == k;
      }
    }
  }

  /** A key seen before adds one to its group. */
  lemma CountsSameKey(keys: seq<string>, groups: seq<UnpackedItem>, key: string, j: nat)
    requires CountsOf(keys, groups) && GroupIndex(groups, key) == Some(j)
    ensures CountsOf(keys + [key], groups[j := groups[j].(quantity := groups[j].quantity + 1)])
  {
    TotalQuantityUpdate(groups, j, groups[j].quantity + 1);
    SameKeyQuantities(keys, groups, key, j);
    SameKeyGroups(keys, groups, key, j);
  }

  /** Adding one to the group of `key` keeps every group's count equal to the occurrences of its key. */
  lemma SameKeyQuantities(keys: seq<string>, groups: seq<UnpackedItem>, key: string, j: nat)
    requires CountsOf(keys, groups) && GroupIndex(groups, key) == Some(j)
    ensures var r := groups[j := groups[j].(quantity := groups[j].quantity + 1)];
      forall i :: 0 <= i < |r| ==> r[i].quantity == multiset(keys + [key])[r[i].itemTypeId] > 0
  {
    var r := groups[j := groups[j].(quantity := groups[j].quantity + 1)];
    assert multiset(keys + [key]) == multiset(keys) + multiset{key};
    forall i | 0 <= i < |r|
      ensures r[i].quantity == multiset(keys + [key])[r[i].itemTypeId] > 0
    {
      if i != j {
        assert r[i] == groups[i] && groups[i].itemTypeId != key;
      }
    }
  }

  /** Adding one to the group of `key` keeps the group keys: distinct, and exactly the keys occurring. */
  lemma SameKeyGroups(keys: seq<string>, groups: seq<UnpackedItem>, key: string, j: nat)
    requires CountsOf(keys, groups) && GroupIndex(groups, key) == Some(j)
    ensures var r := groups[j := groups[j].(quantity := groups[j].quantity + 1)];
      && DistinctKeys(r)
      && forall k :: GroupIndex(r, k).Some? <==> k in keys + [key]
  {
    var r := groups[j := groups[j].(quantity := groups[j].quantity + 1)];
    assert forall i :: 0 <= i < |r| ==> r[i].itemTypeId == groups[i].itemTypeId;
    forall k
      ensures GroupIndex(r, k).Some? <==> k in keys + [key]
    {
      if GroupIndex(groups, k).Some? {
        assert r[GroupIndex(groups, k).value].itemTypeId == k;
      }
      if GroupIndex(r, k).Some? {
        assert groups[GroupIndex(r, k).value].itemTypeId == k;
      }
    }
  }

  /** The keys with repeats left out: each key at the place it first occurs. */
  function FirstOccurrences(keys: seq<string>): (r: seq<string>)
    ensures forall key :: key in r <==> key in keys
    decreases |keys|
  {
    if keys == [] then []
    else
      var front := keys[..|keys| - 1];
      var key := keys[|keys| - 1];
      assert keys == front + [key];
      if key in front then FirstOccurrences(front) else FirstOccurrences(front) + [key]
  }

  /** The key of each group, in order. */
  function GroupKeys(groups: seq<UnpackedItem>): (r: seq<string>)
    ensures |r| == |groups| && forall j :: 0 <= j < |groups| ==> r[j] == groups[j].itemTypeId
  {
    seq(|groups|, j requires 0 <= j < |groups| => groups[j].itemTypeId)
  }

  /**
   * The grouping has one group per distinct key, counting its occurrences, and the groups come in the order
   * their keys first occur.
   */
  lemma GroupCountsMeaning(keys: seq<string>)
    ensures CountsOf(keys, GroupCounts(keys))
    ensures GroupKeys(GroupCounts(keys)) == FirstOccurrences(keys)
  {
    GroupCountsOf(keys);
    GroupOrder(keys);
  }

  /** The groups come in the order their keys first occur. */
  lemma {:induction false} GroupOrder(keys: seq<string>)
    ensures GroupKeys(GroupCounts(keys)) == FirstOccurrences(keys)
    decreases |keys|
  {
    if keys != [] {
      var front := keys[..|keys| - 1];
      var key := keys[|keys| - 1];
      GroupOrder(front);
      GroupCountsOf(front);
      var groups := GroupCounts(front);
      match GroupIndex(groups, key)
      case None =>
        assert key !in front;
        assert GroupKeys(groups + [UnpackedItem(key, 1)]) == GroupKeys(groups) + [key];
      case Some(j) =>
        assert key in front;
        assert GroupKeys(groups[j := groups[j].(quantity := groups[j].quantity + 1)]) == GroupKeys(groups);
    }
  }

  /** The grouping has one group per distinct key, counting its occurrences. */
  lemma {:induction false} GroupCountsOf(keys: seq<string>)
    ensures CountsOf(keys, GroupCounts(keys))
    decreases |keys|
  {
    if keys != [] {
      var front := keys[..|keys| - 1];
      var key := keys[|keys| - 1];
      GroupCountsOf(front);
      assert keys == front + [key];
      var groups := GroupCounts(front);
      match GroupIndex(groups, key)
      case None => CountsNewKey(front, groups, key);
      case Some(j) => CountsSameKey(front, groups, key, j);
    }
  }

  /** The manifest SaveManifest stores when every result was saved. */
  function Completed(m: Manifest, totalCost: real, unpacked: seq<ItemValue>): Manifest {
    m.(status := "Complete", packingContainers := [], packingItems := [], totalCost := totalCost,
       unpackedItems := GroupCounts(ItemTypeIds(unpacked)))
  }

  // ---------------------------------------------------------------------------------------------------------
  // The mapper
  // ---------------------------------------------------------------------------------------------------------

  /**
   * The mapper: the tables (the ones it writes as fields), the shared Containers and Items lists the Get
   * methods fill, and the identifier oracle with the number of identifiers drawn so far.
   */
  class Mapper {
    const catalog: Catalog
    var manifests: map<string, Manifest>
    var packingContainers: seq<PackingContainer>
    var packingItems: seq<PackingItem>
    var containers: seq<Container>
    var items: seq<Item>
    const guid: nat -> string
    var drawn: nat

    constructor (catalog: Catalog, manifests: map<string, Manifest>, guid: nat -> string)
      ensures this.catalog == catalog && this.manifests == manifests && this.guid == guid
      ensures packingContainers == [] && packingItems == [] && containers == [] && items == [] && drawn == 0
    {
      this.catalog := catalog;
      this.manifests := manifests;
      this.guid := guid;
      packingContainers := [];
      packingItems := [];
      containers := [];
      items := [];
      drawn := 0;
    }

    /** `Guid.NewGuid().ToString()`. */
    method NewGuid() returns (id: string)
      modifies this`drawn
      ensures id == guid(old(drawn)) && drawn == old(drawn) + 1
    {
      id := guid(drawn);
      drawn := drawn + 1;
    }

    /**
     * convertContainers: appends one container per unit of the line's quantity. The type is dereferenced in
     * the loop body only, so a missing type raises only when the quantity is positive.
     */
    method ConvertContainers(containerType: Option<ContainerType>, line: ShipmentContainer) returns (ok: bool)
      modifies this`containers, this`drawn
      ensures ok <==> line.quantity <= 0 || containerType.Some?
      ensures !ok ==> containers == old(containers) && drawn == old(drawn)
      ensures ok && containerType.Some? ==>
        containers == old(containers) + ContainerCopies(containerType.value, line, guid, old(drawn))
        && drawn == old(drawn) + Copies(line.quantity)
      ensures ok && containerType.None? ==> containers == old(containers) && drawn == old(drawn)
    {
      var i := 0;
      while i < line.quantity
        invariant 0 <= i <= Copies(line.quantity)
        invariant i > 0 ==> containerType.Some?
        invariant drawn == old(drawn) + i
        invariant containerType.Some? ==>
          containers == old(containers) + ContainerCopies(containerType.value, line, guid, old(drawn))[..i]
        invariant containerType.None? ==> containers == old(containers)
      {
        if containerType.None? {
          return false;
        }
        var t := containerType.value;
        var id := NewGuid();
        var c := NewContainer(id, t.dimension.length, t.dimension.height, t.dimension.width, t.id, line.cost,
                              t.maxWeight).(features := t.features);
        ghost var copies := ContainerCopies(t, line, guid, old(drawn));
        assert copies[..i + 1] == copies[..i] + [c];
        containers := containers + [c];
        i := i + 1;
      }
      ok := true;
    }

    /** convertPackages: appends one new, unpacked item per unit of the line's quantity. */
    method ConvertPackages(itemType: Option<ItemType>, line: ShipmentItem) returns (ok: bool)
      modifies this`items, this`drawn
      ensures ok <==> line.quantity <= 0 || itemType.Some?
      ensures |items| >= |old(items)| && items[..|old(items)|] == old(items)
      ensures !ok ==> items == old(items) && drawn == old(drawn)
      ensures ok && itemType.Some? ==>
        Specs(items) == Specs(old(items)) + ItemCopies(itemType.value, line, guid, old(drawn))
        && drawn == old(drawn) + Copies(line.quantity)
      ensures ok && itemType.None? ==> items == old(items) && drawn == old(drawn)
    {
      var i := 0;
      while i < line.quantity
        invariant 0 <= i <= Copies(line.quantity)
        invariant i > 0 ==> itemType.Some?
        invariant drawn == old(drawn) + i
        invariant |items| == |old(items)| + i && items[..|old(items)|] == old(items)
        invariant itemType.Some? ==>
          Specs(items) == Specs(old(items)) + ItemCopies(itemType.value, line, guid, old(drawn))[..i]
      {
        if itemType.None? {
          return false;
        }
        var t := itemType.value;
        var id := NewGuid();
        var item := new Item(id, t.dimension.length, t.dimension.height, t.dimension.width, 1, t.id,
                             t.requiredFeatures, t.weight);
        ghost var copies := ItemCopies(t, line, guid, old(drawn));
        assert copies[..i + 1] == copies[..i] + [item.Spec()];
        assert Specs(items + [item]) == Specs(items) + [item.Spec()];
        items := items + [item];
        i := i + 1;
      }
      ok := true;
    }

    /** GetContainersForManifest: clears the shared list, then expands every container line of the shipment. */
    method GetContainersForManifest(manifestId: string) returns (r: Result<seq<Container>, string>)
      modifies this`containers, this`drawn
      ensures match ContainersForManifest(manifests, catalog, manifestId, guid, old(drawn))
        case Failure(e) => r == Failure(e) && containers == old(containers) && drawn == old(drawn)
        case Success(x) =>
          && containers == x.built && drawn == old(drawn) + |x.built|
          && r == (if x.complete then Success(x.built) else Failure(NULL_REFERENCE))
    {
      var manifest := Load(manifests, manifestId);
      if manifest.None? {
        return Failure(ManifestNotFound(manifestId));
      }
      var shipment := Load(catalog.shipments, manifest.value.shipmentId);
      if shipment.None? {
        return Failure(ShipmentNotFound(manifest.value.shipmentId));
      }
      var ok := ExpandContainerLines(shipment.value.containers);
      if !ok {
        return Failure(NULL_REFERENCE);
      }
      return Success(containers);
    }

    /** `Containers.Clear()` followed by the `ForEach` over the shipment's container lines. */
    method ExpandContainerLines(lines: seq<ShipmentContainer>) returns (ok: bool)
      modifies this`containers, this`drawn
      ensures var e := ExpandContainers(catalog.containerTypes, lines, guid, old(drawn));
        ok == e.complete && containers == e.built && drawn == old(drawn) + |e.built|
    {
      containers := [];
      var j := 0;
      while j < |lines|
        invariant 0 <= j <= |lines|
        invariant var e := ExpandContainers(catalog.containerTypes, lines[..j], guid, old(drawn));
          e.complete && containers == e.built && drawn == old(drawn) + |e.built|
      {
        ghost var e := ExpandContainers(catalog.containerTypes, lines[..j], guid, old(drawn));
        assert lines[..j + 1][..j] == lines[..j];
        assert ExpandContainers(catalog.containerTypes, lines[..j + 1], guid, old(drawn))
            == if lines[j].quantity <= 0 then e
               else if lines[j].containerTypeId !in catalog.containerTypes then Expansion(e.built, false)
               else Expansion(e.built + ContainerCopies(catalog.containerTypes[lines[j].containerTypeId], lines[j],
                                                        guid, drawn), true);
        ok := ConvertContainers(Load(catalog.containerTypes, lines[j].containerTypeId), lines[j]);
        if !ok {
          ExpandContainersStuck(catalog.containerTypes, lines, j + 1, guid, old(drawn));
          return;
        }
        j := j + 1;
      }
      assert lines[..j] == lines;
      ok := true;
    }

    /** GetItemsForManifest: clears the shared list, then expands every item line of the shipment. */
    method GetItemsForManifest(manifestId: string) returns (r: Result<seq<Item>, string>)
      modifies this`items, this`drawn
      ensures match ItemsForManifest(manifests, catalog, manifestId, guid, old(drawn))
        case Failure(e) => r == Failure(e) && items == old(items) && drawn == old(drawn)
        case Success(x) =>
          && Specs(items) == x.built && drawn == old(drawn) + |x.built|
          && r == (if x.complete then Success(items) else Failure(NULL_REFERENCE))
    {
      var manifest := Load(manifests, manifestId);
      if manifest.None? {
        return Failure(ManifestNotFound(manifestId));
      }
      var shipment := Load(catalog.shipments, manifest.value.shipmentId);
      if shipment.None? {
        return Failure(ShipmentNotFound(manifest.value.shipmentId));
      }
      var ok := ExpandItemLines(shipment.value.items);
      if !ok {
        return Failure(NULL_REFERENCE);
      }
      return Success(items);
    }

    /** `Items.Clear()` followed by the `ForEach` over the shipment's item lines. */
    method ExpandItemLines(lines: seq<ShipmentItem>) returns (ok: bool)
      modifies this`items, this`drawn
      ensures var e := ExpandItems(catalog.itemTypes, lines, guid, old(drawn));
        ok == e.complete && Specs(items) == e.built && drawn == old(drawn) + |e.built|
    {
      items := [];
      var j := 0;
      while j < |lines|
        invariant 0 <= j <= |lines|
        invariant var e := ExpandItems(catalog.itemTypes, lines[..j], guid, old(drawn));
          e.complete && Specs(items) == e.built && drawn == old(drawn) + |e.built|
      {
        ghost var e := ExpandItems(catalog.itemTypes, lines[..j], guid, old(drawn));
        assert lines[..j + 1][..j] == lines[..j];
        assert ExpandItems(catalog.itemTypes, lines[..j + 1], guid, old(drawn))
            == if lines[j].quantity <= 0 then e
               else if lines[j].itemTypeId !in catalog.itemTypes then Expansion(e.built, false)
               else Expansion(e.built + ItemCopies(catalog.itemTypes[lines[j].itemTypeId], lines[j], guid, drawn),
                              true);
        ok := ConvertPackages(Load(catalog.itemTypes, lines[j].itemTypeId), lines[j]);
        if !ok {
          ExpandItemsStuck(catalog.itemTypes, lines, j + 1, guid, old(drawn));
          return;
        }
        j := j + 1;
      }
      assert lines[..j] == lines;
      ok := true;
    }

    /** GetManifestById. */
    method GetManifestById(manifestId: string) returns (r: Result<Manifest, string>)
      ensures manifestId in manifests ==> r == Success(manifests[manifestId])
      ensures manifestId !in manifests ==> r == Failure(ManifestNotFound(manifestId))
    {
      var manifest := Load(manifests, manifestId);
      if manifest.None? {
        return Failure(ManifestNotFound(manifestId));
      }
      return Success(manifest.value);
    }

    /** SaveErrorManifest: marks the manifest as failed. */
    method SaveErrorManifest(manifestId: string) returns (r: Result<(), string>)
      modifies this`manifests
      ensures manifestId !in old(manifests) ==> r == Failure(ManifestNotFound(manifestId)) && manifests == old(manifests)
      ensures manifestId in old(manifests) ==>
        r == Success(()) && manifests == old(manifests)[manifestId := old(manifests)[manifestId].(status := "Error")]
    {
      var manifest := Load(manifests, manifestId);
      if manifest.None? {
        return Failure(ManifestNotFound(manifestId));
      }
      manifests := manifests[manifestId := manifest.value.(status := "Error")];
      return Success(());
    }

    /** The body of the inner loop of SaveManifest: a record for the packed item when it has a type. */
    method SavePackedItem(c: Container, packingContainerId: string, manifestId: string, item: ItemValue)
      modifies this`packingItems, this`drawn
      ensures item.spec.itemTypeId == "" ==> packingItems == old(packingItems) && drawn == old(drawn)
      ensures item.spec.itemTypeId != "" ==>
        && packingItems == old(packingItems) + [NewPackingItem(c, packingContainerId, manifestId, item, guid(old(drawn)))]
        && drawn == old(drawn) + 1
    {
      if item.spec.itemTypeId != "" {
        var id := NewGuid();
        var record := NewPackingItem(c, packingContainerId, manifestId, item, id);
        packingItems := packingItems + [record];
      }
    }

    /** The inner loop of SaveManifest for one algorithm result: one record per packed item that has a type. */
    method SavePackedItems(c: Container, packingContainerId: string, manifestId: string, packed: seq<ItemValue>)
      modifies this`packingItems, this`drawn
      ensures var saved := PackingItemsFor(c, packingContainerId, manifestId, packed, guid, old(drawn));
        packingItems == old(packingItems) + saved && drawn == old(drawn) + |saved|
    {
      var p := 0;
      while p < |packed|
        invariant 0 <= p <= |packed|
        invariant var saved := PackingItemsFor(c, packingContainerId, manifestId, packed[..p], guid, old(drawn));
          packingItems == old(packingItems) + saved && drawn == old(drawn) + |saved|
      {
        ghost var saved := PackingItemsFor(c, packingContainerId, manifestId, packed[..p], guid, old(drawn));
        assert packed[..p + 1][..p] == packed[..p];
        if packed[p].spec.itemTypeId != "" {
          ghost var record := NewPackingItem(c, packingContainerId, manifestId, packed[p], guid(drawn));
          PackingItemsForLast(c, packingContainerId, manifestId, packed[..p + 1], guid, old(drawn));
          SavePackedItem(c, packingContainerId, manifestId, packed[p]);
          AppendAssociative(old(packingItems), saved, [record]);
        } else {
          PackingItemsForSkip(c, packingContainerId, manifestId, packed[..p + 1], guid, old(drawn));
          SavePackedItem(c, packingContainerId, manifestId, packed[p]);
        }
        p := p + 1;
      }
      assert packed[..p] == packed;
    }

    /** The loop over the algorithm results of one container result, saving the packed items of each. */
    method SaveResultItems(c: Container, packingContainerId: string, manifestId: string,
                           aprs: seq<AlgorithmResult>)
      modifies this`packingItems, this`drawn
      ensures var saved := ResultItems(c, packingContainerId, manifestId, aprs, |aprs|, guid, old(drawn));
        packingItems == old(packingItems) + saved && drawn == old(drawn) + |saved|
    {
      var a := 0;
      while a < |aprs|
        invariant 0 <= a <= |aprs|
        invariant var saved := ResultItems(c, packingContainerId, manifestId, aprs, a, guid, old(drawn));
          packingItems == old(packingItems) + saved && drawn == old(drawn) + |saved|
      {
        ghost var saved := ResultItems(c, packingContainerId, manifestId, aprs, a, guid, old(drawn));
        ghost var next := PackingItemsFor(c, packingContainerId, manifestId, aprs[a].packedItems, guid, drawn);
        assert ResultItems(c, packingContainerId, manifestId, aprs, a + 1, guid, old(drawn)) == saved + next;
        SavePackedItems(c, packingContainerId, manifestId, aprs[a].packedItems);
        AppendAssociative(old(packingItems), saved, next);
        a := a + 1;
      }
    }

    /** The records of `base` followed by those `w` wrote, and the identifiers `w` drew. */
    ghost predicate Written(base: (seq<PackingContainer>, seq<PackingItem>), w: Writes)
      reads this
    {
      && packingContainers == base.0 + w.packingContainers
      && packingItems == base.1 + w.packingItems
      && drawn == w.drawn
    }

    /** The part of SaveManifest's loop body after a typed container result has been priced. */
    method SaveTypedResult(m: Manifest, c: Container, line: ShipmentContainer, result: ContainerResult,
                           ghost base: (seq<PackingContainer>, seq<PackingItem>), ghost w: Writes,
                           totalCost: real)
      returns (newTotalCost: real, error: Option<string>)
      requires w.error.None? && Written(base, w) && totalCost == w.totalCost
      modifies this`packingContainers, this`packingItems, this`drawn
      ensures var v := SaveTyped(m, c, line, result, guid, w);
        newTotalCost == v.totalCost && error == v.error && Written(base, v)
    {
      newTotalCost := totalCost + line.cost;
      var id := NewGuid();
      if result.algorithmPackingResults == [] {
        assert SaveTyped(m, c, line, result, guid, w)
            == w.(totalCost := newTotalCost, drawn := drawn, error := Some(INDEX_OUT_OF_RANGE));
        return newTotalCost, Some(INDEX_OUT_OF_RANGE);
      }
      var pc := PackingContainer(id, c.containerTypeId,
                                 result.algorithmPackingResults[0].percentContainerVolumePacked, m.id);
      packingContainers := packingContainers + [pc];
      AppendAssociative(base.0, w.packingContainers, [pc]);
      ghost var saved := ResultItems(c, id, m.id, result.algorithmPackingResults,
                                     |result.algorithmPackingResults|, guid, drawn);
      ghost var v := Writes(w.packingContainers + [pc], w.packingItems + saved, newTotalCost, drawn + |saved|, None);
      assert SaveTyped(m, c, line, result, guid, w) == v;
      SaveResultItems(c, id, m.id, result.algorithmPackingResults);
      AppendAssociative(base.1, w.packingItems, saved);
      error := None;
    }

    /**
     * The body of SaveManifest's loop for one container result: find its container, skip it when untyped,
     * price it by the manifest's first line of its type, then save a packing container and its items.
     */
    method SaveContainerResult(m: Manifest, result: ContainerResult,
                               ghost base: (seq<PackingContainer>, seq<PackingItem>), ghost w: Writes,
                               totalCost: real)
      returns (newTotalCost: real, error: Option<string>)
      requires w.error.None? && Written(base, w) && totalCost == w.totalCost
      modifies this`packingContainers, this`packingItems, this`drawn
      ensures var v := SaveResult(m, containers, result, guid, w);
        newTotalCost == v.totalCost && error == v.error && Written(base, v)
    {
      var found := FindContainer(containers, result.containerId);
      if found.None? {
        return totalCost, Some(NULL_REFERENCE);
      }
      var c := found.value;
      if c.containerTypeId == "" {
        return totalCost, None;
      }
      var line := FirstLine(m.containers, c.containerTypeId);
      if line.None? {
        return totalCost, Some(NO_MATCHING_ELEMENT);
      }
      newTotalCost, error := SaveTypedResult(m, c, line.value, result, base, w, totalCost);
    }

    /** SaveManifest's loop over the container results, from a total cost of 0, up to the first exception. */
    method SaveContainerResults(m: Manifest, values: seq<ContainerResult>)
      returns (totalCost: real, error: Option<string>)
      modifies this`packingContainers, this`packingItems, this`drawn
      ensures var w := SaveResults(m, containers, values, guid, Writes([], [], 0.0, old(drawn), None));
        && packingContainers == old(packingContainers) + w.packingContainers
        && packingItems == old(packingItems) + w.packingItems
        && drawn == w.drawn && totalCost == w.totalCost && error == w.error
    {
      ghost var base := (packingContainers, packingItems);
      ghost var start := Writes([], [], 0.0, drawn, None);
      ghost var w := start;
      totalCost := 0.0;
      var i := 0;
      while i < |values|
        invariant 0 <= i <= |values|
        invariant w == SaveResults(m, containers, values[..i], guid, start)
        invariant w.error.None? && Written(base, w) && totalCost == w.totalCost
      {
        assert values[..i + 1][..i] == values[..i];
        totalCost, error := SaveContainerResult(m, values[i], base, w, totalCost);
        w := SaveResult(m, containers, values[i], guid, w);
        if error.Some? {
          SaveResultsStuck(m, containers, values, i + 1, guid, start);
          return;
        }
        i := i + 1;
      }
      assert values[..i] == values;
      error := None;
    }

    /**
     * SaveManifest: saves a packing container and its packing items for each typed container result, then,
     * if nothing raised, stores the manifest as complete with its total cost and the per-type counts of the
     * unpacked items. Records saved before an exception stay saved.
     */
    method SaveManifest(manifestId: string, packingResults: seq<ContainerPackingResult>,
                        unpackedItems: seq<ItemValue>)
      returns (r: Result<(), string>)
      modifies this`manifests, this`packingContainers, this`packingItems, this`drawn
      ensures manifestId !in old(manifests) ==>
        && r == Failure(ManifestNotFound(manifestId)) && manifests == old(manifests)
        && packingContainers == old(packingContainers) && packingItems == old(packingItems) && drawn == old(drawn)
      ensures manifestId in old(manifests) ==>
        var m := old(manifests)[manifestId];
        var w := SaveResults(m, containers, old(ContainerValues(packingResults)), guid,
                             Writes([], [], 0.0, old(drawn), None));
        && packingContainers == old(packingContainers) + w.packingContainers
        && packingItems == old(packingItems) + w.packingItems
        && drawn == w.drawn
        && (w.error.Some? ==> r == Failure(w.error.value) && manifests == old(manifests))
        && (w.error.None? ==>
              r == Success(()) && manifests == old(manifests)[manifestId := Completed(m, w.totalCost, unpackedItems)])
    {
      var manifest := Load(manifests, manifestId);
      if manifest.None? {
        return Failure(ManifestNotFound(manifestId));
      }
      var m := manifest.value;
      // Nothing writes the results while they are saved, so their states are read once.
      var totalCost, error := SaveContainerResults(m, ContainerValues(packingResults));
      if error.Some? {
        return Failure(error.value);
      }
      manifests := manifests[manifestId := Completed(m, totalCost, unpackedItems)];
      return Success(());
    }
  }
}
