/**
 * The packing entities: items (mutable, written in place by a packing algorithm), containers (set up once),
 * the result of one algorithm on one container, and the per-container list of such results. Each class has a
 * `Value()` view, a plain datatype, so that the packing service can be specified over values.
 */
module Entities {
  import opened Wrappers
  import opened Ordering

  /** An IEEE double that is either finite or one of NaN / +Infinity / -Infinity. Rounding is not modelled. */
  datatype Double = Finite(value: real) | NonFinite

  /** Three coordinates: a location (CoordX/Y/Z) or an orientation (PackDimX/Y/Z). */
  datatype Point = Point(x: real, y: real, z: real)

  const Origin: Point := Point(0.0, 0.0, 0.0)

  /** The constructor arguments of an item: everything that identifies and sizes it. */
  datatype ItemSpec = ItemSpec(
    id: string, dim1: real, dim2: real, dim3: real, quantity: int,
    itemTypeId: string, requiredFeatures: seq<string>, weight: real)

  /** The full state of an item, including what a packing algorithm wrote into it. */
  datatype ItemValue = ItemValue(spec: ItemSpec, volume: real, isPacked: bool, coord: Point, packDim: Point)

  /** The state of an item just constructed from `s`: volume fixed from the three dimensions, not packed. */
  function NewItemValue(s: ItemSpec): ItemValue {
    ItemValue(s, s.dim1 * s.dim2 * s.dim3, false, Origin, Origin)
  }

  /** An item to be packed, also holding where the algorithm put it. */
  class Item {
    // Properties the shown code never writes after construction are constants.
    const id: string
    const dim1: real
    const dim2: real
    const dim3: real
    const quantity: int
    const itemTypeId: string
    const requiredFeatures: seq<string>
    const weight: real
    // Volume has only a getter: it is fixed by the constructor.
    const volume: real
    // Written by a packing algorithm.
    var isPacked: bool
    var coord: Point
    var packDim: Point

    function Spec(): ItemSpec {
      ItemSpec(id, dim1, dim2, dim3, quantity, itemTypeId, requiredFeatures, weight)
    }

    function Value(): ItemValue
      reads this
    {
      ItemValue(Spec(), volume, isPacked, coord, packDim)
    }

    /** The volume was computed from the three dimensions, as the constructor does. */
    ghost predicate Valid() {
      volume == dim1 * dim2 * dim3
    }

    constructor (id: string, dim1: real, dim2: real, dim3: real, quantity: int,
                 itemTypeId: string, requiredFeatures: seq<string>, weight: real)
      ensures Spec() == ItemSpec(id, dim1, dim2, dim3, quantity, itemTypeId, requiredFeatures, weight)
      ensures Valid() && volume == dim1 * dim2 * dim3
      ensures Value() == NewItemValue(Spec())
    {
      this.id := id;
      this.dim1 := dim1;
      this.dim2 := dim2;
      this.dim3 := dim3;
      this.volume := dim1 * dim2 * dim3;
      this.quantity := quantity;
      this.itemTypeId := itemTypeId;
      this.requiredFeatures := requiredFeatures;
      this.weight := weight;
      isPacked := false;
      coord := Origin;
      packDim := Origin;
    }

    /** What a packing algorithm does to an item it places: it sets IsPacked, CoordX/Y/Z and PackDimX/Y/Z. */
    method Place(at: Point, dims: Point)
      modifies this
      ensures Value() == old(Value()).(isPacked := true, coord := at, packDim := dims)
    {
      isPacked := true;
      coord := at;
      packDim := dims;
    }
  }

  /** The identifying fields of each item in `s`. */
  function Specs(s: seq<Item>): (r: seq<ItemSpec>)
    ensures |r| == |s| && forall k :: 0 <= k < |s| ==> r[k] == s[k].Spec()
  {
    seq(|s|, k requires 0 <= k < |s| => s[k].Spec())
  }

  /** The current state of each item in `s`. */
  function ItemValues(s: seq<Item>): (r: seq<ItemValue>)
    reads s
    ensures |r| == |s| && forall k :: 0 <= k < |s| ==> r[k] == s[k].Value()
  {
    seq(|s|, k requires 0 <= k < |s| reads s => s[k].Value())
  }

  /** The identifying fields of each item value in `s`. */
  function SpecsOf(s: seq<ItemValue>): (r: seq<ItemSpec>)
    ensures |r| == |s| && forall k :: 0 <= k < |s| ==> r[k] == s[k].spec
  {
    seq(|s|, k requires 0 <= k < |s| => s[k].spec)
  }

  /** A container to pack into. Nothing in the shown code mutates one after it is set up. */
  datatype Container = Container(
    id: string, length: real, width: real, height: real, volume: real,
    containerTypeId: string, features: Option<seq<string>>, cost: real, maxWeight: real)

  /** The container volume Pack recomputes from the three sides. */
  function SideProduct(c: Container): real {
    c.length * c.width * c.height
  }

  /**
   * The container constructor: it keeps every argument and leaves Features unset. Its Volume, the product of
   * the three sides, is stated where containers are built from their types.
   */
  function NewContainer(id: string, length: real, width: real, height: real,
                        containerTypeId: string, cost: real, maxWeight: real): (c: Container)
    ensures c.id == id && c.containerTypeId == containerTypeId && c.cost == cost && c.maxWeight == maxWeight
    ensures c.length == length && c.width == width && c.height == height
    ensures c.features == None
  {
    Container(id, length, width, height, length * width * height, containerTypeId, None, cost, maxWeight)
  }

  /** The state of one algorithm's result on one container. */
  datatype AlgorithmResult = AlgorithmResult(
    algorithmId: int, algorithmName: string, isCompletePack: bool,
    packedItems: seq<ItemValue>, packTimeInMilliseconds: int,
    percentContainerVolumePacked: Double, percentItemVolumePacked: Double,
    unpackedItems: seq<ItemValue>)

  /**
   * One algorithm's result on one container. The two lists hold the states the items had when the algorithm
   * returned: nothing writes an item after that, so holding states instead of references changes nothing
   * that can be observed.
   */
  class AlgorithmPackingResult {
    var algorithmId: int
    var algorithmName: string
    var isCompletePack: bool
    var packedItems: seq<ItemValue>
    var packTimeInMilliseconds: int
    var percentContainerVolumePacked: Double
    var percentItemVolumePacked: Double
    var unpackedItems: seq<ItemValue>

    function Value(): AlgorithmResult
      reads this
    {
      AlgorithmResult(algorithmId, algorithmName, isCompletePack, packedItems, packTimeInMilliseconds,
                      percentContainerVolumePacked, percentItemVolumePacked, unpackedItems)
    }

    /** Pack's writes after Run returned: the measured time and the two percentages; the lists stay as they are. */
    method RecordMetrics(elapsedMs: int, containerPercent: Double, itemPercent: Double)
      modifies this
      ensures Value() == old(Value()).(packTimeInMilliseconds := elapsedMs,
        percentContainerVolumePacked := containerPercent, percentItemVolumePacked := itemPercent)
    {
      packTimeInMilliseconds := elapsedMs;
      percentContainerVolumePacked := containerPercent;
      percentItemVolumePacked := itemPercent;
    }

    /** Both item lists start empty; the other properties hold their defaults. */
    constructor ()
      ensures Value() == AlgorithmResult(0, "", false, [], 0, Finite(0.0), Finite(0.0), [])
    {
      algorithmId := 0;
      algorithmName := "";
      isCompletePack := false;
      packedItems := [];
      packTimeInMilliseconds := 0;
      percentContainerVolumePacked := Finite(0.0);
      percentItemVolumePacked := Finite(0.0);
      unpackedItems := [];
    }
  }

  /** The current state of each result in `rs`. */
  function AlgorithmValues(rs: seq<AlgorithmPackingResult>): (r: seq<AlgorithmResult>)
    reads rs
    ensures |r| == |rs| && forall k :: 0 <= k < |rs| ==> r[k] == rs[k].Value()
  {
    seq(|rs|, k requires 0 <= k < |rs| reads rs => rs[k].Value())
  }

  /** The names results are ordered by. */
  function Names(rs: seq<AlgorithmResult>): (r: seq<string>)
    ensures |r| == |rs| && forall k :: 0 <= k < |rs| ==> r[k] == rs[k].algorithmName
  {
    seq(|rs|, k requires 0 <= k < |rs| => rs[k].algorithmName)
  }

  /** `OrderBy(r => r.AlgorithmName)` on values. */
  function OrderByName(rs: seq<AlgorithmResult>): (r: seq<AlgorithmResult>)
    ensures |r| == |rs|
  {
    Reorder(rs, SortOrder(Names(rs)))
  }

  /** The state of a container's packing result. */
  datatype ContainerResult = ContainerResult(containerId: string, algorithmPackingResults: seq<AlgorithmResult>)

  class ContainerPackingResult {
    var containerId: string
    var algorithmPackingResults: seq<AlgorithmPackingResult>

    function Value(): ContainerResult
      reads this, algorithmPackingResults
    {
      ContainerResult(containerId, AlgorithmValues(algorithmPackingResults))
    }

    /** The list of algorithm results starts empty. */
    constructor ()
      ensures algorithmPackingResults == [] && containerId == ""
    {
      containerId := "";
      algorithmPackingResults := [];
    }

    method Add(r: AlgorithmPackingResult)
      modifies this
      ensures Value() == ContainerResult(old(containerId), old(Value().algorithmPackingResults) + [r.Value()])
      ensures containerId == old(containerId)
      ensures algorithmPackingResults == old(algorithmPackingResults) + [r]
    {
      algorithmPackingResults := algorithmPackingResults + [r];
    }

    /** Replaces the list by a copy sorted by algorithm name, stably. */
    method OrderByAlgorithmName()
      modifies this
      ensures Value() == ContainerResult(old(containerId), OrderByName(old(Value().algorithmPackingResults)))
      ensures containerId == old(containerId)
      ensures multiset(algorithmPackingResults) == multiset(old(algorithmPackingResults))
      ensures algorithmPackingResults
           == Reorder(old(algorithmPackingResults), SortOrder(Names(old(AlgorithmValues(algorithmPackingResults)))))
    {
      var before := AlgorithmValues(algorithmPackingResults);
      var order := SortOrder(Names(before));
      var sorted := Reorder(algorithmPackingResults, order);
      PermutationKeepsMultiset(algorithmPackingResults, order);
      label L:
      algorithmPackingResults := sorted;
      forall k | 0 <= k < |sorted|
        ensures sorted[k].Value() == before[order[k]]
      {
        assert sorted[k].Value() == old@L(sorted[k].Value());
      }
      assert AlgorithmValues(sorted) == Reorder(before, order);
    }
  }

  lemma RemoveAt(p: seq<nat>, q: seq<nat>, j: nat)
    requires p != [] && j < |q| && q[j] == p[0] && multiset(p) == multiset(q)
    ensures multiset(p[1..]) == multiset(q[..j] + q[j + 1..])
  {
    assert q == q[..j] + [q[j]] + q[j + 1..];
    assert p == [p[0]] + p[1..];
    calc {
      multiset(p[1..]);
      multiset(p) - multiset{p[0]};
      multiset(q) - multiset{p[0]};
      multiset(q[..j]) + multiset(q[j + 1..]);
      multiset(q[..j] + q[j + 1..]);
    }
  }

  lemma ReorderSplit<T>(s: seq<T>, q: seq<nat>, j: nat)
    requires InBounds(q, |s|) && j < |q|
    ensures InBounds(q[..j] + q[j + 1..], |s|)
    ensures multiset(Reorder(s, q)) == multiset(Reorder(s, q[..j] + q[j + 1..])) + multiset{s[q[j]]}
  {
    var q' := q[..j] + q[j + 1..];
    assert InBounds(q', |s|);
    assert Reorder(s, q) == Reorder(s, q[..j]) + [s[q[j]]] + Reorder(s, q[j + 1..]);
    assert Reorder(s, q') == Reorder(s, q[..j]) + Reorder(s, q[j + 1..]);
  }

  /** Two position lists holding the same positions pick the same elements. */
  lemma {:induction false} ReorderSameMultiset<T>(s: seq<T>, p: seq<nat>, q: seq<nat>)
    requires InBounds(p, |s|) && InBounds(q, |s|) && multiset(p) == multiset(q)
    ensures multiset(Reorder(s, p)) == multiset(Reorder(s, q))
    decreases |p|
  {
    if p != [] {
      assert p[0] in multiset(q);
      var j :| 0 <= j < |q| && q[j] == p[0];
      RemoveAt(p, q, j);
      ReorderSplit(s, q, j);
      ReorderSameMultiset(s, p[1..], q[..j] + q[j + 1..]);
      assert Reorder(s, p) == [s[p[0]]] + Reorder(s, p[1..]);
    }
  }

  /** Every algorithm result held by one of the container results in `cs`. */
  function AprsOf(cs: seq<ContainerPackingResult>): set<AlgorithmPackingResult>
    reads cs
  {
    set c, a | c in cs && a in c.algorithmPackingResults :: a
  }

  /** The current state of each container result in `cs`. */
  function ContainerValues(cs: seq<ContainerPackingResult>): (r: seq<ContainerResult>)
    reads cs, AprsOf(cs)
    ensures |r| == |cs| && forall k :: 0 <= k < |cs| ==> r[k] == cs[k].Value()
  {
    seq(|cs|, k requires 0 <= k < |cs| reads cs, AprsOf(cs) =>
      assert forall a :: a in cs[k].algorithmPackingResults ==> a in AprsOf(cs);
      cs[k].Value())
  }

  /** Reordering by a permutation of the positions keeps the same elements. */
  lemma PermutationKeepsMultiset<T>(s: seq<T>, p: seq<nat>)
    requires InBounds(p, |s|) && multiset(p) == multiset(Range(|s|))
    ensures multiset(Reorder(s, p)) == multiset(s)
  {
    assert InBounds(Range(|s|), |s|);
    ReorderSameMultiset(s, p, Range(|s|));
    assert Reorder(s, Range(|s|)) == s;
  }

  lemma ContainerValuesAppend(cs: seq<ContainerPackingResult>, c: ContainerPackingResult)
    ensures (cs + [c])[..|cs|] == cs
    ensures ContainerValues(cs + [c]) == ContainerValues(cs) + [c.Value()]
  {
    assert (cs + [c])[..|cs|] == cs;
  }
}
