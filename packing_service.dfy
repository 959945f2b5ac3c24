/**
 * The packing service: for each ordering of the manifest's containers, pack the containers one after the
 * other (each receiving the items the previous one left over), running every requested algorithm on each
 * container; keep the first ordering's result and stop once too many orderings brought no improvement.
 *
 * The single-container algorithm (EB-AFIT) is not part of this model: it is the parameter `run`, which says,
 * for an algorithm, a container and the items handed to it, which of those items it placed (where, and in
 * which orientation), which it left unpacked, and how long the stopwatch measured.
 */
module PackingService {
  import opened Wrappers
  import opened Ordering
  import opened Entities
  import opened DynamoToEntityMapper

  /** AlgorithmType.EB_AFIT. */
  const EB_AFIT: int := 1

  /** NO_IMPROVE_PERMUTATIONS when the MaximumPermutations variable is absent or does not parse. */
  const DEFAULT_NO_IMPROVE_PERMUTATIONS: int := 15

  const INVALID_ALGORITHM: string := "Invalid algorithm type."

  /** The threshold: the parsed MaximumPermutations value if there is one, otherwise the default. */
  function NoImprovePermutations(maximumPermutations: Option<int>): (t: int)
    ensures maximumPermutations.None? ==> t == DEFAULT_NO_IMPROVE_PERMUTATIONS
    ensures maximumPermutations.Some? ==> t == maximumPermutations.value
  {
    if maximumPermutations.Some? then maximumPermutations.value else DEFAULT_NO_IMPROVE_PERMUTATIONS
  }

  // ---------------------------------------------------------------------------------------------------------
  // Algorithms and the abstract single-container run

  datatype PackingAlgorithm = EbAfit

  function GetPackingAlgorithmFromTypeID(algorithmTypeID: int): (r: Result<PackingAlgorithm, string>)
    ensures r.Success? <==> algorithmTypeID == EB_AFIT
    ensures r.Failure? ==> r.error == INVALID_ALGORITHM
  {
    if algorithmTypeID == EB_AFIT then Success(EbAfit) else Failure(INVALID_ALGORITHM)
  }

  /** The item at position `index` of the list handed to the algorithm was placed at `coord`, oriented as `packDim`. */
  datatype Placement = Placement(index: nat, coord: Point, packDim: Point)

  /** What one run of an algorithm did, by positions in the item list it was given. */
  datatype RunOutcome = RunOutcome(
    algorithmId: int, algorithmName: string, placed: seq<Placement>, unplaced: seq<nat>, elapsedMs: nat)

  type RunFunction = (PackingAlgorithm, Container, seq<ItemSpec>) -> RunOutcome

  /** The run only refers to items it was given. */
  predicate OutcomeFits(o: RunOutcome, n: nat) {
    (forall k :: 0 <= k < |o.placed| ==> o.placed[k].index < n) &&
    (forall k :: 0 <= k < |o.unplaced| ==> o.unplaced[k] < n)
  }

  ghost predicate RunFits(run: RunFunction) {
    forall a, c, s :: OutcomeFits(run(a, c, s), |s|)
  }

  /** `IPackingAlgorithm.Run`: an algorithm only ever reports items it was given. */
  type Runner = run: RunFunction | RunFits(run)
    witness (a: PackingAlgorithm, c: Container, s: seq<ItemSpec>) => RunOutcome(0, "", [], [], 0)

  /** The state of the item at position `j`, built from `s`, after the placements `ps` were written in turn. */
  function StateAfter(s: ItemSpec, ps: seq<Placement>, j: nat): (v: ItemValue)
    ensures v.spec == s && v.volume == NewItemValue(s).volume
    ensures v.isPacked <==> exists k :: 0 <= k < |ps| && ps[k].index == j
    decreases |ps|
  {
    if ps == [] then NewItemValue(s)
    else
      var last := ps[|ps| - 1];
      var before := StateAfter(s, ps[..|ps| - 1], j);
      if last.index == j then before.(isPacked := true, coord := last.coord, packDim := last.packDim)
      else before
  }

  /** What Run returns: its own id and name, the placed items, the unplaced items, and whether none is left over. */
  function RunResult(a: PackingAlgorithm, c: Container, specs: seq<ItemSpec>, run: Runner): (r: AlgorithmResult)
    ensures r.isCompletePack <==> r.unpackedItems == []
  {
    var o := run(a, c, specs);
    AlgorithmResult(
      o.algorithmId, o.algorithmName, |o.unplaced| == 0,
      StatesAt(specs, o.placed, PlacedIndices(o.placed)),
      0, Finite(0.0), Finite(0.0),
      StatesAt(specs, o.placed, o.unplaced))
  }

  /** The positions the placements refer to, in placement order. */
  function PlacedIndices(ps: seq<Placement>): (r: seq<nat>)
    ensures |r| == |ps| && forall k :: 0 <= k < |ps| ==> r[k] == ps[k].index
  {
    seq(|ps|, k requires 0 <= k < |ps| => ps[k].index)
  }

  /** The states, after the placements `ps`, of the items at the positions `idx`. */
  function StatesAt(specs: seq<ItemSpec>, ps: seq<Placement>, idx: seq<nat>): (r: seq<ItemValue>)
    requires forall k :: 0 <= k < |idx| ==> idx[k] < |specs|
    ensures |r| == |idx| && forall k :: 0 <= k < |idx| ==> r[k] == StateAfter(specs[idx[k]], ps, idx[k])
  {
    seq(|idx|, k requires 0 <= k < |idx| => StateAfter(specs[idx[k]], ps, idx[k]))
  }

  /** `Sum(i => i.Volume)`, added up in list order. */
  function VolumeSum(s: seq<ItemValue>): real {
    if s == [] then 0.0 else VolumeSum(s[..|s| - 1]) + s[|s| - 1].volume
  }

  /** `part / whole * 100` in double arithmetic: not a finite number when `whole` is zero. */
  function Percent(part: real, whole: real): (p: Double)
    ensures p.Finite? <==> whole != 0.0
    ensures p.Finite? ==> p.value * whole == part * 100.0
  {
    if whole == 0.0 then NonFinite else Finite(part / whole * 100.0)
  }

  /** What Pack writes into a result after Run returned: the pack time and both percentages. */
  function WithMetrics(r: AlgorithmResult, c: Container, elapsedMs: nat): AlgorithmResult {
    var packed := VolumeSum(r.packedItems);
    var unpacked := VolumeSum(r.unpackedItems);
    r.(packTimeInMilliseconds := elapsedMs,
       percentContainerVolumePacked := Percent(packed, SideProduct(c)),
       percentItemVolumePacked := Percent(packed, packed + unpacked))
  }

  /** One algorithm's finished result on container `c`. */
  function AlgorithmRun(a: PackingAlgorithm, c: Container, specs: seq<ItemSpec>, run: Runner): AlgorithmResult
  {
    WithMetrics(RunResult(a, c, specs, run), c, run(a, c, specs).elapsedMs)
  }

  predicate AllKnown(ids: seq<int>) {
    forall k :: 0 <= k < |ids| ==> GetPackingAlgorithmFromTypeID(ids[k]).Success?
  }

  /** One finished result per algorithm id, in the order of the ids. */
  function Runs(ids: seq<int>, c: Container, specs: seq<ItemSpec>, run: Runner): (r: seq<AlgorithmResult>)
    requires AllKnown(ids)
    ensures |r| == |ids|
    ensures forall k :: 0 <= k < |ids| ==> r[k] == AlgorithmRun(GetPackingAlgorithmFromTypeID(ids[k]).value, c, specs, run)
  {
    if ids == [] then []
    else Runs(ids[..|ids| - 1], c, specs, run) + [AlgorithmRun(GetPackingAlgorithmFromTypeID(ids[|ids| - 1]).value, c, specs, run)]
  }

  /** Pack for one container: one result per requested algorithm, then ordered by algorithm name. */
  function PackOne(c: Container, specs: seq<ItemSpec>, ids: seq<int>, run: Runner): Result<ContainerResult, string>
  {
    if AllKnown(ids) then Success(ContainerResult(c.id, OrderByName(Runs(ids, c, specs, run))))
    else Failure(INVALID_ALGORITHM)
  }

  /** Pack: one container result per container, in container order. */
  function PackValue(cs: seq<Container>, specs: seq<ItemSpec>, ids: seq<int>, run: Runner)
    : (r: Result<seq<ContainerResult>, string>)
    ensures r.Success? ==> |r.value| == |cs|
  {
    if cs == [] then Success([])
    else
      match PackValue(cs[..|cs| - 1], specs, ids, run)
      case Failure(e) => Failure(e)
      case Success(prev) =>
        match PackOne(cs[|cs| - 1], specs, ids, run)
        case Failure(e) => Failure(e)
        case Success(cr) => Success(prev + [cr])
  }

  // ---------------------------------------------------------------------------------------------------------
  // The packing of one container ordering (PackManifest), on values

  datatype PackingValue = PackingValue(results: seq<ContainerResult>, unpackedItems: seq<ItemValue>)

  /**
   * The body of PackManifest's loop for one container: `Pack` on that container alone, its one result, and the
   * unpacked items of that result's first algorithm result (`[0]` on an empty list raises).
   */
  function PackStepValue(c: Container, specs: seq<ItemSpec>, ids: seq<int>, run: Runner)
    : Result<(ContainerResult, seq<ItemValue>), string>
  {
    match PackValue([c], specs, ids, run)
    case Failure(e) => Failure(e)
    case Success(rs) =>
      var cr := rs[0];
      if |cr.algorithmPackingResults| == 0 then Failure(INDEX_OUT_OF_RANGE)
      else Success((cr, cr.algorithmPackingResults[0].unpackedItems))
  }

  /** What PackManifest does with one container and the items handed to it. */
  type PackStepFunction = (Container, seq<ItemSpec>) -> Result<(ContainerResult, seq<ItemValue>), string>

  function StepOf(ids: seq<int>, run: Runner): PackStepFunction {
    (c: Container, specs: seq<ItemSpec>) => PackStepValue(c, specs, ids, run)
  }

  /**
   * PackManifest from the container at position `i` on, with `specs` the items still to pack, `acc` the results
   * so far and `unpacked` the last unpacked list.
   */
  function PackFrom(cs: seq<Container>, i: nat, specs: seq<ItemSpec>, step: PackStepFunction,
                    cancelled: nat -> bool, acc: seq<ContainerResult>, unpacked: seq<ItemValue>)
    : Result<PackingValue, string>
    decreases |cs| - i
  {
    if i >= |cs| || cancelled(i) then Success(PackingValue(acc, unpacked))
    else
      match step(cs[i], specs)
      case Failure(e) => Failure(e)
      case Success((cr, left)) =>
        if |left| == 0 then Success(PackingValue(acc + [cr], left))
        else PackFrom(cs, i + 1, SpecsOf(left), step, cancelled, acc + [cr], left)
  }

  /** One container further into PackManifest. */
  lemma PackFromStep(cs: seq<Container>, i: nat, specs: seq<ItemSpec>, step: PackStepFunction,
                     cancelled: nat -> bool, acc: seq<ContainerResult>, unpacked: seq<ItemValue>)
    requires i < |cs| && !cancelled(i) && step(cs[i], specs).Success?
    ensures var (cr, left) := step(cs[i], specs).value;
      PackFrom(cs, i, specs, step, cancelled, acc, unpacked)
      == if |left| == 0 then Success(PackingValue(acc + [cr], left))
         else PackFrom(cs, i + 1, SpecsOf(left), step, cancelled, acc + [cr], left)
  {
  }

  /** PackManifest on one container ordering: no results and no unpacked items before the first container. */
  function PackManifestValue(cs: seq<Container>, specs: seq<ItemSpec>, ids: seq<int>, run: Runner,
                             cancelled: nat -> bool): Result<PackingValue, string>
  {
    PackFrom(cs, 0, specs, StepOf(ids, run), cancelled, [], [])
  }

  // ---------------------------------------------------------------------------------------------------------
  // What Pack and PackManifest promise, on values

  /** Pack on one container: the run of every algorithm, ordered by name, under the container's own id. */
  lemma {:induction false} PackOneFacts(c: Container, specs: seq<ItemSpec>, ids: seq<int>, run: Runner)
    requires AllKnown(ids)
    ensures var cr := PackOne(c, specs, ids, run).value;
      && cr.containerId == c.id
      && |cr.algorithmPackingResults| == |ids|
      && multiset(cr.algorithmPackingResults) == multiset(Runs(ids, c, specs, run))
      && forall k :: 0 <= k < |cr.algorithmPackingResults| - 1 ==>
           LexLe(cr.algorithmPackingResults[k].algorithmName, cr.algorithmPackingResults[k + 1].algorithmName)
  {
    var rs := Runs(ids, c, specs, run);
    var p := SortOrder(Names(rs));
    PermutationKeepsMultiset(rs, p);
  }

  /**
   * One algorithm's finished result: the run's own id and name and time, copies of the given items in the order
   * the run reported them (the packed ones marked packed), and complete exactly when nothing is left over.
   */
  lemma AlgorithmRunItems(a: PackingAlgorithm, c: Container, specs: seq<ItemSpec>, run: Runner)
    ensures var r := AlgorithmRun(a, c, specs, run);
      var o := run(a, c, specs);
      && r.algorithmId == o.algorithmId && r.algorithmName == o.algorithmName
      && r.packTimeInMilliseconds == o.elapsedMs
      && (r.isCompletePack <==> r.unpackedItems == [])
      && |r.packedItems| == |o.placed| && |r.unpackedItems| == |o.unplaced|
      && (forall k :: 0 <= k < |o.placed| ==>
            && r.packedItems[k].spec == specs[o.placed[k].index]
            && r.packedItems[k].volume == specs[o.placed[k].index].dim1 * specs[o.placed[k].index].dim2 * specs[o.placed[k].index].dim3
            && r.packedItems[k].isPacked)
      && (forall k :: 0 <= k < |o.unplaced| ==>
            && r.unpackedItems[k].spec == specs[o.unplaced[k]]
            && r.unpackedItems[k].volume == specs[o.unplaced[k]].dim1 * specs[o.unplaced[k]].dim2 * specs[o.unplaced[k]].dim3)
  {
    var o := run(a, c, specs);
    forall k | 0 <= k < |o.placed|
      ensures StateAfter(specs[o.placed[k].index], o.placed, o.placed[k].index).isPacked
    {
      assert o.placed[k].index == o.placed[k].index;
    }
  }

  /**
   * What Pack writes after Run: the pack time and the two percentages (packed volume over the container's side
   * product, and over the volume of all items handed back, each times 100; neither a finite number when its
   * whole is zero), leaving the id, the name, completeness and both item lists as Run left them.
   */
  lemma WithMetricsFacts(r: AlgorithmResult, c: Container, elapsedMs: nat)
    ensures var m := WithMetrics(r, c, elapsedMs);
      var packed := VolumeSum(r.packedItems);
      var all := VolumeSum(r.packedItems) + VolumeSum(r.unpackedItems);
      && m.algorithmId == r.algorithmId && m.algorithmName == r.algorithmName
      && m.isCompletePack == r.isCompletePack
      && m.packedItems == r.packedItems && m.unpackedItems == r.unpackedItems
      && m.packTimeInMilliseconds == elapsedMs
      && (m.percentContainerVolumePacked.Finite? <==> c.length * c.width * c.height != 0.0)
      && (m.percentContainerVolumePacked.Finite? ==>
            m.percentContainerVolumePacked.value * (c.length * c.width * c.height) == packed * 100.0)
      && (m.percentItemVolumePacked.Finite? <==> all != 0.0)
      && (m.percentItemVolumePacked.Finite? ==> m.percentItemVolumePacked.value * all == packed * 100.0)
  {
  }

  /** Pack on a single container, which is what PackManifest calls, is the one-container packing. */
  lemma PackStepValueMeaning(c: Container, specs: seq<ItemSpec>, ids: seq<int>, run: Runner)
    ensures PackStepValue(c, specs, ids, run)
         == if !AllKnown(ids) then Failure(INVALID_ALGORITHM)
            else if ids == [] then Failure(INDEX_OUT_OF_RANGE)
            else Success((PackOne(c, specs, ids, run).value,
                          PackOne(c, specs, ids, run).value.algorithmPackingResults[0].unpackedItems))
  {
    assert [c][..0] == [];
    assert PackValue([], specs, ids, run) == Success([]);
    if AllKnown(ids) {
      var cr := PackOne(c, specs, ids, run).value;
      assert [] + [cr] == [cr];
      assert PackValue([c], specs, ids, run) == Success([cr]);
      assert |cr.algorithmPackingResults| == |ids|;
    }
  }

  /** The items a container's first algorithm result left unpacked (none when it has no result). */
  function Leftover(r: ContainerResult): seq<ItemValue> {
    if |r.algorithmPackingResults| == 0 then [] else r.algorithmPackingResults[0].unpackedItems
  }

  /** The items PackManifest hands to its `i`-th container: all of them first, then what the previous one left. */
  function InputAt(specs: seq<ItemSpec>, rs: seq<ContainerResult>, i: nat): seq<ItemSpec>
    requires i <= |rs|
  {
    if i == 0 then specs else SpecsOf(Leftover(rs[i - 1]))
  }

  /** A step hands on what the first algorithm result of its container left unpacked. */
  ghost predicate HandsOnLeftover(step: PackStepFunction) {
    forall c, specs :: step(c, specs).Success? ==> step(c, specs).value.1 == Leftover(step(c, specs).value.0)
  }

  lemma StepOfHandsOnLeftover(ids: seq<int>, run: Runner)
    ensures HandsOnLeftover(StepOf(ids, run))
  {
  }

  /** `r` is what `step` makes of container `c` given `input`, and it hands on its own leftover. */
  ghost predicate Link(step: PackStepFunction, c: Container, input: seq<ItemSpec>, r: ContainerResult) {
    step(c, input) == Success((r, Leftover(r)))
  }

  /** Each result in `rs` is the packing of the container at the same position with the items handed to it. */
  ghost predicate Chained(cs: seq<Container>, specs: seq<ItemSpec>, step: PackStepFunction, rs: seq<ContainerResult>) {
    |rs| <= |cs| &&
    forall i {:trigger InputAt(specs, rs, i)} :: 0 <= i < |rs| ==> Link(step, cs[i], InputAt(specs, rs, i), rs[i])
  }

  /** Adding a result leaves the items handed to the earlier containers as they were. */
  lemma InputAtExtend(specs: seq<ItemSpec>, acc: seq<ContainerResult>, cr: ContainerResult, j: nat)
    requires j <= |acc|
    ensures InputAt(specs, acc + [cr], j) == InputAt(specs, acc, j)
  {
    if j > 0 {
      assert (acc + [cr])[j - 1] == acc[j - 1];
    }
  }

  lemma ChainedExtend(cs: seq<Container>, specs: seq<ItemSpec>, step: PackStepFunction,
                      acc: seq<ContainerResult>, cr: ContainerResult)
    requires Chained(cs, specs, step, acc) && |acc| < |cs|
    requires Link(step, cs[|acc|], InputAt(specs, acc, |acc|), cr)
    ensures Chained(cs, specs, step, acc + [cr])
  {
    var acc' := acc + [cr];
    forall j | 0 <= j < |acc'|
      ensures Link(step, cs[j], InputAt(specs, acc', j), acc'[j])
    {
      InputAtExtend(specs, acc, cr, j);
      assert acc'[j] == if j < |acc| then acc[j] else cr;
    }
  }

  /** Bookkeeping for one more result: the earlier ones stay in place, all of them uncancelled. */
  lemma ExtendFacts(acc: seq<ContainerResult>, cr: ContainerResult, cancelled: nat -> bool)
    requires forall j :: 0 <= j < |acc| ==> !cancelled(j) && Leftover(acc[j]) != []
    requires !cancelled(|acc|)
    ensures (acc + [cr])[..|acc|] == acc && (acc + [cr])[|acc|] == cr
    ensures forall j :: 0 <= j < |acc + [cr]| ==> !cancelled(j)
    ensures forall j :: 0 <= j < |acc + [cr]| - 1 ==> Leftover((acc + [cr])[j]) != []
  {
    assert (acc + [cr])[..|acc|] == acc;
  }

  /**
   * What a finished PackManifest looks like: the results follow the containers, each linked to the items handed
   * to it; no container was packed after a cancellation; every result but the last left something over; the
   * unpacked items are the last leftover; and packing stopped for one of its three reasons.
   */
  ghost predicate Shape(cs: seq<Container>, specs: seq<ItemSpec>, step: PackStepFunction, cancelled: nat -> bool,
                        v: PackingValue) {
    && Chained(cs, specs, step, v.results)
    && (forall j :: 0 <= j < |v.results| ==> !cancelled(j))
    && (forall j :: 0 <= j < |v.results| - 1 ==> Leftover(v.results[j]) != [])
    && v.unpackedItems == (if v.results == [] then [] else Leftover(v.results[|v.results| - 1]))
    && (|v.results| == |cs| || cancelled(|v.results|) || (v.results != [] && v.unpackedItems == []))
  }

  /** PackManifest stopped with the results `acc`, for one of its three reasons. */
  lemma ShapeAtStop(cs: seq<Container>, specs: seq<ItemSpec>, step: PackStepFunction, cancelled: nat -> bool,
                    acc: seq<ContainerResult>, unpacked: seq<ItemValue>)
    requires Chained(cs, specs, step, acc)
    requires forall j :: 0 <= j < |acc| ==> !cancelled(j)
    requires forall j :: 0 <= j < |acc| - 1 ==> Leftover(acc[j]) != []
    requires unpacked == if acc == [] then [] else Leftover(acc[|acc| - 1])
    requires |acc| == |cs| || cancelled(|acc|) || (acc != [] && unpacked == [])
    ensures Shape(cs, specs, step, cancelled, PackingValue(acc, unpacked))
  {
  }

  lemma {:induction false} PackFromShape(cs: seq<Container>, i: nat, specs0: seq<ItemSpec>, specs: seq<ItemSpec>,
                                          step: PackStepFunction, cancelled: nat -> bool,
                                          acc: seq<ContainerResult>, unpacked: seq<ItemValue>)
    requires HandsOnLeftover(step)
    requires |acc| == i && Chained(cs, specs0, step, acc)
    requires forall j :: 0 <= j < |acc| ==> !cancelled(j) && Leftover(acc[j]) != []
    requires specs == InputAt(specs0, acc, i)
    requires unpacked == if acc == [] then [] else Leftover(acc[|acc| - 1])
    requires PackFrom(cs, i, specs, step, cancelled, acc, unpacked).Success?
    ensures Shape(cs, specs0, step, cancelled, PackFrom(cs, i, specs, step, cancelled, acc, unpacked).value)
    decreases |cs| - i
  {
    if i >= |cs| || cancelled(i) {
      ShapeAtStop(cs, specs0, step, cancelled, acc, unpacked);
      assert PackFrom(cs, i, specs, step, cancelled, acc, unpacked) == Success(PackingValue(acc, unpacked));
    } else {
      var r := step(cs[i], specs);
      assert r.Success?;
      PackFromStep(cs, i, specs, step, cancelled, acc, unpacked);
      var cr := r.value.0;
      var left := r.value.1;
      assert left == Leftover(cr);
      ChainedExtend(cs, specs0, step, acc, cr);
      ExtendFacts(acc, cr, cancelled);
      var acc' := acc + [cr];
      if |left| == 0 {
        ShapeAtStop(cs, specs0, step, cancelled, acc', left);
        assert PackFrom(cs, i, specs, step, cancelled, acc, unpacked) == Success(PackingValue(acc', left));
      } else {
        assert SpecsOf(left) == InputAt(specs0, acc', i + 1);
        PackFromShape(cs, i + 1, specs0, SpecsOf(left), step, cancelled, acc', left);
        assert PackFrom(cs, i, specs, step, cancelled, acc, unpacked)
            == PackFrom(cs, i + 1, SpecsOf(left), step, cancelled, acc', left);
      }
    }
  }

  /**
   * PackManifest on one ordering: the results follow the containers in order, each packed with exactly the items
   * the previous one left over (the first with all items); every result but the last left something over; it
   * stopped at the end of the containers, at a cancellation, or after a container that packed everything; and
   * the unpacked items are the last container's leftover, none when no container was packed.
   */
  lemma PackManifestShape(cs: seq<Container>, specs: seq<ItemSpec>, ids: seq<int>, run: Runner,
                          cancelled: nat -> bool)
    requires PackManifestValue(cs, specs, ids, run, cancelled).Success?
    ensures Shape(cs, specs, StepOf(ids, run), cancelled, PackManifestValue(cs, specs, ids, run, cancelled).value)
    ensures var v := PackManifestValue(cs, specs, ids, run, cancelled).value;
      forall j :: 0 <= j < |v.results| ==>
        && PackStepValue(cs[j], InputAt(specs, v.results, j), ids, run) == Success((v.results[j], Leftover(v.results[j])))
        && v.results[j].containerId == cs[j].id
  {
    StepOfHandsOnLeftover(ids, run);
    PackFromShape(cs, 0, specs, specs, StepOf(ids, run), cancelled, [], []);
    var v := PackManifestValue(cs, specs, ids, run, cancelled).value;
    forall j | 0 <= j < |v.results|
      ensures PackStepValue(cs[j], InputAt(specs, v.results, j), ids, run) == Success((v.results[j], Leftover(v.results[j])))
      ensures v.results[j].containerId == cs[j].id
    {
      assert Link(StepOf(ids, run), cs[j], InputAt(specs, v.results, j), v.results[j]);
      ContainerIdOfStep(cs[j], InputAt(specs, v.results, j), ids, run);
    }
  }

  /** The result PackManifest's loop body gets for a container carries that container's id. */
  lemma ContainerIdOfStep(c: Container, specs: seq<ItemSpec>, ids: seq<int>, run: Runner)
    requires PackStepValue(c, specs, ids, run).Success?
    ensures PackStepValue(c, specs, ids, run).value.0.containerId == c.id
  {
    PackStepValueMeaning(c, specs, ids, run);
    PackOneFacts(c, specs, ids, run);
  }

  lemma {:induction false} PackFromSucceeds(cs: seq<Container>, i: nat, specs: seq<ItemSpec>, ids: seq<int>,
                                             run: Runner, cancelled: nat -> bool, acc: seq<ContainerResult>,
                                             unpacked: seq<ItemValue>)
    requires AllKnown(ids) && ids != []
    ensures PackFrom(cs, i, specs, StepOf(ids, run), cancelled, acc, unpacked).Success?
    decreases |cs| - i
  {
    if i < |cs| && !cancelled(i) {
      PackStepValueMeaning(cs[i], specs, ids, run);
      var (cr, left) := PackStepValue(cs[i], specs, ids, run).value;
      if |left| != 0 {
        PackFromSucceeds(cs, i + 1, SpecsOf(left), ids, run, cancelled, acc + [cr], left);
      }
    }
  }

  /**
   * PackManifest fails exactly when it packs a first container with an unknown algorithm id (the error of the
   * lookup) or with no algorithm at all (the error of taking result `[0]`); with no container packed it returns
   * no results and no unpacked items, whatever the items were.
   */
  lemma PackManifestOutcome(cs: seq<Container>, specs: seq<ItemSpec>, ids: seq<int>, run: Runner,
                            cancelled: nat -> bool)
    ensures PackManifestValue(cs, specs, ids, run, cancelled).Failure?
        <==> |cs| > 0 && !cancelled(0) && (!AllKnown(ids) || ids == [])
    ensures PackManifestValue(cs, specs, ids, run, cancelled).Failure? ==>
      PackManifestValue(cs, specs, ids, run, cancelled).error
      == if !AllKnown(ids) then INVALID_ALGORITHM else INDEX_OUT_OF_RANGE
    ensures |cs| == 0 || cancelled(0) ==> PackManifestValue(cs, specs, ids, run, cancelled) == Success(PackingValue([], []))
  {
    if AllKnown(ids) && ids != [] {
      PackFromSucceeds(cs, 0, specs, ids, run, cancelled, [], []);
    } else if |cs| > 0 && !cancelled(0) {
      PackStepValueMeaning(cs[0], specs, ids, run);
    }
  }

  // ---------------------------------------------------------------------------------------------------------
  // ExecutePack's search over container orderings, on values

  /** The ids of the containers a packing used, in result order. */
  function ResultIds(v: PackingValue): (r: seq<string>)
    ensures |r| == |v.results| && forall k :: 0 <= k < |v.results| ==> r[k] == v.results[k].containerId
  {
    seq(|v.results|, k requires 0 <= k < |v.results| => v.results[k].containerId)
  }

  /** The summed cost of the manifest's containers whose id is among `ids`, added up in container order. */
  function CostOf(containers: seq<Container>, ids: seq<string>): real {
    if containers == [] then 0.0
    else
      var last := containers[|containers| - 1];
      CostOf(containers[..|containers| - 1], ids) + (if last.id in ids then last.cost else 0.0)
  }

  /**
   * Whether the candidate replaces the best result: the cost of the best is strictly greater than the
   * candidate's. As written, both costs are summed over the candidate's containers; `compareWithBest` sums
   * the best's own containers for its cost instead.
   */
  function Improves(containers: seq<Container>, best: PackingValue, candidate: PackingValue,
                    compareWithBest: bool): bool
  {
    var costOfPackedContainers := CostOf(containers, ResultIds(candidate));
    var costOfOptimalResult := CostOf(containers, ResultIds(if compareWithBest then best else candidate));
    costOfOptimalResult > costOfPackedContainers
  }

  /** The search state: the best result so far, the orderings since the last improvement, and the cancel flag. */
  datatype Search = Search(best: Option<PackingValue>, permutationsSinceLastImprovement: int, cancelRequested: bool)

  /** ExecutePack packs with the one algorithm EB-AFIT. */
  const ALGORITHMS: seq<int> := [EB_AFIT]

  /** What the cancellation token says while PackManifest runs: its state when PackManifest was called. */
  function Token(cancelRequested: bool): nat -> bool {
    (k: nat) => cancelRequested
  }

  /** PackManifest on one ordering, given whether cancellation was requested before it was called. */
  type Packer = (seq<Container>, bool) -> Result<PackingValue, string>

  function PackerOf(specs: seq<ItemSpec>, run: Runner): Packer {
    (order: seq<Container>, cancelRequested: bool) =>
      PackManifestValue(order, specs, ALGORITHMS, run, Token(cancelRequested))
  }

  /** One ordering packed: the first result is taken as it is; later ones replace it only when they improve on it. */
  function SearchStepValue(containers: seq<Container>, order: seq<Container>, pack: Packer, compareWithBest: bool,
                           s: Search): Result<Search, string>
  {
    match pack(order, s.cancelRequested)
    case Failure(e) => Failure(e)
    case Success(v) =>
      if s.best.None? then Success(s.(best := Some(v)))
      else if Improves(containers, s.best.value, v, compareWithBest) then
        Success(s.(best := Some(v), permutationsSinceLastImprovement := 0))
      else Success(s.(permutationsSinceLastImprovement := s.permutationsSinceLastImprovement + 1))
  }

  /**
   * The search from the ordering at position `j` on: before each ordering, once more than `threshold` orderings
   * brought no improvement, cancel and stop.
   */
  function SearchFrom(containers: seq<Container>, orders: seq<seq<Container>>, j: nat, pack: Packer,
                      threshold: int, compareWithBest: bool, s: Search): Result<Search, string>
    decreases |orders| - j
  {
    if j >= |orders| then Success(s)
    else if s.permutationsSinceLastImprovement > threshold then Success(s.(cancelRequested := true))
    else
      match SearchStepValue(containers, orders[j], pack, compareWithBest, s)
      case Failure(e) => Failure(e)
      case Success(next) => SearchFrom(containers, orders, j + 1, pack, threshold, compareWithBest, next)
  }

  /** ExecutePack's search: no result, a zero counter and no cancellation to begin with. */
  function SearchValue(containers: seq<Container>, orders: seq<seq<Container>>, specs: seq<ItemSpec>, run: Runner,
                       threshold: int, compareWithBest: bool): Result<Search, string>
  {
    SearchFrom(containers, orders, 0, PackerOf(specs, run), threshold, compareWithBest, Search(None, 0, false))
  }

  /** Packing an ordering with an uncancelled token never fails. */
  ghost predicate NeverFails(pack: Packer) {
    forall order :: pack(order, false).Success?
  }

  /** With the single algorithm EB-AFIT, PackManifest cannot fail. */
  lemma PackerNeverFails(specs: seq<ItemSpec>, run: Runner)
    ensures NeverFails(PackerOf(specs, run))
  {
    forall order: seq<Container>
      ensures PackerOf(specs, run)(order, false).Success?
    {
      PackManifestOutcome(order, specs, ALGORITHMS, run, Token(false));
    }
  }

  /** The packings of all the orderings, each with an uncancelled token. */
  function Packings(orders: seq<seq<Container>>, pack: Packer): (vs: seq<PackingValue>)
    requires NeverFails(pack)
    ensures |vs| == |orders| && forall m :: 0 <= m < |orders| ==> pack(orders[m], false) == Success(vs[m])
  {
    seq(|orders|, m requires 0 <= m < |orders| => pack(orders[m], false).value)
  }

  /** As written, the two costs are the same sum, so no candidate ever improves on the best. */
  lemma AsWrittenNeverImproves(containers: seq<Container>, best: PackingValue, candidate: PackingValue)
    ensures !Improves(containers, best, candidate, false)
  {
  }

  lemma {:induction false} AsWrittenFrom(containers: seq<Container>, orders: seq<seq<Container>>, j: nat,
                                          pack: Packer, threshold: int, s: Search)
    requires NeverFails(pack)
    requires 1 <= j <= |orders| && 0 <= threshold && j <= threshold + 2
    requires s.best.Some? && s.permutationsSinceLastImprovement == j - 1 && !s.cancelRequested
    ensures var n := if |orders| < threshold + 2 then |orders| else threshold + 2;
      SearchFrom(containers, orders, j, pack, threshold, false, s) == Success(Search(s.best, n - 1, |orders| > n))
    decreases |orders| - j
  {
    if j < |orders| && j - 1 <= threshold {
      var v := pack(orders[j], false).value;
      AsWrittenNeverImproves(containers, s.best.value, v);
      var next := s.(permutationsSinceLastImprovement := j);
      assert SearchStepValue(containers, orders[j], pack, false, s) == Success(next);
      AsWrittenFrom(containers, orders, j + 1, pack, threshold, next);
    }
  }

  /**
   * ExecutePack's search as written: the first ordering's result is kept and never replaced; each later ordering
   * adds one to the counter; so with n = min(|orders|, threshold + 2), exactly the first n orderings are packed
   * (none when the threshold is negative), the counter ends at n - 1, and cancellation is requested exactly when
   * orderings were left unpacked.
   */
  lemma SearchAsWritten(containers: seq<Container>, orders: seq<seq<Container>>, specs: seq<ItemSpec>, run: Runner,
                        threshold: int)
    ensures (PackerNeverFails(specs, run);
      var n := if threshold < 0 then 0 else if |orders| < threshold + 2 then |orders| else threshold + 2;
      SearchValue(containers, orders, specs, run, threshold, false)
      == Success(Search(if n == 0 then None
                        else Some(PackerOf(specs, run)(orders[0], false).value),
                        if n == 0 then 0 else n - 1, |orders| > n)))
  {
    var pack := PackerOf(specs, run);
    PackerNeverFails(specs, run);
    if |orders| > 0 && threshold >= 0 {
      var s := Search(Some(pack(orders[0], false).value), 0, false);
      assert SearchStepValue(containers, orders[0], pack, false, Search(None, 0, false)) == Success(s);
      AsWrittenFrom(containers, orders, 1, pack, threshold, s);
    }
  }

  /** `best` is one of `vs` and costs no more than any of them. */
  ghost predicate Cheapest(containers: seq<Container>, vs: seq<PackingValue>, best: PackingValue) {
    && (exists m :: 0 <= m < |vs| && best == vs[m])
    && forall m :: 0 <= m < |vs| ==> CostOf(containers, ResultIds(best)) <= CostOf(containers, ResultIds(vs[m]))
  }

  /** Taking the first result, then replacing it with any strictly cheaper one, keeps the cheapest seen so far. */
  lemma CheapestStep(containers: seq<Container>, vs: seq<PackingValue>, best: Option<PackingValue>, v: PackingValue)
    requires best.None? <==> vs == []
    requires best.Some? ==> Cheapest(containers, vs, best.value)
    ensures var next := if best.None? || Improves(containers, best.value, v, true) then v else best.value;
      Cheapest(containers, vs + [v], next)
  {
    var vs' := vs + [v];
    assert vs'[|vs|] == v;
    if best.Some? {
      var m :| 0 <= m < |vs| && best.value == vs[m];
      assert vs'[m] == vs[m];
      forall k | 0 <= k < |vs'|
        ensures k < |vs| ==> vs'[k] == vs[k]
      {
      }
    }
  }

  lemma {:induction false} ComparedFrom(containers: seq<Container>, orders: seq<seq<Container>>, j: nat,
                                         pack: Packer, threshold: int, s: Search)
    requires NeverFails(pack)
    requires j <= |orders| <= threshold
    requires 0 <= s.permutationsSinceLastImprovement <= j && !s.cancelRequested
    requires s.best.None? <==> j == 0
    requires s.best.Some? ==> Cheapest(containers, Packings(orders, pack)[..j], s.best.value)
    ensures var r := SearchFrom(containers, orders, j, pack, threshold, true, s);
      && r.Success? && !r.value.cancelRequested
      && (|orders| > 0 ==> r.value.best.Some? && Cheapest(containers, Packings(orders, pack), r.value.best.value))
    decreases |orders| - j
  {
    var vs := Packings(orders, pack);
    if j < |orders| {
      var v := vs[j];
      var next := if s.best.None? then s.(best := Some(v))
        else if Improves(containers, s.best.value, v, true) then s.(best := Some(v), permutationsSinceLastImprovement := 0)
        else s.(permutationsSinceLastImprovement := s.permutationsSinceLastImprovement + 1);
      assert SearchStepValue(containers, orders[j], pack, true, s) == Success(next);
      assert SearchFrom(containers, orders, j, pack, threshold, true, s)
          == SearchFrom(containers, orders, j + 1, pack, threshold, true, next);
      CheapestStep(containers, vs[..j], s.best, v);
      assert vs[..j] + [v] == vs[..j + 1];
      ComparedFrom(containers, orders, j + 1, pack, threshold, next);
    } else {
      assert vs[..j] == vs;
    }
  }

  /**
   * The search with the cost of the best taken over the best's own containers: with a threshold at least the
   * number of orderings, it packs them all and ends with the cheapest of their packings.
   */
  lemma SearchKeepsCheapest(containers: seq<Container>, orders: seq<seq<Container>>, specs: seq<ItemSpec>,
                            run: Runner, threshold: int)
    requires |orders| <= threshold
    ensures (PackerNeverFails(specs, run);
      var r := SearchValue(containers, orders, specs, run, threshold, true);
      && r.Success? && !r.value.cancelRequested
      && (|orders| > 0 ==>
            r.value.best.Some? && Cheapest(containers, Packings(orders, PackerOf(specs, run)), r.value.best.value)))
  {
    PackerNeverFails(specs, run);
    ComparedFrom(containers, orders, 0, PackerOf(specs, run), threshold, Search(None, 0, false));
  }

  /**
   * Two containers, A costing 2 and B costing 1: a best result packed into A and a candidate packed into B.
   * Summing the best's containers, the candidate improves on it; as written it does not.
   */
  lemma CostComparisonCounterexample()
    ensures var a := Container("A", 1.0, 1.0, 1.0, 1.0, "t", None, 2.0, 0.0);
      var b := Container("B", 1.0, 1.0, 1.0, 1.0, "t", None, 1.0, 0.0);
      var best := PackingValue([ContainerResult("A", [])], []);
      var candidate := PackingValue([ContainerResult("B", [])], []);
      Improves([a, b], best, candidate, true) && !Improves([a, b], best, candidate, false)
  {
    var a := Container("A", 1.0, 1.0, 1.0, 1.0, "t", None, 2.0, 0.0);
    var b := Container("B", 1.0, 1.0, 1.0, 1.0, "t", None, 1.0, 0.0);
    assert [a, b][..1] == [a] && [a][..0] == [];
    assert ResultIds(PackingValue([ContainerResult("A", [])], [])) == ["A"];
    assert ResultIds(PackingValue([ContainerResult("B", [])], [])) == ["B"];
    assert "A"[0] != "B"[0];
    assert CostOf([a, b], ["A"]) == CostOf([a], ["A"]) + 0.0 == 2.0;
    assert CostOf([a, b], ["B"]) == CostOf([a], ["B"]) + 1.0 == 1.0;
  }

  // ---------------------------------------------------------------------------------------------------------
  // The object-level operations

  /**
   * Pack's per-algorithm copy of the items: `new Item(...)` with every constructor argument taken from the
   * item being copied; the copy reads nothing else of it.
   */
  method CloneItems(itemsToPack: seq<ItemSpec>) returns (items: seq<Item>)
    ensures Specs(items) == itemsToPack
    ensures forall k :: 0 <= k < |items| ==> fresh(items[k]) && items[k].Value() == NewItemValue(items[k].Spec())
    ensures forall a, b :: 0 <= a < b < |items| ==> items[a] != items[b]
  {
    items := [];
    var k := 0;
    while k < |itemsToPack|
      invariant 0 <= k <= |itemsToPack| && |items| == k
      invariant forall m :: 0 <= m < k ==> items[m].Spec() == itemsToPack[m]
      invariant forall m :: 0 <= m < k ==> fresh(items[m]) && items[m].Value() == NewItemValue(items[m].Spec())
      invariant forall a, b :: 0 <= a < b < k ==> items[a] != items[b]
    {
      var item := itemsToPack[k];
      var copy := new Item(item.id, item.dim1, item.dim2, item.dim3, item.quantity, item.itemTypeId,
                           item.requiredFeatures, item.weight);
      items := items + [copy];
      k := k + 1;
    }
  }

  /** The algorithm writing its placements, in turn, into the items it was given. */
  method WritePlacements(items: seq<Item>, ps: seq<Placement>)
    requires forall k :: 0 <= k < |ps| ==> ps[k].index < |items|
    requires forall k :: 0 <= k < |items| ==> items[k].Value() == NewItemValue(items[k].Spec())
    requires forall x, y :: 0 <= x < y < |items| ==> items[x] != items[y]
    modifies set k | 0 <= k < |items| :: items[k]
    ensures forall j :: 0 <= j < |items| ==> items[j].Value() == StateAfter(items[j].Spec(), ps, j)
  {
    var i := 0;
    while i < |ps|
      invariant 0 <= i <= |ps|
      invariant forall j :: 0 <= j < |items| ==> items[j].Value() == StateAfter(items[j].Spec(), ps[..i], j)
    {
      var p := ps[i];
      assert ps[..i + 1][..i] == ps[..i];
      items[p.index].Place(p.coord, p.packDim);
      i := i + 1;
    }
    assert ps[..|ps|] == ps;
  }

  /**
   * `algorithm.Run(container, items, ct)`: the algorithm writes the placements into the items it was given
   * and returns a new result listing those items, placed ones first in placement order.
   */
  method Run(a: PackingAlgorithm, c: Container, items: seq<Item>, run: Runner) returns (r: AlgorithmPackingResult)
    requires forall k :: 0 <= k < |items| ==> items[k].Value() == NewItemValue(items[k].Spec())
    requires forall x, y :: 0 <= x < y < |items| ==> items[x] != items[y]
    modifies set k | 0 <= k < |items| :: items[k]
    ensures fresh(r)
    ensures r.Value() == RunResult(a, c, Specs(items), run)
  {
    var specs := Specs(items);
    var o := run(a, c, specs);
    assert OutcomeFits(o, |specs|);
    WritePlacements(items, o.placed);
    var packed := ItemValues(Pick(items, PlacedIndices(o.placed)));
    var unpacked := ItemValues(Pick(items, o.unplaced));
    PickedStates(items, o.placed, PlacedIndices(o.placed));
    PickedStates(items, o.placed, o.unplaced);
    assert RunResult(a, c, specs, run) == AlgorithmResult(o.algorithmId, o.algorithmName, |o.unplaced| == 0, packed,
                                                          0, Finite(0.0), Finite(0.0), unpacked);
    r := NewAlgorithmResult(o, packed, unpacked);
  }

  /** The result object the algorithm returns: its ids, its two item lists and whether nothing was left over. */
  method NewAlgorithmResult(o: RunOutcome, packed: seq<ItemValue>, unpacked: seq<ItemValue>)
    returns (r: AlgorithmPackingResult)
    ensures fresh(r)
    ensures r.Value() == AlgorithmResult(o.algorithmId, o.algorithmName, |o.unplaced| == 0, packed,
                                         0, Finite(0.0), Finite(0.0), unpacked)
  {
    r := new AlgorithmPackingResult();
    r.algorithmId := o.algorithmId;
    r.algorithmName := o.algorithmName;
    r.packedItems := packed;
    r.unpackedItems := unpacked;
    r.isCompletePack := |o.unplaced| == 0;
  }

  /** The items at the positions `idx`. */
  function Pick(items: seq<Item>, idx: seq<nat>): (r: seq<Item>)
    requires forall k :: 0 <= k < |idx| ==> idx[k] < |items|
    ensures |r| == |idx| && forall k :: 0 <= k < |idx| ==> r[k] == items[idx[k]]
  {
    seq(|idx|, k requires 0 <= k < |idx| => items[idx[k]])
  }

  /** Once the placements are written, the picked items hold the states the specification assigns them. */
  lemma PickedStates(items: seq<Item>, ps: seq<Placement>, idx: seq<nat>)
    requires forall k :: 0 <= k < |idx| ==> idx[k] < |items|
    requires forall j :: 0 <= j < |items| ==> items[j].Value() == StateAfter(items[j].Spec(), ps, j)
    ensures ItemValues(Pick(items, idx)) == StatesAt(Specs(items), ps, idx)
  {
    var picked := Pick(items, idx);
    forall k | 0 <= k < |idx|
      ensures ItemValues(picked)[k] == StatesAt(Specs(items), ps, idx)[k]
    {
      assert picked[k] == items[idx[k]];
    }
  }

  /** Pack's bookkeeping after Run returned: the lines that set the pack time and the two volume percentages. */
  method FillMetrics(algorithmResult: AlgorithmPackingResult, container: Container, elapsedMs: nat)
    modifies algorithmResult
    ensures algorithmResult.Value() == WithMetrics(old(algorithmResult.Value()), container, elapsedMs)
  {
    ghost var before := algorithmResult.Value();
    var containerVolume := container.length * container.width * container.height;
    assert containerVolume == SideProduct(container);
    var itemVolumePacked := VolumeSum(algorithmResult.packedItems);
    var itemVolumeUnpacked := VolumeSum(algorithmResult.unpackedItems);
    assert itemVolumePacked == VolumeSum(before.packedItems) && itemVolumeUnpacked == VolumeSum(before.unpackedItems);
    algorithmResult.RecordMetrics(elapsedMs, Percent(itemVolumePacked, containerVolume),
                                  Percent(itemVolumePacked, itemVolumePacked + itemVolumeUnpacked));
  }

  /**
   * The task Pack runs for one container and one algorithm: copy the items, run the algorithm on the copies
   * under a stopwatch, then record the pack time and the two volume percentages.
   */
  method RunAlgorithm(algorithm: PackingAlgorithm, container: Container, itemsToPack: seq<ItemSpec>, run: Runner)
    returns (algorithmResult: AlgorithmPackingResult)
    ensures fresh(algorithmResult)
    ensures algorithmResult.Value() == AlgorithmRun(algorithm, container, itemsToPack, run)
  {
    var items := CloneItems(itemsToPack);
    var elapsedMs := run(algorithm, container, itemsToPack).elapsedMs;
    algorithmResult := Run(algorithm, container, items, run);
    FillMetrics(algorithmResult, container, elapsedMs);
  }

  /** Pack fails exactly when there is a container and some requested algorithm id is unknown. */
  lemma {:induction false} PackValueFails(cs: seq<Container>, specs: seq<ItemSpec>, ids: seq<int>, run: Runner)
    ensures PackValue(cs, specs, ids, run).Failure? <==> cs != [] && !AllKnown(ids)
    decreases |cs|
  {
    if cs != [] {
      PackValueFails(cs[..|cs| - 1], specs, ids, run);
    }
  }

  lemma AllKnownExtend(ids: seq<int>, m: nat)
    requires m < |ids| && AllKnown(ids[..m]) && GetPackingAlgorithmFromTypeID(ids[m]).Success?
    ensures AllKnown(ids[..m + 1]) && ids[..m + 1][..m] == ids[..m]
  {
    assert ids[..m + 1][..m] == ids[..m];
  }

  /**
   * The task Pack runs for one container: a new result carrying the container's id, one algorithm result per
   * requested algorithm id, then the list ordered by algorithm name.
   */
  method PackContainer(container: Container, itemsToPack: seq<ItemSpec>, algorithmTypeIDs: seq<int>, run: Runner)
    returns (result: Result<ContainerPackingResult, string>)
    ensures result.Failure? <==> PackOne(container, itemsToPack, algorithmTypeIDs, run).Failure?
    ensures result.Failure? ==> result.error == INVALID_ALGORITHM
    ensures result.Success? ==> fresh(result.value)
    ensures result.Success? ==> PackOne(container, itemsToPack, algorithmTypeIDs, run) == Success(result.value.Value())
  {
    var containerPackingResult := new ContainerPackingResult();
    containerPackingResult.containerId := container.id;
    var m := 0;
    while m < |algorithmTypeIDs|
      invariant 0 <= m <= |algorithmTypeIDs| && AllKnown(algorithmTypeIDs[..m])
      invariant fresh(containerPackingResult)
      invariant containerPackingResult.Value()
             == ContainerResult(container.id, Runs(algorithmTypeIDs[..m], container, itemsToPack, run))
    {
      var algorithm := GetPackingAlgorithmFromTypeID(algorithmTypeIDs[m]);
      if algorithm.Failure? {
        return Failure(algorithm.error);
      }
      AllKnownExtend(algorithmTypeIDs, m);
      var algorithmResult := RunAlgorithm(algorithm.value, container, itemsToPack, run);
      containerPackingResult.Add(algorithmResult);
      m := m + 1;
    }
    assert algorithmTypeIDs[..m] == algorithmTypeIDs;
    containerPackingResult.OrderByAlgorithmName();
    return Success(containerPackingResult);
  }

  /** One step of Pack: pack one more container and add its result after the results so far. */
  method PackNext(results: seq<ContainerPackingResult>, container: Container, itemsToPack: seq<ItemSpec>,
                  algorithmTypeIDs: seq<int>, run: Runner)
    returns (next: Result<seq<ContainerPackingResult>, string>)
    ensures next.Failure? <==> PackOne(container, itemsToPack, algorithmTypeIDs, run).Failure?
    ensures next.Failure? ==> next.error == INVALID_ALGORITHM
    ensures next.Success? ==> |next.value| == |results| + 1 && next.value[..|results|] == results
    ensures next.Success? ==>
      ContainerValues(next.value) == old(ContainerValues(results)) + [PackOne(container, itemsToPack, algorithmTypeIDs, run).value]
  {
    ghost var before := ContainerValues(results);
    var containerPackingResult := PackContainer(container, itemsToPack, algorithmTypeIDs, run);
    if containerPackingResult.Failure? {
      return Failure(containerPackingResult.error);
    }
    assert ContainerValues(results) == before;
    ContainerValuesAppend(results, containerPackingResult.value);
    next := Success(results + [containerPackingResult.value]);
  }

  /**
   * Pack: for each container, the result of packing the items into that container alone with every
   * requested algorithm, in container order.
   */
  method Pack(containers: seq<Container>, itemsToPack: seq<ItemSpec>, algorithmTypeIDs: seq<int>, run: Runner)
    returns (result: Result<seq<ContainerPackingResult>, string>)
    ensures result.Failure? <==> PackValue(containers, itemsToPack, algorithmTypeIDs, run).Failure?
    ensures result.Failure? ==> result.error == INVALID_ALGORITHM
    ensures result.Success? ==>
      PackValue(containers, itemsToPack, algorithmTypeIDs, run) == Success(ContainerValues(result.value))
  {
    var results: seq<ContainerPackingResult> := [];
    var n := 0;
    while n < |containers|
      invariant 0 <= n <= |containers| && |results| == n
      invariant PackValue(containers[..n], itemsToPack, algorithmTypeIDs, run) == Success(ContainerValues(results))
    {
      var next := PackNext(results, containers[n], itemsToPack, algorithmTypeIDs, run);
      if next.Failure? {
        PackValueFails(containers, itemsToPack, algorithmTypeIDs, run);
        return Failure(next.error);
      }
      assert containers[..n + 1][..n] == containers[..n];
      results := next.value;
      n := n + 1;
    }
    assert containers[..n] == containers;
    return Success(results);
  }
  /** `PackingResult`: the container results of one ordering and the items left over at its end. */
  datatype PackingResult = PackingResult(results: seq<ContainerPackingResult>, unpackedItems: seq<ItemValue>)

  function ResultValue(p: PackingResult): PackingValue
    reads p.results, AprsOf(p.results)
  {
    PackingValue(ContainerValues(p.results), p.unpackedItems)
  }

  /**
   * The first half of PackManifest's loop body: `Pack` on the one container, its one result and the unpacked
   * items of that result's first algorithm result.
   */
  method PackAlone(container: Container, items: seq<ItemSpec>, algos: seq<int>, run: Runner)
    returns (packed: Result<(ContainerPackingResult, seq<ItemValue>), string>)
    ensures packed.Failure? <==> PackStepValue(container, items, algos, run).Failure?
    ensures packed.Failure? ==> packed.error == PackStepValue(container, items, algos, run).error
    ensures packed.Success? ==>
      PackStepValue(container, items, algos, run) == Success((packed.value.0.Value(), packed.value.1))
  {
    var results := Pack([container], items, algos, run);
    if results.Failure? {
      return Failure(results.error);
    }
    var containerResult := results.value[0];
    assert ContainerValues(results.value)[0] == containerResult.Value();
    if |containerResult.algorithmPackingResults| == 0 {
      return Failure(INDEX_OUT_OF_RANGE);
    }
    var packingResult := containerResult.algorithmPackingResults[0];
    assert AlgorithmValues(containerResult.algorithmPackingResults)[0] == packingResult.Value();
    return Success((containerResult, packingResult.unpackedItems));
  }

  /** One pass of PackManifest's loop: pack one container and add its result after the results so far. */
  method PackStep(packingResults: seq<ContainerPackingResult>, container: Container, items: seq<ItemSpec>,
                  algos: seq<int>, run: Runner)
    returns (next: Result<(seq<ContainerPackingResult>, seq<ItemValue>), string>)
    ensures next.Failure? <==> PackStepValue(container, items, algos, run).Failure?
    ensures next.Failure? ==> next.error == PackStepValue(container, items, algos, run).error
    ensures next.Success? ==> |next.value.0| == |packingResults| + 1 && next.value.0[..|packingResults|] == packingResults
    ensures next.Success? ==>
      ContainerValues(next.value.0) == old(ContainerValues(packingResults)) + [PackStepValue(container, items, algos, run).value.0]
    ensures next.Success? ==> next.value.1 == PackStepValue(container, items, algos, run).value.1
  {
    ghost var before := ContainerValues(packingResults);
    var packed := PackAlone(container, items, algos, run);
    if packed.Failure? {
      return Failure(packed.error);
    }
    assert ContainerValues(packingResults) == before;
    ContainerValuesAppend(packingResults, packed.value.0);
    return Success((packingResults + [packed.value.0], packed.value.1));
  }

  /**
   * PackManifest: pack the containers in the given order, each with the items the previous one left
   * unpacked, stopping before a container once cancellation is requested and after a container whose first
   * algorithm result left nothing unpacked.
   */
  method PackManifest(containers: seq<Container>, items: seq<ItemSpec>, algos: seq<int>, run: Runner,
                      cancelled: nat -> bool)
    returns (result: Result<PackingResult, string>)
    ensures result.Failure? <==> PackManifestValue(containers, items, algos, run, cancelled).Failure?
    ensures result.Failure? ==> result.error == PackManifestValue(containers, items, algos, run, cancelled).error
    ensures result.Success? ==>
      PackManifestValue(containers, items, algos, run, cancelled) == Success(ResultValue(result.value))
  {
    var unpackedItems: seq<ItemValue> := [];
    var packingResults: seq<ContainerPackingResult> := [];
    var toPack := items;
    var i := 0;
    while i < |containers|
      invariant 0 <= i <= |containers| && |packingResults| == i
      invariant PackManifestValue(containers, items, algos, run, cancelled)
             == PackFrom(containers, i, toPack, StepOf(algos, run), cancelled, ContainerValues(packingResults), unpackedItems)
    {
      if cancelled(i) {
        break;
      }
      var next := PackStep(packingResults, containers[i], toPack, algos, run);
      if next.Failure? {
        return Failure(next.error);
      }
      PackFromStep(containers, i, toPack, StepOf(algos, run), cancelled, ContainerValues(packingResults), unpackedItems);
      packingResults := next.value.0;
      unpackedItems := next.value.1;
      if |unpackedItems| == 0 {
        result := Success(PackingResult(packingResults, unpackedItems));
        assert ResultValue(result.value) == PackingValue(ContainerValues(packingResults), unpackedItems);
        return;
      }
      toPack := SpecsOf(unpackedItems);
      i := i + 1;
    }
    result := Success(PackingResult(packingResults, unpackedItems));
    assert ResultValue(result.value) == PackingValue(ContainerValues(packingResults), unpackedItems);
  }

  /** The value of the best result so far, if there is one. */
  function BestValue(best: Option<PackingResult>): (v: Option<PackingValue>)
    reads if best.Some? then best.value.results else []
    reads if best.Some? then AprsOf(best.value.results) else {}
    ensures v.Some? <==> best.Some?
  {
    if best.None? then None else Some(ResultValue(best.value))
  }

  /** The ids of the containers in `rs`, in order: what `Results.Any(x => x.ContainerID == c.ID)` looks at. */
  function ContainerIds(rs: seq<ContainerPackingResult>): (r: seq<string>)
    reads rs
    ensures |r| == |rs| && forall k :: 0 <= k < |rs| ==> r[k] == rs[k].containerId
  {
    seq(|rs|, k requires 0 <= k < |rs| reads rs => rs[k].containerId)
  }

  lemma ContainerIdsOfValue(p: PackingResult)
    ensures ContainerIds(p.results) == ResultIds(ResultValue(p))
  {
    assert |ContainerIds(p.results)| == |ResultIds(ResultValue(p))|;
    forall k | 0 <= k < |p.results|
      ensures ContainerIds(p.results)[k] == ResultIds(ResultValue(p))[k]
    {
      assert ContainerValues(p.results)[k] == p.results[k].Value();
    }
  }

  /** PackManifest on one ordering with the search's cancellation token; the best result so far is left alone. */
  method PackOrdering(order: seq<Container>, items: seq<ItemSpec>, run: Runner, cancelRequested: bool,
                      best: Option<PackingResult>)
    returns (packed: Result<PackingResult, string>)
    ensures (packed.Failure? <==> PackerOf(items, run)(order, cancelRequested).Failure?)
    ensures packed.Failure? ==> packed.error == PackerOf(items, run)(order, cancelRequested).error
    ensures packed.Success? ==> PackerOf(items, run)(order, cancelRequested) == Success(ResultValue(packed.value))
    ensures BestValue(best) == old(BestValue(best))
  {
    ghost var before := if best.Some? then ContainerValues(best.value.results) else [];
    packed := PackManifest(order, items, ALGORITHMS, run, Token(cancelRequested));
    assert best.Some? ==> ContainerValues(best.value.results) == before;
  }

  /**
   * One pass of ExecutePack's loop after the threshold check: pack the ordering, take the result if there is
   * none yet, otherwise compare costs and either replace the best and reset the counter or add one to it.
   */
  method SearchStep(containers: seq<Container>, order: seq<Container>, items: seq<ItemSpec>, run: Runner,
                    compareWithBest: bool, best: Option<PackingResult>, counter: int, cancelRequested: bool)
    returns (next: Result<(Option<PackingResult>, int), string>)
    ensures var expected := SearchStepValue(containers, order, PackerOf(items, run), compareWithBest,
                                            Search(old(BestValue(best)), counter, cancelRequested));
      && (next.Failure? <==> expected.Failure?)
      && (next.Failure? ==> next.error == expected.error)
      && (next.Success? ==> expected == Success(Search(BestValue(next.value.0), next.value.1, cancelRequested)))
  {
    ghost var s := Search(BestValue(best), counter, cancelRequested);
    var shuffledPackResult := PackOrdering(order, items, run, cancelRequested, best);
    if shuffledPackResult.Failure? {
      return Failure(shuffledPackResult.error);
    }
    var candidate := shuffledPackResult.value;
    ghost var v := ResultValue(candidate);
    if best.None? {
      assert BestValue(Some(candidate)) == Some(v);
      return Success((Some(candidate), counter));
    }
    var costOfPackedContainers := CostOf(containers, ContainerIds(candidate.results));
    var costOfOptimalResult :=
      CostOf(containers, ContainerIds(if compareWithBest then best.value.results else candidate.results));
    ContainerIdsOfValue(candidate);
    ContainerIdsOfValue(best.value);
    if costOfOptimalResult > costOfPackedContainers {
      assert Improves(containers, s.best.value, v, compareWithBest);
      assert BestValue(Some(candidate)) == Some(v);
      return Success((Some(candidate), 0));
    }
    assert !Improves(containers, s.best.value, v, compareWithBest);
    return Success((best, counter + 1));
  }

  /**
   * ExecutePack's loop over the container orderings: stop with a cancellation once the counter exceeds the
   * threshold, otherwise pack the next ordering and keep or replace the best result.
   */
  method SearchOrders(containers: seq<Container>, orders: seq<seq<Container>>, items: seq<ItemSpec>, run: Runner,
                      threshold: int, compareWithBest: bool)
    returns (result: Result<(Option<PackingResult>, int, bool), string>)
    ensures var expected := SearchValue(containers, orders, items, run, threshold, compareWithBest);
      && (result.Failure? <==> expected.Failure?)
      && (result.Failure? ==> result.error == expected.error)
      && (result.Success? ==>
            expected == Success(Search(BestValue(result.value.0), result.value.1, result.value.2)))
  {
    var mostOptimalResult: Option<PackingResult> := None;
    var permutationsSinceLastImprovement := 0;
    var cancelRequested := false;
    var j := 0;
    while j < |orders|
      invariant 0 <= j <= |orders|
      invariant SearchValue(containers, orders, items, run, threshold, compareWithBest)
             == SearchFrom(containers, orders, j, PackerOf(items, run), threshold, compareWithBest,
                           Search(BestValue(mostOptimalResult), permutationsSinceLastImprovement, cancelRequested))
    {
      if permutationsSinceLastImprovement > threshold {
        cancelRequested := true;
        break;
      }
      var next := SearchStep(containers, orders[j], items, run, compareWithBest,
                             mostOptimalResult, permutationsSinceLastImprovement, cancelRequested);
      if next.Failure? {
        return Failure(next.error);
      }
      mostOptimalResult := next.value.0;
      permutationsSinceLastImprovement := next.value.1;
      j := j + 1;
    }
    return Success((mostOptimalResult, permutationsSinceLastImprovement, cancelRequested));
  }

  // ---------------------------------------------------------------------------------------------------------
  // ExecutePack

  /** What ExecutePack loads: the manifest, its containers, and its items as constructor arguments. */
  datatype Loaded = Loaded(manifest: Manifest, containers: seq<Container>, specs: seq<ItemSpec>)

  /**
   * GetManifestById, GetContainersForManifest and GetItemsForManifest in turn, with identifiers drawn from
   * `first` on: the first exception they raise, or what they loaded.
   */
  function LoadValue(manifests: map<string, Manifest>, catalog: Catalog, guid: nat -> string, first: nat,
                     manifestId: string): Result<Loaded, string>
  {
    if manifestId !in manifests then Failure(ManifestNotFound(manifestId))
    else
      match ContainersForManifest(manifests, catalog, manifestId, guid, first)
      case Failure(e) => Failure(e)
      case Success(cx) =>
        if !cx.complete then Failure(NULL_REFERENCE)
        else
          match ItemsForManifest(manifests, catalog, manifestId, guid, first + |cx.built|)
          case Failure(e) => Failure(e)
          case Success(ix) =>
            if !ix.complete then Failure(NULL_REFERENCE)
            else Success(Loaded(manifests[manifestId], cx.built, ix.built))
  }

  /**
   * The loads succeed exactly when the manifest and its shipment exist and every line asking for containers or
   * items names a known type; the containers then take the first identifiers drawn and the items the next ones.
   */
  lemma LoadValueMeaning(manifests: map<string, Manifest>, catalog: Catalog, guid: nat -> string, first: nat,
                         manifestId: string)
    ensures var l := LoadValue(manifests, catalog, guid, first, manifestId);
      && (l.Success? <==>
            && manifestId in manifests && manifests[manifestId].shipmentId in catalog.shipments
            && ContainerTypesKnown(catalog.containerTypes, catalog.shipments[manifests[manifestId].shipmentId].containers)
            && ItemTypesKnown(catalog.itemTypes, catalog.shipments[manifests[manifestId].shipmentId].items))
      && (l.Success? ==>
            var shipment := catalog.shipments[manifests[manifestId].shipmentId];
            && l.value.manifest == manifests[manifestId]
            && |l.value.containers| == TotalContainers(shipment.containers)
            && |l.value.specs| == TotalItems(shipment.items)
            && (forall k :: 0 <= k < |l.value.containers| ==> l.value.containers[k].id == guid(first + k))
            && (forall k :: 0 <= k < |l.value.specs| ==>
                  l.value.specs[k].id == guid(first + |l.value.containers| + k) && l.value.specs[k].quantity == 1))
  {
    if manifestId in manifests && manifests[manifestId].shipmentId in catalog.shipments {
      var shipment := catalog.shipments[manifests[manifestId].shipmentId];
      ExpandContainersMeaning(catalog.containerTypes, shipment.containers, guid, first);
      var cx := ExpandContainers(catalog.containerTypes, shipment.containers, guid, first);
      ExpandItemsMeaning(catalog.itemTypes, shipment.items, guid, first + |cx.built|);
    }
  }

  /** Every container result has a first algorithm result, which ExecutePack prints before saving. */
  predicate HasFirstResults(rs: seq<ContainerResult>) {
    forall k :: 0 <= k < |rs| ==> rs[k].algorithmPackingResults != []
  }

  /**
   * ExecutePack after the loads: the search over the orderings `permute` gives, then the check of the best
   * packing's first algorithm results; the exception that sends ExecutePack to SaveErrorManifest, or what was
   * loaded with the best packing (none when no ordering was packed).
   */
  function SearchPlan(l: Loaded, permute: seq<Container> -> seq<seq<Container>>, run: Runner, threshold: int)
    : Result<(Loaded, Option<PackingValue>), string>
  {
    match SearchValue(l.containers, permute(l.containers), l.specs, run, threshold, false)
    case Failure(e) => Failure(e)
    case Success(s) =>
      if s.best.Some? && !HasFirstResults(s.best.value.results) then Failure(INDEX_OUT_OF_RANGE)
      else Success((l, s.best))
  }

  /** What ExecutePack decides before it saves anything: the exception, or what it loaded and its best packing. */
  function ExecutePlan(manifests: map<string, Manifest>, catalog: Catalog, guid: nat -> string, first: nat,
                       manifestId: string, permute: seq<Container> -> seq<seq<Container>>, run: Runner,
                       threshold: int): Result<(Loaded, Option<PackingValue>), string>
  {
    match LoadValue(manifests, catalog, guid, first, manifestId)
    case Failure(e) => Failure(e)
    case Success(l) => SearchPlan(l, permute, run, threshold)
  }

  /** Every container result of a packing PackManifest returns has its first algorithm result. */
  lemma PackerHasFirstResults(specs: seq<ItemSpec>, run: Runner, order: seq<Container>)
    requires PackerOf(specs, run)(order, false).Success?
    ensures HasFirstResults(PackerOf(specs, run)(order, false).value.results)
  {
    var v := PackManifestValue(order, specs, ALGORITHMS, run, Token(false)).value;
    PackManifestShape(order, specs, ALGORITHMS, run, Token(false));
    forall k | 0 <= k < |v.results|
      ensures v.results[k].algorithmPackingResults != []
    {
      var input := InputAt(specs, v.results, k);
      assert PackStepValue(order[k], input, ALGORITHMS, run).Success?;
    }
  }

  /**
   * ExecutePack as written, once its inputs load: it keeps the packing of the first ordering when the threshold
   * lets one be packed and there is one, and no packing otherwise; the check of the first algorithm results never
   * raises.
   */
  lemma ExecutePlanAsWritten(manifests: map<string, Manifest>, catalog: Catalog, guid: nat -> string, first: nat,
                             manifestId: string, permute: seq<Container> -> seq<seq<Container>>, run: Runner,
                             threshold: int)
    requires LoadValue(manifests, catalog, guid, first, manifestId).Success?
    ensures var l := LoadValue(manifests, catalog, guid, first, manifestId).value;
      var orders := permute(l.containers);
      (PackerNeverFails(l.specs, run);
       ExecutePlan(manifests, catalog, guid, first, manifestId, permute, run, threshold)
       == Success((l, if threshold < 0 || orders == [] then None
                      else Some(PackerOf(l.specs, run)(orders[0], false).value))))
  {
    var l := LoadValue(manifests, catalog, guid, first, manifestId).value;
    var orders := permute(l.containers);
    PackerNeverFails(l.specs, run);
    SearchAsWritten(l.containers, orders, l.specs, run, threshold);
    if threshold >= 0 && orders != [] {
      PackerHasFirstResults(l.specs, run, orders[0]);
    }
  }

  /** The manifests after SaveErrorManifest, and ExecutePack's outcome: an exception only when the manifest is missing. */
  ghost predicate ErrorSaved(before: map<string, Manifest>, manifestId: string, after: map<string, Manifest>,
                             r: Result<(), string>)
  {
    if manifestId in before then
      after == before[manifestId := before[manifestId].(status := "Error")] && r == Success(())
    else
      after == before && r == Failure(ManifestNotFound(manifestId))
  }

  /** The three loads at the start of ExecutePack, with the items as their constructor arguments. */
  method LoadInputs(mapper: Mapper, manifestId: string) returns (r: Result<Loaded, string>)
    modifies mapper`containers, mapper`items, mapper`drawn
    ensures r == LoadValue(mapper.manifests, mapper.catalog, mapper.guid, old(mapper.drawn), manifestId)
    ensures r.Success? ==>
      mapper.containers == r.value.containers && mapper.drawn == old(mapper.drawn) + |r.value.containers| + |r.value.specs|
  {
    var manifest := mapper.GetManifestById(manifestId);
    if manifest.Failure? {
      return Failure(manifest.error);
    }
    var containers := mapper.GetContainersForManifest(manifestId);
    if containers.Failure? {
      return Failure(containers.error);
    }
    var items := mapper.GetItemsForManifest(manifestId);
    if items.Failure? {
      return Failure(items.error);
    }
    return Success(Loaded(manifest.value, containers.value, Specs(items.value)));
  }

  /**
   * The writes of SaveManifest for manifest `m` and packing `v`, with identifiers drawn from `drawn` on: its
   * records follow the earlier ones; if it raised, the manifest is marked as failed instead of complete.
   */
  ghost predicate Saved(m: Manifest, containers: seq<Container>, guid: nat -> string, drawn: nat, v: PackingValue,
                        before: map<string, Manifest>, pcs0: seq<PackingContainer>, items0: seq<PackingItem>,
                        after: map<string, Manifest>, pcs: seq<PackingContainer>, items: seq<PackingItem>,
                        r: Result<(), string>)
  {
    var w := SaveResults(m, containers, v.results, guid, Writes([], [], 0.0, drawn, None));
    && pcs == pcs0 + w.packingContainers
    && items == items0 + w.packingItems
    && (w.error.Some? ==> ErrorSaved(before, m.id, after, r))
    && (w.error.None? ==> r == Success(()) && after == before[m.id := Completed(m, w.totalCost, v.unpackedItems)])
  }

  /** The end of ExecutePack's try block: SaveManifest with the best packing, SaveErrorManifest if it raises. */
  method SaveBest(mapper: Mapper, l: Loaded, ghost first: nat, best: PackingResult, ghost v: PackingValue)
    returns (r: Result<(), string>)
    requires l.manifest.id in mapper.manifests && mapper.manifests[l.manifest.id] == l.manifest
    requires mapper.containers == l.containers && mapper.drawn == first + |l.containers| + |l.specs|
    requires v == ResultValue(best)
    modifies mapper`manifests, mapper`packingContainers, mapper`packingItems, mapper`drawn
    ensures Saved(l.manifest, l.containers, mapper.guid, first + |l.containers| + |l.specs|, v,
                  old(mapper.manifests), old(mapper.packingContainers), old(mapper.packingItems),
                  mapper.manifests, mapper.packingContainers, mapper.packingItems, r)
  {
    ghost var w := SaveResults(l.manifest, l.containers, v.results, mapper.guid, Writes([], [], 0.0, mapper.drawn, None));
    assert ContainerValues(best.results) == v.results && best.unpackedItems == v.unpackedItems;
    var saved := mapper.SaveManifest(l.manifest.id, best.results, best.unpackedItems);
    assert mapper.packingContainers == old(mapper.packingContainers) + w.packingContainers;
    assert mapper.packingItems == old(mapper.packingItems) + w.packingItems;
    if saved.Failure? {
      assert w.error.Some? && mapper.manifests == old(mapper.manifests);
      r := mapper.SaveErrorManifest(l.manifest.id);
      return;
    }
    assert w.error.None?;
    assert mapper.manifests == old(mapper.manifests)[l.manifest.id := Completed(l.manifest, w.totalCost, v.unpackedItems)];
    return Success(());
  }

  /**
   * ExecutePack's writes for its plan, with `first` the identifiers drawn before the loads: on an exception the
   * manifest is marked as failed and no record is written; with no packing nothing is written; otherwise what
   * SaveManifest and, if it raised, SaveErrorManifest write.
   */
  ghost predicate Executed(plan: Result<(Loaded, Option<PackingValue>), string>, manifestId: string,
                           guid: nat -> string, first: nat,
                           before: map<string, Manifest>, pcs0: seq<PackingContainer>, items0: seq<PackingItem>,
                           after: map<string, Manifest>, pcs: seq<PackingContainer>, items: seq<PackingItem>,
                           r: Result<(), string>)
  {
    match plan
    case Failure(_) => ErrorSaved(before, manifestId, after, r) && pcs == pcs0 && items == items0
    case Success((_, None)) => r == Success(()) && after == before && pcs == pcs0 && items == items0
    case Success((l, Some(v))) =>
      Saved(l.manifest, l.containers, guid, first + |l.containers| + |l.specs|, v, before, pcs0, items0,
            after, pcs, items, r)
  }

  /**
   * The try block's search: the orderings' search, then the print loop's lookup of each container result's first
   * algorithm result in the best packing; `failed` when either raises.
   */
  method PlanSearch(l: Loaded, permute: seq<Container> -> seq<seq<Container>>, run: Runner, threshold: int)
    returns (failed: bool, best: Option<PackingResult>)
    ensures failed <==> SearchPlan(l, permute, run, threshold).Failure?
    ensures !failed ==> SearchPlan(l, permute, run, threshold) == Success((l, BestValue(best)))
  {
    var search := SearchOrders(l.containers, permute(l.containers), l.specs, run, threshold, false);
    if search.Failure? {
      return true, None;
    }
    best := search.value.0;
    failed := best.Some? && !HasFirstResults(ContainerValues(best.value.results));
  }

  /** When the plan is to save the packing `v`, what SaveBest wrote is what ExecutePack writes. */
  lemma SavedIsExecuted(plan: Result<(Loaded, Option<PackingValue>), string>, l: Loaded, v: PackingValue,
                        guid: nat -> string, first: nat,
                        before: map<string, Manifest>, pcs0: seq<PackingContainer>, items0: seq<PackingItem>,
                        after: map<string, Manifest>, pcs: seq<PackingContainer>, items: seq<PackingItem>,
                        r: Result<(), string>)
    requires plan == Success((l, Some(v)))
    requires Saved(l.manifest, l.containers, guid, first + |l.containers| + |l.specs|, v, before, pcs0, items0,
                   after, pcs, items, r)
    ensures Executed(plan, l.manifest.id, guid, first, before, pcs0, items0, after, pcs, items, r)
  {
  }

  /** ExecutePack after the loads: search the orderings, then save the best packing or mark the manifest failed. */
  method SearchAndSave(mapper: Mapper, l: Loaded, ghost first: nat, permute: seq<Container> -> seq<seq<Container>>,
                       run: Runner, threshold: int)
    returns (r: Result<(), string>)
    requires l.manifest.id in mapper.manifests && mapper.manifests[l.manifest.id] == l.manifest
    requires mapper.containers == l.containers && mapper.drawn == first + |l.containers| + |l.specs|
    modifies mapper`manifests, mapper`packingContainers, mapper`packingItems, mapper`drawn
    ensures Executed(SearchPlan(l, permute, run, threshold), l.manifest.id, mapper.guid, first,
                     old(mapper.manifests), old(mapper.packingContainers), old(mapper.packingItems),
                     mapper.manifests, mapper.packingContainers, mapper.packingItems, r)
  {
    ghost var plan := SearchPlan(l, permute, run, threshold);
    var failed, mostOptimalResult := PlanSearch(l, permute, run, threshold);
    if failed {
      r := mapper.SaveErrorManifest(l.manifest.id);
      assert ErrorSaved(old(mapper.manifests), l.manifest.id, mapper.manifests, r);
      return;
    }
    if mostOptimalResult.None? {
      assert plan == Success((l, None));
      return Success(());
    }
    var best := mostOptimalResult.value;
    ghost var v := ResultValue(best);
    assert plan == Success((l, Some(v)));
    r := SaveBest(mapper, l, first, best, v);
    SavedIsExecuted(plan, l, v, mapper.guid, first, old(mapper.manifests), old(mapper.packingContainers),
                    old(mapper.packingItems), mapper.manifests, mapper.packingContainers, mapper.packingItems, r);
  }

  /**
   * ExecutePack: load the manifest, its containers and its items; search the container orderings; save the best
   * packing, if there is one, with SaveManifest; and on any exception mark the manifest as failed instead.
   * The manifests are keyed by their own ids, as the table is.
   */
  method ExecutePack(mapper: Mapper, manifestId: string, permute: seq<Container> -> seq<seq<Container>>,
                     run: Runner, threshold: int) returns (r: Result<(), string>)
    requires manifestId in mapper.manifests ==> mapper.manifests[manifestId].id == manifestId
    modifies mapper`manifests, mapper`packingContainers, mapper`packingItems, mapper`containers, mapper`items,
             mapper`drawn
    ensures Executed(ExecutePlan(old(mapper.manifests), mapper.catalog, mapper.guid, old(mapper.drawn), manifestId,
                                 permute, run, threshold), manifestId, mapper.guid, old(mapper.drawn),
                     old(mapper.manifests), old(mapper.packingContainers), old(mapper.packingItems),
                     mapper.manifests, mapper.packingContainers, mapper.packingItems, r)
  {
    var loaded := LoadInputs(mapper, manifestId);
    if loaded.Failure? {
      r := mapper.SaveErrorManifest(manifestId);
      return;
    }
    r := SearchAndSave(mapper, loaded.value, old(mapper.drawn), permute, run, threshold);
  }
}
