/** One iteration of disk-usage based eviction
    (`disk_usage_eviction_task_iteration_impl` in
    pageserver/src/disk_usage_eviction_task.rs), on an already collected,
    sorted candidate list.

    Phase 1 plans: it walks the candidates, adding each one's size to the
    planned available bytes, until the planned usage has no pressure. Phase 2
    evicts the planned prefix and accounts for what each eviction reported. */
module EvictionIteration {
  import opened Wrappers
  import opened DiskUsage
  import opened EvictionCandidates

  /** `PlannedUsage`: the usage planned when the walk first reached into the
      `Below` partition, and the final planned usage if it did. */
  datatype PlannedUsage = PlannedUsage(respectingTenantMinResidentSize: Usage, fallbackToGlobalLru: Option<Usage>)

  datatype LayerCount = LayerCount(fileSizes: nat, count: nat)

  datatype AssumedUsage = AssumedUsage(projectedAfter: Usage, failed: LayerCount)

  /** `IterationOutcome` (cancellation is not modelled). */
  datatype IterationOutcome =
    | NoPressure
    | Finished(before: Usage, planned: PlannedUsage, assumed: AssumedUsage)

  /** What one spawned eviction task reported: the layer was evicted; it could
      not be (not found, re-downloaded, or the 5 s timeout hit); or the task
      panicked, which is logged and neither credited nor counted.
      `TaskPanicked` also stands for the join error that is neither a panic
      nor a cancellation: it too is only logged, and neither credited nor
      counted. */
  datatype EvictionResult = Evicted | EvictionFailed | TaskPanicked

  // ----- phase 1 -----

  /** Total file size of the candidates, summed front to back as the planner does. */
  function CandidateSizes(cs: seq<Candidate>): nat {
    if cs == [] then 0 else CandidateSizes(cs[..|cs| - 1]) + cs[|cs| - 1].layer.fileSize
  }

  /** The layers the candidates stand for, in candidate order. */
  function LayersOf(cs: seq<Candidate>): (layers: seq<LayerInfo>)
    ensures |layers| == |cs|
    ensures forall i :: 0 <= i < |cs| ==> layers[i] == cs[i].layer
  {
    seq(|cs|, i requires 0 <= i < |cs| => cs[i].layer)
  }

  /** Summing candidate sizes is summing the sizes of their layers. */
  lemma {:induction false} CandidateSizesAreLayerSizes(cs: seq<Candidate>)
    ensures CandidateSizes(cs) == SumSizes(LayersOf(cs))
  {
    if cs != [] {
      CandidateSizesAreLayerSizes(cs[..|cs| - 1]);
      assert LayersOf(cs)[..|cs| - 1] == LayersOf(cs[..|cs| - 1]);
    }
  }

  /** The planned usage after evicting the first `k` candidates. */
  function PlannedAfter(usagePre: Usage, cs: seq<Candidate>, k: nat): Usage
    requires k <= |cs|
  {
    usagePre.AddAvailableBytes(CandidateSizes(cs[..k]))
  }

  /** Index of the first `Below` candidate, if any. */
  function FirstBelow(cs: seq<Candidate>): (r: Option<nat>)
    ensures r.None? <==> forall i :: 0 <= i < |cs| ==> cs[i].partition == Above
    ensures r.Some? ==> r.value < |cs| && cs[r.value].partition == Below &&
                        forall i :: 0 <= i < r.value ==> cs[i].partition == Above
  {
    if cs == [] then None
    else
      var init := cs[..|cs| - 1];
      var prev := FirstBelow(init);
      assert forall i :: 0 <= i < |init| ==> init[i] == cs[i];
      if prev.Some? then prev
      else if cs[|cs| - 1].partition == Below then Some(|cs| - 1)
      else
        assert forall i :: 0 <= i < |cs| ==> cs[i].partition == Above by {
          forall i | 0 <= i < |cs| ensures cs[i].partition == Above {
            if i < |init| { assert init[i].partition == Above; }
          }
        }
        None
  }

  /** The planned usage phase 1 reports after taking the first `n` candidates. */
  function PlannedUsageAfter(usagePre: Usage, cs: seq<Candidate>, n: nat): PlannedUsage
    requires n <= |cs|
  {
    match FirstBelow(cs[..n])
    case None => PlannedUsage(PlannedAfter(usagePre, cs, n), None)
    case Some(b) => PlannedUsage(PlannedAfter(usagePre, cs, b), Some(PlannedAfter(usagePre, cs, n)))
  }

  /** Phase 1: select the shortest prefix of the candidates whose eviction
      relieves pressure (all of them if none does), and remember the planned
      usage at the first candidate taken from the `Below` partition. */
  method SelectVictims(usagePre: Usage, candidates: seq<Candidate>) returns (evictedAmount: nat, planned: PlannedUsage)
    ensures evictedAmount <= |candidates|
    ensures forall i :: 0 <= i < evictedAmount ==> PlannedAfter(usagePre, candidates, i).HasPressure()
    ensures evictedAmount < |candidates| ==> !PlannedAfter(usagePre, candidates, evictedAmount).HasPressure()
    ensures planned == PlannedUsageAfter(usagePre, candidates, evictedAmount)
  {
    var warned: Option<Usage> := None;
    var usagePlanned := usagePre;
    evictedAmount := 0;
    var i := 0;
    while i < |candidates|
      invariant 0 <= i <= |candidates|
      invariant evictedAmount == i
      invariant usagePlanned == PlannedAfter(usagePre, candidates, i)
      invariant forall j :: 0 <= j < i ==> PlannedAfter(usagePre, candidates, j).HasPressure()
      invariant warned == match FirstBelow(candidates[..i])
                          case None => None
                          case Some(b) => Some(PlannedAfter(usagePre, candidates, b))
    {
      if !usagePlanned.HasPressure() {
        break;
      }
      var candidate := candidates[i];
      assert candidates[..i + 1][..i] == candidates[..i];
      if candidate.partition == Below && warned.None? {
        warned := Some(usagePlanned);
      }
      usagePlanned := usagePlanned.AddAvailableBytes(candidate.layer.fileSize);
      evictedAmount := evictedAmount + 1;
      i := i + 1;
    }
    planned := match warned
      case Some(respecting) => PlannedUsage(respecting, Some(usagePlanned))
      case None => PlannedUsage(usagePlanned, None);
  }

  /** The selected prefix is determined by the candidates: it is the shortest
      one after which there is no pressure, or all candidates. */
  lemma SelectionIsUnique(usagePre: Usage, cs: seq<Candidate>, n1: nat, n2: nat)
    requires n1 <= |cs| && n2 <= |cs|
    requires forall i :: 0 <= i < n1 ==> PlannedAfter(usagePre, cs, i).HasPressure()
    requires n1 < |cs| ==> !PlannedAfter(usagePre, cs, n1).HasPressure()
    requires forall i :: 0 <= i < n2 ==> PlannedAfter(usagePre, cs, i).HasPressure()
    requires n2 < |cs| ==> !PlannedAfter(usagePre, cs, n2).HasPressure()
    ensures n1 == n2
  {
  }

  /** With the candidates in eviction order (no `Above` after a `Below`),
      phase 1 falls back to global LRU only when evicting every `Above`
      candidate would not relieve pressure: all of them are selected before the
      first `Below` one, and the usage planned at that point still has
      pressure. Without a fallback, no `Below` candidate is selected. */
  lemma FallbackOnlyWhenAboveExhausted(usagePre: Usage, cs: seq<Candidate>, n: nat)
    requires n <= |cs|
    requires forall i, j :: 0 <= i < j < |cs| && cs[i].partition == Below ==> cs[j].partition == Below
    requires forall i :: 0 <= i < n ==> PlannedAfter(usagePre, cs, i).HasPressure()
    ensures var p := PlannedUsageAfter(usagePre, cs, n);
            && (p.fallbackToGlobalLru.None? <==> forall i :: 0 <= i < n ==> cs[i].partition == Above)
            && (p.fallbackToGlobalLru.Some? ==>
                  && p.respectingTenantMinResidentSize.HasPressure()
                  && exists b :: 0 <= b < n && cs[b].partition == Below &&
                       p.respectingTenantMinResidentSize == PlannedAfter(usagePre, cs, b) &&
                       forall i :: 0 <= i < |cs| && cs[i].partition == Above ==> i < b)
  {
    var p := FirstBelow(cs[..n]);
    if p.Some? {
      var b := p.value;
      assert cs[..n][b] == cs[b];
      forall i | 0 <= i < |cs| && cs[i].partition == Above ensures i < b {
      }
    } else {
      forall i | 0 <= i < n ensures cs[i].partition == Above {
        assert cs[..n][i] == cs[i];
      }
    }
  }

  /** For the list the planner actually builds, the `Below`-after-`Above`
      shape holds by construction, so the fallback facts need only the
      pressure on the evicted prefix. */
  lemma PlannerFallbackOnlyWhenAboveExhausted(order: EvictionOrder, tenants: seq<TenantInfo>, usagePre: Usage, n: nat)
    requires n <= |EvictionCandidates.EvictionCandidates(order, tenants)|
    requires forall i :: 0 <= i < n ==> PlannedAfter(usagePre, EvictionCandidates.EvictionCandidates(order, tenants), i).HasPressure()
    ensures var cs := EvictionCandidates.EvictionCandidates(order, tenants);
            var p := PlannedUsageAfter(usagePre, cs, n);
            && (p.fallbackToGlobalLru.None? <==> forall i :: 0 <= i < n ==> cs[i].partition == Above)
            && (p.fallbackToGlobalLru.Some? ==>
                  && p.respectingTenantMinResidentSize.HasPressure()
                  && exists b :: 0 <= b < n && cs[b].partition == Below &&
                       p.respectingTenantMinResidentSize == PlannedAfter(usagePre, cs, b) &&
                       forall i :: 0 <= i < |cs| && cs[i].partition == Above ==> i < b)
  {
    CandidateOrder(order, tenants);
    FallbackOnlyWhenAboveExhausted(usagePre, EvictionCandidates.EvictionCandidates(order, tenants), n);
  }

  // ----- phase 2 -----

  /** Total size of the evicted candidates whose task reported `kind`. */
  function SizesReporting(evicted: seq<Candidate>, results: seq<EvictionResult>, kind: EvictionResult): nat
    requires |results| == |evicted|
  {
    if evicted == [] then 0
    else
      var n := |evicted| - 1;
      SizesReporting(evicted[..n], results[..n], kind) + (if results[n] == kind then evicted[n].layer.fileSize else 0)
  }

  /** Number of evicted candidates whose task reported `kind`. */
  function CountReporting(results: seq<EvictionResult>, kind: EvictionResult): nat {
    if results == [] then 0
    else CountReporting(results[..|results| - 1], kind) + (if results[|results| - 1] == kind then 1 else 0)
  }

  /** Phase 2 accounting: credit the size of every layer actually evicted to
      the assumed usage and count the failures. The tasks finish in any order;
      the sums do not depend on it, so they are taken in candidate order. */
  method EvictLayers(usagePre: Usage, evicted: seq<Candidate>, results: seq<EvictionResult>) returns (assumed: AssumedUsage)
    requires |results| == |evicted|
    ensures assumed.projectedAfter == usagePre.AddAvailableBytes(SizesReporting(evicted, results, Evicted))
    ensures assumed.failed == LayerCount(SizesReporting(evicted, results, EvictionFailed), CountReporting(results, EvictionFailed))
  {
    var usageAssumed := usagePre;
    var failed := LayerCount(0, 0);
    var i := 0;
    while i < |evicted|
      invariant 0 <= i <= |evicted|
      invariant usageAssumed == usagePre.AddAvailableBytes(SizesReporting(evicted[..i], results[..i], Evicted))
      invariant failed == LayerCount(SizesReporting(evicted[..i], results[..i], EvictionFailed), CountReporting(results[..i], EvictionFailed))
    {
      assert evicted[..i + 1][..i] == evicted[..i];
      assert results[..i + 1][..i] == results[..i];
      var fileSize := evicted[i].layer.fileSize;
      match results[i] {
        case Evicted =>
          usageAssumed := usageAssumed.AddAvailableBytes(fileSize);
        case EvictionFailed =>
          failed := LayerCount(failed.fileSizes + fileSize, failed.count + 1);
        case TaskPanicked =>
      }
      i := i + 1;
    }
    assert evicted[..i] == evicted && results[..i] == results;
    assumed := AssumedUsage(usageAssumed, failed);
  }

  /** If every planned eviction succeeds, the assumed usage after phase 2 is
      the usage phase 1 planned, and nothing failed. */
  lemma {:induction false} AllEvictedIsAsPlanned(usagePre: Usage, evicted: seq<Candidate>, results: seq<EvictionResult>)
    requires |results| == |evicted|
    requires forall i :: 0 <= i < |results| ==> results[i] == Evicted
    ensures usagePre.AddAvailableBytes(SizesReporting(evicted, results, Evicted)) == PlannedAfter(usagePre, evicted, |evicted|)
    ensures SizesReporting(evicted, results, EvictionFailed) == 0 && CountReporting(results, EvictionFailed) == 0
  {
    if evicted != [] {
      var n := |evicted| - 1;
      AllEvictedIsAsPlanned(usagePre, evicted[..n], results[..n]);
      assert evicted[..n][..n] == evicted[..n];
      assert evicted[..|evicted|] == evicted;
    }
  }

  // ----- the iteration -----

  /** Without pressure nothing is done. Otherwise phase 1 selects the prefix of
      `evictedAmount` candidates and phase 2 evicts exactly that prefix;
      `results[i]` is what evicting `candidates[i]` would report. */
  method IterationImpl(usagePre: Usage, candidates: seq<Candidate>, results: seq<EvictionResult>)
    returns (outcome: IterationOutcome, evictedAmount: nat)
    requires |results| == |candidates|
    ensures !usagePre.HasPressure() <==> outcome.NoPressure?
    ensures outcome.NoPressure? ==> evictedAmount == 0
    ensures outcome.Finished? ==>
              && outcome.before == usagePre
              && evictedAmount <= |candidates|
              && (forall i :: 0 <= i < evictedAmount ==> PlannedAfter(usagePre, candidates, i).HasPressure())
              && (evictedAmount < |candidates| ==> !PlannedAfter(usagePre, candidates, evictedAmount).HasPressure())
              && outcome.planned == PlannedUsageAfter(usagePre, candidates, evictedAmount)
              && outcome.assumed.projectedAfter ==
                   usagePre.AddAvailableBytes(SizesReporting(candidates[..evictedAmount], results[..evictedAmount], Evicted))
              && outcome.assumed.failed ==
                   LayerCount(SizesReporting(candidates[..evictedAmount], results[..evictedAmount], EvictionFailed),
                              CountReporting(results[..evictedAmount], EvictionFailed))
  {
    if !usagePre.HasPressure() {
      return NoPressure, 0;
    }
    var planned;
    evictedAmount, planned := SelectVictims(usagePre, candidates);
    var assumed := EvictLayers(usagePre, candidates[..evictedAmount], results[..evictedAmount]);
    outcome := Finished(usagePre, planned, assumed);
  }
}
