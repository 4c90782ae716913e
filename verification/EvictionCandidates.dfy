/** Gathering and ordering the eviction candidates
    (`collect_eviction_candidates` in pageserver/src/disk_usage_eviction_task.rs).

    Per tenant, the resident layers of its active timelines are sorted most
    recently used first and walked with a running sum of their sizes: a layer
    is in the `Below` partition while the layers more recent than it add up to
    no more than the tenant's `min_resident_size`, and in `Above` from then on.
    All candidates are then sorted by partition (`Above` first) and, within a
    partition, by last access (absolute time, or relative position within the
    tenant). Listing tenants and timelines is a call into the tenant manager:
    here the listing is the input. */
module EvictionCandidates {
  import opened Wrappers
  import opened Sorting
  import DiskUsage

  /** `EvictionOrder`: how candidates are ordered within a partition. */
  datatype EvictionOrder =
    | AbsoluteAccessed
    | RelativeAccessed(highestLayerCountLosesFirst: bool)

  function HighestLayerCountLosesFirst(order: EvictionOrder): bool {
    match order
    case AbsoluteAccessed => false
    case RelativeAccessed(flag) => flag
  }

  /** A resident layer as a timeline reports it: its identity, file size and
      last access time. */
  datatype LayerInfo = LayerInfo(layer: nat, fileSize: nat, lastActivityTs: int)

  /** What `get_local_layers_for_disk_usage_eviction` reports for one timeline;
      `maxLayerSize` covers the timeline's layers whether resident or not. */
  datatype TimelineInfo = TimelineInfo(isActive: bool, residentLayers: seq<LayerInfo>, maxLayerSize: Option<nat>)

  /** One tenant of the listing. `skipped` stands for a tenant that
      `get_tenant` no longer returns or that is shutting down. */
  datatype TenantInfo = TenantInfo(skipped: bool, minResidentSizeOverride: Option<nat>, timelines: seq<TimelineInfo>)

  /** `MinResidentSizePartition`; `Above` sorts before `Below`. */
  datatype Partition = Above | Below

  type Positive = n: nat | n >= 1 witness 1

  /** An eviction candidate with its partition. `relNum / relDen` is its
      `relative_last_activity`, kept as an exact fraction. */
  datatype Candidate = Candidate(partition: Partition, layer: LayerInfo, relNum: nat, relDen: Positive)

  // ----- per tenant -----

  /** Resident layers of the active timelines, in listing order. */
  function ResidentLayers(tls: seq<TimelineInfo>): seq<LayerInfo> {
    if tls == [] then []
    else
      var last := tls[|tls| - 1];
      ResidentLayers(tls[..|tls| - 1]) + (if last.isActive then last.residentLayers else [])
  }

  /** The largest `max_layer_size` over the active timelines, 0 if none. */
  function MaxLayerSize(tls: seq<TimelineInfo>): (m: nat)
    ensures forall k :: 0 <= k < |tls| && tls[k].isActive ==> tls[k].maxLayerSize.GetOr(0) <= m
    ensures m == 0 || exists k :: 0 <= k < |tls| && tls[k].isActive && tls[k].maxLayerSize == Some(m)
  {
    if tls == [] then 0
    else
      var last := tls[|tls| - 1];
      var prev := MaxLayerSize(tls[..|tls| - 1]);
      var own := if last.isActive then last.maxLayerSize.GetOr(0) else 0;
      if own > prev then own else prev
  }

  /** The tenant's override if it has one, else its largest layer size. */
  function MinResidentSize(t: TenantInfo): nat {
    match t.minResidentSizeOverride
    case Some(s) => s
    case None => MaxLayerSize(t.timelines)
  }

  /** Sum of the file sizes of `layers`. */
  function SumSizes(layers: seq<LayerInfo>): nat {
    if layers == [] then 0 else SumSizes(layers[..|layers| - 1]) + layers[|layers| - 1].fileSize
  }

  /** Sort key `Reverse(last_activity_ts)`: most recently used first. */
  predicate MostRecentFirst(a: LayerInfo, b: LayerInfo) {
    a.lastActivityTs >= b.lastActivityTs
  }

  /** 0 keeps the full layer count as divisor, 1 subtracts one from it. */
  function Fudge(order: EvictionOrder): (f: nat)
    ensures f <= 1
    ensures f == 0 <==> HighestLayerCountLosesFirst(order)
  {
    if HighestLayerCountLosesFirst(order) then 0 else 1
  }

  /** `len.checked_sub(fudge).filter(|&x| x > 0).unwrap_or(1)`. */
  function Total(len: nat, fudge: nat): (t: Positive) {
    if len > fudge then len - fudge else 1
  }

  /** `divider` never drops below 1 and is the layer count less the fudge
      whenever that is positive; with a fudge of at most 1 every position
      `i < len` satisfies `i <= total`, so `total - i` cannot underflow. */
  lemma TotalBounds(len: nat, fudge: nat)
    ensures Total(len, fudge) >= 1
    ensures len - fudge > 0 ==> Total(len, fudge) == len - fudge
    ensures len - fudge <= 0 ==> Total(len, fudge) == 1
    ensures fudge <= 1 && len >= 1 ==> len - 1 <= Total(len, fudge)
  {
  }

  function PartitionOf(cumsum: nat, minResidentSize: nat): Partition {
    if cumsum > minResidentSize then Above else Below
  }

  /** The layers of `t` in the order the partition loop walks them. */
  function TenantLayersByRecency(t: TenantInfo): (layers: seq<LayerInfo>)
    ensures multiset(layers) == multiset(ResidentLayers(t.timelines))
    ensures forall i, j :: 0 <= i < j < |layers| ==> layers[i].lastActivityTs >= layers[j].lastActivityTs
  {
    MostRecentFirstIsTotalPreorder();
    SortBy(ResidentLayers(t.timelines), MostRecentFirst)
  }

  lemma MostRecentFirstIsTotalPreorder()
    ensures TotalPreorder(MostRecentFirst)
  {
  }

  /** The partition loop over one tenant's layers, most recent first: layer
      `i` is `Below` while the sizes of the layers before it sum to at most
      `minResidentSize`, and its relative activity is `(total - i) / total`. */
  function PartitionLayers(order: EvictionOrder, layers: seq<LayerInfo>, minResidentSize: nat): (cs: seq<Candidate>)
    ensures |cs| == |layers|
  {
    var total := Total(|layers|, Fudge(order));
    TotalBounds(|layers|, Fudge(order));
    seq(|layers|, i requires 0 <= i < |layers| =>
      Candidate(PartitionOf(SumSizes(layers[..i]), minResidentSize), layers[i],
                if order.RelativeAccessed? then total - i else 0,
                if order.RelativeAccessed? then total else 1))
  }

  /** The candidates one tenant contributes, in the order they are pushed. */
  function TenantCandidates(order: EvictionOrder, t: TenantInfo): seq<Candidate> {
    if t.skipped then []
    else PartitionLayers(order, TenantLayersByRecency(t), MinResidentSize(t))
  }

  // ----- all tenants -----

  function AllCandidates(order: EvictionOrder, tenants: seq<TenantInfo>): seq<Candidate> {
    if tenants == [] then []
    else AllCandidates(order, tenants[..|tenants| - 1]) + TenantCandidates(order, tenants[|tenants| - 1])
  }

  /** The final sort key `(partition, last_activity_ts)` or
      `(partition, relative_last_activity)`, as a comparator. */
  predicate EvictBefore(order: EvictionOrder, a: Candidate, b: Candidate) {
    if a.partition != b.partition then a.partition == Above
    else if order.AbsoluteAccessed? then a.layer.lastActivityTs <= b.layer.lastActivityTs
    else a.relNum * b.relDen <= b.relNum * a.relDen
  }

  function EvictionLe(order: EvictionOrder): (Candidate, Candidate) -> bool {
    (a: Candidate, b: Candidate) => EvictBefore(order, a, b)
  }

  /** Comparing fractions with positive denominators by cross-multiplying is
      transitive. */
  lemma FractionLeTransitive(a: Candidate, b: Candidate, c: Candidate)
    requires a.relNum * b.relDen <= b.relNum * a.relDen
    requires b.relNum * c.relDen <= c.relNum * b.relDen
    ensures a.relNum * c.relDen <= c.relNum * a.relDen
  {
    var an, ad, bn, bd, cn, cd := a.relNum, a.relDen, b.relNum, b.relDen, c.relNum, c.relDen;
    calc {
      (an * cd) * bd;
    ==  { MulAssocComm(an, cd, bd); }
      (an * bd) * cd;
    <=  { DiskUsage.MulMonotone(an * bd, bn * ad, cd); }
      (bn * ad) * cd;
    ==  { MulAssocComm(bn, ad, cd); }
      (bn * cd) * ad;
    <=  { DiskUsage.MulMonotone(bn * cd, cn * bd, ad); }
      (cn * bd) * ad;
    ==  { MulAssocComm(cn, bd, ad); }
      (cn * ad) * bd;
    }
    if an * cd > cn * ad {
      DiskUsage.MulMonotone(cn * ad + 1, an * cd, bd);
      assert false;
    }
  }

  lemma MulAssocComm(x: nat, y: nat, z: nat)
    ensures (x * y) * z == (x * z) * y
  {
  }

  lemma EvictionLeIsTotalPreorder(order: EvictionOrder)
    ensures TotalPreorder(EvictionLe(order))
  {
    var le := EvictionLe(order);
    forall a, b, c | le(a, b) && le(b, c) ensures le(a, c) {
      if order.RelativeAccessed? && a.partition == b.partition == c.partition {
        FractionLeTransitive(a, b, c);
      }
    }
  }

  /** The sorted candidate list `collect_eviction_candidates` returns. */
  function EvictionCandidates(order: EvictionOrder, tenants: seq<TenantInfo>): (cs: seq<Candidate>)
    ensures multiset(cs) == multiset(AllCandidates(order, tenants))
    ensures Sorted(cs, EvictionLe(order))
  {
    EvictionLeIsTotalPreorder(order);
    SortBy(AllCandidates(order, tenants), EvictionLe(order))
  }

  // ----- properties -----

  /** Sizes are non-negative, so the running sum only grows along the walk. */
  lemma {:induction false} SumSizesPrefixMonotone(layers: seq<LayerInfo>, i: nat, j: nat)
    requires i <= j <= |layers|
    ensures SumSizes(layers[..i]) <= SumSizes(layers[..j])
  {
    if i < j {
      assert layers[..j][..j - 1] == layers[..j - 1];
      SumSizesPrefixMonotone(layers, i, j - 1);
    }
  }

  /** The shape of one tenant's partition: layer `i` is `Below` exactly when
      the layers before it fit in `minResidentSize`; so the most recent layer is
      always `Below` and the partition switches from `Below` to `Above` at most
      once. The relative activity lies in [0, 1] and is 1 for the most recent
      layer. */
  lemma PartitionShape(order: EvictionOrder, layers: seq<LayerInfo>, minResidentSize: nat)
    ensures var cs := PartitionLayers(order, layers, minResidentSize);
            && (forall i :: 0 <= i < |cs| ==> cs[i].layer == layers[i])
            && (forall i :: 0 <= i < |cs| ==> (cs[i].partition == Below <==> SumSizes(layers[..i]) <= minResidentSize))
            && (|cs| > 0 ==> cs[0].partition == Below)
            && (forall i, j :: 0 <= i < j < |cs| && cs[j].partition == Below ==> cs[i].partition == Below)
            && (forall i :: 0 <= i < |cs| ==> cs[i].relNum <= cs[i].relDen)
            && (|cs| > 0 && order.RelativeAccessed? ==> cs[0].relNum == cs[0].relDen)
            && (order.AbsoluteAccessed? ==> forall i :: 0 <= i < |cs| ==> cs[i].relNum == 0)
  {
    var cs := PartitionLayers(order, layers, minResidentSize);
    forall i, j | 0 <= i < j < |cs| && cs[j].partition == Below
      ensures cs[i].partition == Below
    {
      SumSizesPrefixMonotone(layers, i, j);
    }
  }

  /** Per tenant, the `Below` layers are the most recent ones and, unless every
      layer is `Below`, they add up to more than `min_resident_size`: the
      reservation keeps at least that many bytes resident. */
  lemma BelowIsReservation(t: TenantInfo, order: EvictionOrder, b: nat)
    requires !t.skipped
    requires var cs := TenantCandidates(order, t);
             b <= |cs| && (forall i :: 0 <= i < b ==> cs[i].partition == Below) &&
             (forall i :: b <= i < |cs| ==> cs[i].partition == Above)
    ensures var layers := TenantLayersByRecency(t);
            && (b < |layers| ==> SumSizes(layers[..b]) > MinResidentSize(t))
            && (forall i, j :: 0 <= i < b <= j < |layers| ==> layers[i].lastActivityTs >= layers[j].lastActivityTs)
  {
    PartitionShape(order, TenantLayersByRecency(t), MinResidentSize(t));
  }

  /** After the final sort every `Above` candidate precedes every `Below` one,
      and with `AbsoluteAccessed` the candidates of one partition are in
      ascending order of last access. */
  lemma CandidateOrder(order: EvictionOrder, tenants: seq<TenantInfo>)
    ensures var cs := EvictionCandidates(order, tenants);
            && (forall i, j :: 0 <= i < j < |cs| && cs[i].partition == Below ==> cs[j].partition == Below)
            && (order.AbsoluteAccessed? ==>
                  forall i, j :: 0 <= i < j < |cs| && cs[i].partition == cs[j].partition ==>
                    cs[i].layer.lastActivityTs <= cs[j].layer.lastActivityTs)
  {
    var cs := EvictionCandidates(order, tenants);
    forall i, j | 0 <= i < j < |cs|
      ensures EvictBefore(order, cs[i], cs[j])
    {
      assert EvictionLe(order)(cs[i], cs[j]);
    }
  }

  // ----- the imperative collection -----

  /** The timeline loop of one tenant: gather the resident layers of the active
      timelines and the largest layer size among them. */
  method GatherTenantLayers(tls: seq<TimelineInfo>) returns (layers: seq<LayerInfo>, maxLayerSize: nat)
    ensures layers == ResidentLayers(tls)
    ensures maxLayerSize == MaxLayerSize(tls)
  {
    layers, maxLayerSize := [], 0;
    var k := 0;
    while k < |tls|
      invariant 0 <= k <= |tls|
      invariant layers == ResidentLayers(tls[..k])
      invariant maxLayerSize == MaxLayerSize(tls[..k])
    {
      var tl := tls[k];
      assert tls[..k + 1][..k] == tls[..k];
      if tl.isActive {
        layers := layers + tl.residentLayers;
        var size := tl.maxLayerSize.GetOr(0);
        if size > maxLayerSize {
          maxLayerSize := size;
        }
      }
      k := k + 1;
    }
    assert tls[..k] == tls;
  }

  /** The partition loop of one tenant, keeping a running `cumsum`. */
  method PartitionTenantLayers(order: EvictionOrder, layers: seq<LayerInfo>, minResidentSize: nat)
    returns (pushed: seq<Candidate>)
    ensures pushed == PartitionLayers(order, layers, minResidentSize)
  {
    var fudge := Fudge(order);
    var total := Total(|layers|, fudge);
    TotalBounds(|layers|, fudge);
    ghost var spec := PartitionLayers(order, layers, minResidentSize);
    pushed := [];
    var cumsum := 0;
    var i := 0;
    while i < |layers|
      invariant 0 <= i <= |layers|
      invariant cumsum == SumSizes(layers[..i])
      invariant pushed == spec[..i]
    {
      var layer := layers[i];
      var relNum, relDen := 0, 1;
      if order.RelativeAccessed? {
        relNum, relDen := total - i, total;
      }
      var partition := if cumsum > minResidentSize then Above else Below;
      pushed := pushed + [Candidate(partition, layer, relNum, relDen)];
      assert layers[..i + 1][..i] == layers[..i];
      cumsum := cumsum + layer.fileSize;
      i := i + 1;
    }
  }

  /** Walking one more tenant appends that tenant's candidates. */
  lemma AllCandidatesStep(order: EvictionOrder, tenants: seq<TenantInfo>, ti: nat)
    requires ti < |tenants|
    ensures AllCandidates(order, tenants[..ti + 1]) == AllCandidates(order, tenants[..ti]) + TenantCandidates(order, tenants[ti])
  {
    assert tenants[..ti + 1][..ti] == tenants[..ti];
  }

  /** One tenant's share of the walk: gather its resident layers, pick its
      `min_resident_size`, sort the layers most recent first and partition
      them. */
  method CollectTenantCandidates(order: EvictionOrder, tenant: TenantInfo) returns (pushed: seq<Candidate>)
    requires !tenant.skipped
    ensures pushed == TenantCandidates(order, tenant)
  {
    var tenantLayers, maxLayerSize := GatherTenantLayers(tenant.timelines);
    var minResidentSize := if tenant.minResidentSizeOverride.Some? then tenant.minResidentSizeOverride.value else maxLayerSize;
    MostRecentFirstIsTotalPreorder();
    tenantLayers := SortBy(tenantLayers, MostRecentFirst);
    pushed := PartitionTenantLayers(order, tenantLayers, minResidentSize);
  }

  /** Walk the tenants, partition each one's layers by the running size sum,
      push the candidates and sort them. */
  method CollectEvictionCandidates(order: EvictionOrder, tenants: seq<TenantInfo>) returns (candidates: seq<Candidate>)
    ensures candidates == EvictionCandidates(order, tenants)
  {
    candidates := [];
    var ti := 0;
    while ti < |tenants|
      invariant 0 <= ti <= |tenants|
      invariant candidates == AllCandidates(order, tenants[..ti])
    {
      var tenant := tenants[ti];
      AllCandidatesStep(order, tenants, ti);
      if !tenant.skipped {
        var pushed := CollectTenantCandidates(order, tenant);
        candidates := candidates + pushed;
      } else {
        assert TenantCandidates(order, tenant) == [];
      }
      ti := ti + 1;
    }
    assert tenants[..ti] == tenants;
    EvictionLeIsTotalPreorder(order);
    candidates := SortBy(candidates, EvictionLe(order));
  }
}
