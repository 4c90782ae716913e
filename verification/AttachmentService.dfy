/** The attachment service (control_plane/src/bin/attachment_service.rs): the
    part of the control plane that hands out generation numbers to
    pageservers. Its state is one map from tenant to the pageserver it is
    attached to and its latest generation; four request handlers read and
    update it. HTTP, JSON and the writing of the state file are left out: the
    outcome of `save` is a parameter of the handlers that call it. */
module AttachmentService {
  import opened Wrappers
  import opened Hex

  type NodeId = nat

  /** Generation numbers (`u32` in the source; see README). */
  type Generation = nat

  /** `TenantState`: the attached pageserver, if any, and the latest
      generation; the next attach increments it and uses the new value. */
  datatype TenantState = TenantState(pageserver: Option<NodeId>, generation: Generation)

  /** `TenantShardId`; the service is not shard-aware and only ever builds
      unsharded ids (shard number and count 0). */
  datatype TenantShardId = TenantShardId(tenantId: TenantId, shardNumber: nat, shardCount: nat)

  function Unsharded(t: TenantId): TenantShardId {
    TenantShardId(t, 0, 0)
  }

  datatype ReAttachResponseTenant = ReAttachResponseTenant(id: TenantShardId, gen: Generation)
  datatype ValidateRequestTenant = ValidateRequestTenant(id: TenantShardId, gen: Generation)
  datatype ValidateResponseTenant = ValidateResponseTenant(id: TenantShardId, valid: bool)

  /** The handlers report a failed `save` as an internal server error. */
  datatype ApiError = InternalServerError

  type Tenants = map<TenantId, TenantState>

  // ----- the state transitions, as functions of the map -----

  /** re-attach from `node`: every tenant attached to `node` gets its
      generation incremented. */
  function ReAttached(tenants: Tenants, node: NodeId): (r: Tenants)
    ensures r.Keys == tenants.Keys
  {
    map t | t in tenants :: ReAttachedState(tenants[t], node)
  }

  /** One tenant's state after re-attach from `node`. */
  function ReAttachedState(state: TenantState, node: NodeId): TenantState {
    if state.pageserver == Some(node) then state.(generation := state.generation + 1) else state
  }

  /** attach-hook: create the tenant with generation 0 if it is unknown; bump
      the generation when attaching (`node` is `Some`); record `node` as the
      tenant's pageserver, which for `None` detaches it. */
  function AttachHooked(tenants: Tenants, tenantId: TenantId, node: Option<NodeId>): (r: Tenants)
    ensures r.Keys == tenants.Keys + {tenantId}
  {
    var prev := if tenantId in tenants then tenants[tenantId].generation else 0;
    tenants[tenantId := TenantState(node, if node.Some? then prev + 1 else prev)]
  }

  /** validate: in request order, one answer per requested tenant that is
      known, valid exactly when the requested generation is the latest. */
  function ValidateResponse(tenants: Tenants, reqs: seq<ValidateRequestTenant>): seq<ValidateResponseTenant> {
    if reqs == [] then []
    else
      var last := reqs[|reqs| - 1];
      ValidateResponse(tenants, reqs[..|reqs| - 1]) +
        if last.id.tenantId in tenants
        then [ValidateResponseTenant(last.id, tenants[last.id.tenantId].generation == last.gen)]
        else []
  }

  /** inspect: the latest generation and pageserver of an attached tenant. */
  function Attachment(tenants: Tenants, tenantId: TenantId): Option<(Generation, NodeId)> {
    if tenantId in tenants && tenants[tenantId].pageserver.Some?
    then Some((tenants[tenantId].generation, tenants[tenantId].pageserver.value))
    else None
  }

  /** No tenant disappears and no generation goes down. */
  ghost predicate GenerationsNotDecreased(before: Tenants, after: Tenants) {
    forall t :: t in before ==> t in after && after[t].generation >= before[t].generation
  }

  // ----- properties of the transitions -----

  /** re-attach increments by exactly one the generation of every tenant on the
      calling node and changes nothing else. */
  lemma ReAttachedEffect(tenants: Tenants, node: NodeId)
    ensures var r := ReAttached(tenants, node);
            && r.Keys == tenants.Keys
            && GenerationsNotDecreased(tenants, r)
            && forall t :: t in tenants ==>
                 && r[t].pageserver == tenants[t].pageserver
                 && (tenants[t].pageserver == Some(node) ==> r[t].generation == tenants[t].generation + 1)
                 && (tenants[t].pageserver != Some(node) ==> r[t] == tenants[t])
  {
  }

  /** attach-hook leaves the tenant's pageserver set to the requested node;
      attaching increments its generation by exactly one (so the first attach
      of an unknown tenant gets generation 1), detaching keeps it; no other
      tenant changes. */
  lemma AttachHookedEffect(tenants: Tenants, tenantId: TenantId, node: Option<NodeId>)
    ensures var r := AttachHooked(tenants, tenantId, node);
            var prev := if tenantId in tenants then tenants[tenantId].generation else 0;
            && GenerationsNotDecreased(tenants, r)
            && r[tenantId].pageserver == node
            && r[tenantId].generation == (if node.Some? then prev + 1 else prev)
            && (tenantId !in tenants && node.Some? ==> r[tenantId].generation == 1)
            && forall t :: t in tenants && t != tenantId ==> r[t] == tenants[t]
  {
  }

  /** validate answers exactly the requests for known tenants, each with
      `valid` meaning "the requested generation is the latest one"; unknown
      tenants are left out of the answer. */
  lemma {:induction false} ValidateResponseMeaning(tenants: Tenants, reqs: seq<ValidateRequestTenant>)
    ensures var resp := ValidateResponse(tenants, reqs);
            && |resp| <= |reqs|
            && (forall e :: e in resp ==>
                  exists q :: q in reqs && q.id == e.id && q.id.tenantId in tenants &&
                              e.valid == (tenants[q.id.tenantId].generation == q.gen))
            && (forall q :: q in reqs && q.id.tenantId in tenants ==>
                  ValidateResponseTenant(q.id, tenants[q.id.tenantId].generation == q.gen) in resp)
            && ((forall q :: q in reqs ==> q.id.tenantId !in tenants) ==> resp == [])
            && var ks := KnownIndices(tenants, reqs);
               && |resp| == |ks|
               && forall k :: 0 <= k < |resp| ==>
                    resp[k] == ValidateResponseTenant(reqs[ks[k]].id, tenants[reqs[ks[k]].id.tenantId].generation == reqs[ks[k]].gen)
  {
    ValidateAnswersRequests(tenants, reqs);
    ValidateAnswersAllKnown(tenants, reqs);
    ValidateAnswersInOrder(tenants, reqs);
  }

  /** Every answer comes from a request for a known tenant. */
  lemma {:induction false} ValidateAnswersRequests(tenants: Tenants, reqs: seq<ValidateRequestTenant>)
    ensures var resp := ValidateResponse(tenants, reqs);
            && |resp| <= |reqs|
            && (forall e :: e in resp ==>
                  exists q :: q in reqs && q.id == e.id && q.id.tenantId in tenants &&
                              e.valid == (tenants[q.id.tenantId].generation == q.gen))
  {
    if reqs != [] {
      var init := reqs[..|reqs| - 1];
      ValidateAnswersRequests(tenants, init);
      assert reqs == init + [reqs[|reqs| - 1]];
    }
  }

  /** Every request for a known tenant is answered. */
  lemma {:induction false} ValidateAnswersAllKnown(tenants: Tenants, reqs: seq<ValidateRequestTenant>)
    ensures var resp := ValidateResponse(tenants, reqs);
            && (forall q :: q in reqs && q.id.tenantId in tenants ==>
                  ValidateResponseTenant(q.id, tenants[q.id.tenantId].generation == q.gen) in resp)
            && ((forall q :: q in reqs ==> q.id.tenantId !in tenants) ==> resp == [])
  {
    if reqs != [] {
      var init := reqs[..|reqs| - 1];
      ValidateAnswersAllKnown(tenants, init);
      assert reqs == init + [reqs[|reqs| - 1]];
    }
  }

  /** The positions, in increasing order, of the requests naming a known
      tenant. */
  function KnownIndices(tenants: Tenants, reqs: seq<ValidateRequestTenant>): (ks: seq<nat>)
    ensures forall k :: 0 <= k < |ks| ==> ks[k] < |reqs| && reqs[ks[k]].id.tenantId in tenants
    ensures forall k, l :: 0 <= k < l < |ks| ==> ks[k] < ks[l]
    ensures forall i :: 0 <= i < |reqs| && reqs[i].id.tenantId in tenants ==> i in ks
  {
    if reqs == [] then []
    else
      var n := |reqs| - 1;
      var init := reqs[..n];
      var prev := KnownIndices(tenants, init);
      assert forall i :: 0 <= i < n ==> init[i] == reqs[i];
      prev + if reqs[n].id.tenantId in tenants then [n] else []
  }

  /** The k-th answer is the answer to the k-th request that names a known
      tenant: one answer per such request, in request order. */
  lemma {:induction false} ValidateAnswersInOrder(tenants: Tenants, reqs: seq<ValidateRequestTenant>)
    ensures var resp := ValidateResponse(tenants, reqs);
            var ks := KnownIndices(tenants, reqs);
            && |resp| == |ks|
            && forall k :: 0 <= k < |resp| ==>
                 resp[k] == ValidateResponseTenant(reqs[ks[k]].id, tenants[reqs[ks[k]].id.tenantId].generation == reqs[ks[k]].gen)
  {
    if reqs != [] {
      var n := |reqs| - 1;
      var init := reqs[..n];
      ValidateAnswersInOrder(tenants, init);
      var prevResp, prevKs := ValidateResponse(tenants, init), KnownIndices(tenants, init);
      assert forall k :: 0 <= k < |prevKs| ==> reqs[prevKs[k]] == init[prevKs[k]];
      if reqs[n].id.tenantId in tenants {
        var a := ValidateResponseTenant(reqs[n].id, tenants[reqs[n].id.tenantId].generation == reqs[n].gen);
        assert ValidateResponse(tenants, reqs) == prevResp + [a];
        assert KnownIndices(tenants, reqs) == prevKs + [n];
      } else {
        assert ValidateResponse(tenants, reqs) == prevResp;
        assert KnownIndices(tenants, reqs) == prevKs;
      }
    }
  }

  /** A generation handed out by attach-hook stops validating once the tenant
      is re-attached by its node: the stale holder is refused. */
  lemma StaleGenerationRefused(tenants: Tenants, tenantId: TenantId, node: NodeId)
    ensures var attached := AttachHooked(tenants, tenantId, Some(node));
            var gen := attached[tenantId].generation;
            var reattached := ReAttached(attached, node);
            && ValidateResponse(attached, [ValidateRequestTenant(Unsharded(tenantId), gen)]) ==
                 [ValidateResponseTenant(Unsharded(tenantId), true)]
            && ValidateResponse(reattached, [ValidateRequestTenant(Unsharded(tenantId), gen)]) ==
                 [ValidateResponseTenant(Unsharded(tenantId), false)]
  {
    var attached := AttachHooked(tenants, tenantId, Some(node));
    var req := [ValidateRequestTenant(Unsharded(tenantId), attached[tenantId].generation)];
    assert req[..0] == [];
  }

  // ----- the state file -----

  /** `to_hex_map`: the tenants map keyed by hex text. Every key written
      decodes back to a tenant of the input, whose value it carries. */
  function ToHexMap<V>(input: map<TenantId, V>): (r: map<string, V>)
    ensures forall k :: k in r ==> TenantIdFromHex(k).Ok? && TenantIdFromHex(k).value in input
    ensures forall k :: k in r ==> r[k] == input[TenantIdFromHex(k).value]
  {
    forall a, b | TenantIdToHex(a) == TenantIdToHex(b) ensures a == b {
      HexInjective(a, b);
    }
    var r := map id | id in input :: TenantIdToHex(id) := input[id];
    forall k | k in r
      ensures TenantIdFromHex(k).Ok? && TenantIdFromHex(k).value in input
      ensures r[k] == input[TenantIdFromHex(k).value]
    {
      var id :| id in input && k == TenantIdToHex(id);
      HexRoundTrip(id);
    }
    r
  }

  /** Each tenant is written under its hex form. */
  lemma ToHexMapEntry<V>(m: map<TenantId, V>, id: TenantId)
    requires id in m
    ensures TenantIdToHex(id) in ToHexMap(m) && ToHexMap(m)[TenantIdToHex(id)] == m[id]
  {
    HexRoundTrip(id);
  }

  /** Every key of `hexMap` is the hex form of some tenant id. */
  ghost predicate KeysDecode<V>(hexMap: map<string, V>) {
    forall k :: k in hexMap ==> TenantIdFromHex(k).Ok?
  }

  /** The tenant ids the keys of `hexMap` decode to. */
  ghost function DecodedIds<V>(hexMap: map<string, V>): (ids: set<TenantId>)
    requires KeysDecode(hexMap)
    ensures forall k :: k in hexMap ==> TenantIdFromHex(k).value in ids
  {
    set k | k in hexMap :: TenantIdFromHex(k).value
  }

  /** The value of one of the keys that decode to `id`. */
  ghost function ValueOf<V>(hexMap: map<string, V>, id: TenantId): (v: V)
    requires KeysDecode(hexMap) && id in DecodedIds(hexMap)
  {
    var k :| k in hexMap && TenantIdFromHex(k) == Ok(id);
    hexMap[k]
  }

  /** `from_hex_map`: fails with the error of a key that is not a tenant id.
      Two keys may name the same tenant (hex digits of either case); which
      value survives then depends on iteration order, so the model only says
      it is one of theirs. */
  ghost function FromHexMap<V>(hexMap: map<string, V>): (r: Result<map<TenantId, V>, HexError>)
    ensures r.Err? <==> !KeysDecode(hexMap)
    ensures r.Err? ==> exists k :: k in hexMap && TenantIdFromHex(k) == Err(r.error)
    ensures r.Ok? ==> r.value.Keys == DecodedIds(hexMap)
  {
    if !KeysDecode(hexMap) then
      var k :| k in hexMap && TenantIdFromHex(k).Err?;
      Err(TenantIdFromHex(k).error)
    else
      Ok(map id | id in DecodedIds(hexMap) :: ValueOf(hexMap, id))
  }

  lemma ToHexMapIdDecoded<V>(m: map<TenantId, V>, id: TenantId)
    requires id in m
    ensures id in DecodedIds(ToHexMap(m))
  {
    ToHexMapEntry(m, id);
    HexRoundTrip(id);
  }

  /** The keys `to_hex_map` writes decode to exactly the original tenants. */
  lemma ToHexMapDecodedIds<V>(m: map<TenantId, V>)
    ensures KeysDecode(ToHexMap(m))
    ensures DecodedIds(ToHexMap(m)) == m.Keys
  {
    forall id | id in m ensures id in DecodedIds(ToHexMap(m)) {
      ToHexMapIdDecoded(m, id);
    }
  }

  lemma ToHexMapValueOf<V>(m: map<TenantId, V>, id: TenantId)
    requires id in m
    ensures KeysDecode(ToHexMap(m)) && id in DecodedIds(ToHexMap(m))
    ensures ValueOf(ToHexMap(m), id) == m[id]
  {
    ToHexMapIdDecoded(m, id);
  }

  /** Reading back what was written gives the same tenants map. */
  lemma HexMapRoundTrip<V>(m: map<TenantId, V>)
    ensures FromHexMap(ToHexMap(m)) == Ok(m)
  {
    HexRoundTripAll();
    ToHexMapDecodedIds(m);
    var got := FromHexMap(ToHexMap(m)).value;
    forall id | id in m ensures got[id] == m[id] {
      ToHexMapValueOf(m, id);
    }
    SameEntries(got, m);
  }

  /** Saving a tenants map and loading the file back gives the same map. */
  lemma SaveThenLoad(m: Tenants)
    ensures LoadOrNew(Stored(ToHexMap(m))) == Ok(m)
  {
    HexMapRoundTrip(m);
  }

  lemma SameEntries<K, V>(a: map<K, V>, b: map<K, V>)
    requires a.Keys == b.Keys
    requires forall k :: k in a ==> a[k] == b[k]
    ensures a == b
  {
  }

  /** What reading the state file gives: no file, a file that cannot be read
      or parsed, or its tenants map with hex keys. */
  datatype StateFile = NotFound | Unreadable | Stored(tenants: map<string, TenantState>)

  datatype LoadError = LoadFailed | BadTenantId(error: HexError)

  /** `load_or_new`: a missing state file means an empty state; any other load
      failure, a bad tenant id among them, aborts start-up. */
  ghost function LoadOrNew(file: StateFile): (r: Result<Tenants, LoadError>)
    ensures file.NotFound? ==> r == Ok(map[])
    ensures file.Unreadable? ==> r.Err?
    ensures file.Stored? ==> (r.Ok? <==> forall k :: k in file.tenants ==> TenantIdFromHex(k).Ok?)
    ensures file.Stored? && r.Ok? ==> r.value == FromHexMap(file.tenants).value
  {
    match file
    case NotFound => Ok(map[])
    case Unreadable => Err(LoadFailed)
    case Stored(hm) =>
      match FromHexMap(hm)
      case Ok(tenants) => Ok(tenants)
      case Err(e) => Err(BadTenantId(e))
  }

  // ----- the service -----

  /** The re-attach response so far holds exactly the tenants of `node` that
      are no longer in `todo`, with their incremented generations. */
  ghost predicate Responded(before: Tenants, node: NodeId, todo: set<TenantId>, response: seq<ReAttachResponseTenant>) {
    && (forall e :: e in response <==>
          exists t :: t in before && t !in todo && before[t].pageserver == Some(node) &&
                      e == ReAttachResponseTenant(Unsharded(t), before[t].generation + 1))
    && (forall i, j :: 0 <= i < j < |response| ==> response[i].id != response[j].id)
    && (forall e :: e in response ==> e.id.tenantId !in todo)
  }

  lemma RespondedStep(before: Tenants, node: NodeId, todo: set<TenantId>, t: TenantId, response: seq<ReAttachResponseTenant>)
    requires t in todo && t in before
    requires Responded(before, node, todo, response)
    ensures before[t].pageserver == Some(node) ==>
              Responded(before, node, todo - {t}, response + [ReAttachResponseTenant(Unsharded(t), before[t].generation + 1)])
    ensures before[t].pageserver != Some(node) ==> Responded(before, node, todo - {t}, response)
  {
  }

  class Service {
    var tenants: Tenants

    constructor (initial: Tenants)
      ensures tenants == initial
    {
      tenants := initial;
    }

    /** `handle_re_attach`. The response lists, in map iteration order, every
        tenant attached to `node` with its new generation. A failed save
        returns an error after the in-memory state has changed. */
    method ReAttach(node: NodeId, saveOk: bool) returns (r: Result<seq<ReAttachResponseTenant>, ApiError>)
      modifies this
      ensures tenants == ReAttached(old(tenants), node)
      ensures GenerationsNotDecreased(old(tenants), tenants)
      ensures r.Ok? <==> saveOk
      ensures r.Ok? ==> forall e :: e in r.value <==>
                exists t :: t in old(tenants) && old(tenants)[t].pageserver == Some(node) &&
                            e == ReAttachResponseTenant(Unsharded(t), old(tenants)[t].generation + 1)
      ensures r.Ok? ==> forall i, j :: 0 <= i < j < |r.value| ==> r.value[i].id != r.value[j].id
    {
      var before := tenants;
      var updated := before;
      var response: seq<ReAttachResponseTenant> := [];
      var todo := before.Keys;
      while todo != {}
        invariant todo <= before.Keys
        invariant updated.Keys == before.Keys
        invariant forall t :: t in todo ==> updated[t] == before[t]
        invariant forall t :: t in before && t !in todo ==> updated[t] == ReAttachedState(before[t], node)
        invariant Responded(before, node, todo, response)
        decreases todo
      {
        var t :| t in todo;
        RespondedStep(before, node, todo, t, response);
        var state := updated[t];
        if state.pageserver == Some(node) {
          state := state.(generation := state.generation + 1);
          updated := updated[t := state];
          response := response + [ReAttachResponseTenant(Unsharded(t), state.generation)];
        }
        todo := todo - {t};
      }
      SameEntries(updated, ReAttached(before, node));
      tenants := updated;
      if !saveOk {
        return Err(InternalServerError);
      }
      r := Ok(response);
    }

    /** `handle_validate`: reads the map only. */
    method Validate(reqs: seq<ValidateRequestTenant>) returns (resp: seq<ValidateResponseTenant>)
      ensures resp == ValidateResponse(tenants, reqs)
    {
      resp := [];
      var i := 0;
      while i < |reqs|
        invariant 0 <= i <= |reqs|
        invariant resp == ValidateResponse(tenants, reqs[..i])
      {
        var req := reqs[i];
        assert reqs[..i + 1][..i] == reqs[..i];
        if req.id.tenantId in tenants {
          var valid := tenants[req.id.tenantId].generation == req.gen;
          resp := resp + [ValidateResponseTenant(req.id, valid)];
        }
        i := i + 1;
      }
      assert reqs[..i] == reqs;
    }

    /** `handle_attach_hook`: returns the new generation when attaching and
        none when detaching. A failed save returns an error after the
        in-memory state has changed. */
    method AttachHook(tenantId: TenantId, node: Option<NodeId>, saveOk: bool) returns (r: Result<Option<Generation>, ApiError>)
      modifies this
      ensures tenants == AttachHooked(old(tenants), tenantId, node)
      ensures GenerationsNotDecreased(old(tenants), tenants)
      ensures r.Ok? <==> saveOk
      ensures r.Ok? ==> r.value == if node.Some? then Some(tenants[tenantId].generation) else None
    {
      if tenantId !in tenants {
        tenants := tenants[tenantId := TenantState(node, 0)];
      }
      var state := tenants[tenantId];
      if node.Some? {
        state := state.(generation := state.generation + 1);
      }
      state := state.(pageserver := node);
      tenants := tenants[tenantId := state];
      var generation := state.generation;
      if !saveOk {
        return Err(InternalServerError);
      }
      r := Ok(if node.Some? then Some(generation) else None);
    }

    /** `handle_inspect`: reads the map only. */
    method Inspect(tenantId: TenantId) returns (attachment: Option<(Generation, NodeId)>)
      ensures attachment == Attachment(tenants, tenantId)
      ensures attachment.Some? <==> tenantId in tenants && tenants[tenantId].pageserver.Some?
      ensures attachment.Some? ==>
                attachment.value == (tenants[tenantId].generation, tenants[tenantId].pageserver.value)
    {
      if tenantId in tenants && tenants[tenantId].pageserver.Some? {
        var s := tenants[tenantId];
        attachment := Some((s.generation, s.pageserver.value));
      } else {
        attachment := None;
      }
    }
  }
}
