/** Cost and usage aggregation over paged observations (`core/gateway/langfuse_cost_tracker.py`). */
module Usage {
  import opened Basics
  import opened Rounding

  /** An observation as fetched; absent or falsy fields are `None` or zero. */
  datatype Observation = Observation(
    metadata: Option<map<string, string>>,
    model: Option<string>,
    cost: Option<real>,
    input: Option<int>,
    output: Option<int>)

  datatype ModelUsage = ModelUsage(cost: real, input: int, output: int, requests: nat)

  datatype ServiceUsage = ServiceUsage(
    cost: real,
    input: int,
    output: int,
    requests: nat,
    models: map<string, ModelUsage>)

  const NO_MODEL_USAGE := ModelUsage(0.0, 0, 0, 0)
  const NO_USAGE := ServiceUsage(0.0, 0, 0, 0, map[])

  /** `metadata.get("service_name", "unknown")`, or "unknown" without metadata. */
  function ServiceOf(o: Observation): string {
    if o.metadata.Some? && "service_name" in o.metadata.value then o.metadata.value["service_name"] else "unknown"
  }

  /** `provided_model_name or "unknown"` */
  function ModelOf(o: Observation): string {
    if o.model.Some? && o.model.value != "" then o.model.value else "unknown"
  }

  /** What one observation contributes. */
  function UsageOf(o: Observation): ModelUsage {
    ModelUsage(o.cost.GetOr(0.0), o.input.GetOr(0), o.output.GetOr(0), 1)
  }

  function Plus(a: ModelUsage, b: ModelUsage): ModelUsage {
    ModelUsage(a.cost + b.cost, a.input + b.input, a.output + b.output, a.requests + b.requests)
  }

  /** The observations a filter lets through; an empty filter string is no filter. */
  predicate Wanted(o: Observation, service: Option<string>) {
    service.Some? && service.value != "" ==> ServiceOf(o) == service.value
  }

  // ---------------------------------------------------------------- reference: plain sums

  /** The sum over all observations of one service, and over those of one of its models. */
  function ServiceTotal(obs: seq<Observation>, service: string): ModelUsage {
    if obs == [] then NO_MODEL_USAGE
    else
      var o := obs[|obs| - 1];
      var rest := ServiceTotal(obs[..|obs| - 1], service);
      if ServiceOf(o) == service then Plus(rest, UsageOf(o)) else rest
  }

  function ModelTotal(obs: seq<Observation>, service: string, model: string): ModelUsage {
    if obs == [] then NO_MODEL_USAGE
    else
      var o := obs[|obs| - 1];
      var rest := ModelTotal(obs[..|obs| - 1], service, model);
      if ServiceOf(o) == service && ModelOf(o) == model then Plus(rest, UsageOf(o)) else rest
  }

  function Totals(s: ServiceUsage): ModelUsage {
    ModelUsage(s.cost, s.input, s.output, s.requests)
  }

  /** The models that occur in a service's observations. */
  function ModelsIn(obs: seq<Observation>, service: string): set<string> {
    set o | o in obs && ServiceOf(o) == service :: ModelOf(o)
  }

  ghost predicate Seen(obs: seq<Observation>, s: string, filter: Option<string>) {
    exists i :: 0 <= i < |obs| && ServiceOf(obs[i]) == s && Wanted(obs[i], filter)
  }

  /** One service's account holds exactly the plain sums. */
  ghost predicate Fits(u: ServiceUsage, obs: seq<Observation>, s: string) {
    && Totals(u) == ServiceTotal(obs, s)
    && u.models.Keys == ModelsIn(obs, s)
    && forall m :: m in u.models ==> u.models[m] == ModelTotal(obs, s, m)
  }

  /** The accumulator of the aggregation loop: an account for every wanted service seen, and no other. */
  ghost predicate Accounts(services: map<string, ServiceUsage>, obs: seq<Observation>, filter: Option<string>) {
    && (forall s :: s in services <==> Seen(obs, s, filter))
    && (forall s :: s in services ==> Fits(services[s], obs, s))
  }

  // ---------------------------------------------------------------- the summary

  /** One service's part of the reply: the total cost is rounded, the models' costs are not. */
  function Entry(s: ServiceUsage): ServiceUsage {
    s.(cost := Round8(s.cost))
  }

  datatype Summary =
    | OneService(service: string, usage: ServiceUsage)
    | NothingFor(service: string)
    | AllServices(services: map<string, ServiceUsage>)

  /** The last part of `_aggregate`; a service without observations gets zeros and no models. */
  function Summarize(services: map<string, ServiceUsage>, filter: Option<string>): Summary {
    if filter.Some? && filter.value != "" then
      if filter.value in services then OneService(filter.value, Entry(services[filter.value]))
      else NothingFor(filter.value)
    else
      AllServices(map s | s in services :: Entry(services[s]))
  }

  /** `_aggregate` */
  method Aggregate(obs: seq<Observation>, filter: Option<string>)
    returns (summary: Summary, services: map<string, ServiceUsage>)
    ensures Accounts(services, obs, filter)
    ensures summary == Summarize(services, filter)
  {
    services := map[];
    for i := 0 to |obs|
      invariant Accounts(services, obs[..i], filter)
    {
      assert obs[..i + 1] == obs[..i] + [obs[i]];
      if Wanted(obs[i], filter) {
        services := AddTo(services, obs[i], obs[..i], filter);
      }
    }
    assert obs[..|obs|] == obs;
    summary := Summarize(services, filter);
  }

  /** The loop body: add one observation to its service and, within it, to its model. */
  method AddTo(services: map<string, ServiceUsage>, o: Observation, ghost obs: seq<Observation>,
               ghost filter: Option<string>)
    returns (after: map<string, ServiceUsage>)
    requires Accounts(services, obs, filter) && Wanted(o, filter)
    ensures Accounts(after, obs + [o], filter)
  {
    var svc := ServiceOf(o);
    var v := Added(if svc in services then services[svc] else NO_USAGE, o);
    WantedStep(services, v, obs, o, filter);
    after := services[svc := v];
  }

  /** `svc_data` and, inside it, `model_data` after the eight increments. */
  function Added(s: ServiceUsage, o: Observation): (v: ServiceUsage)
    ensures OneMore(s, v, o)
  {
    var model, u := ModelOf(o), UsageOf(o);
    var m := if model in s.models then s.models[model] else NO_MODEL_USAGE;
    ServiceUsage(s.cost + u.cost, s.input + u.input, s.output + u.output, s.requests + 1, s.models[model := Plus(m, u)])
  }

  lemma {:induction false} TotalsAfter(obs: seq<Observation>, o: Observation, s: string, m: string)
    ensures ServiceTotal(obs + [o], s) ==
            if ServiceOf(o) == s then Plus(ServiceTotal(obs, s), UsageOf(o)) else ServiceTotal(obs, s)
    ensures ModelTotal(obs + [o], s, m) ==
            if ServiceOf(o) == s && ModelOf(o) == m then Plus(ModelTotal(obs, s, m), UsageOf(o))
            else ModelTotal(obs, s, m)
    ensures ModelsIn(obs + [o], s) == if ServiceOf(o) == s then ModelsIn(obs, s) + {ModelOf(o)} else ModelsIn(obs, s)
  {
    assert (obs + [o])[..|obs|] == obs;
    assert forall p :: p in obs + [o] <==> p in obs || p == o;
  }

  lemma {:induction false} UnseenService(obs: seq<Observation>, s: string)
    requires forall i :: 0 <= i < |obs| ==> ServiceOf(obs[i]) != s
    ensures ServiceTotal(obs, s) == NO_MODEL_USAGE && ModelsIn(obs, s) == {}
  {
    if obs != [] {
      UnseenService(obs[..|obs| - 1], s);
      TotalsAfter(obs[..|obs| - 1], obs[|obs| - 1], s, "");
      assert obs == obs[..|obs| - 1] + [obs[|obs| - 1]];
    }
  }

  lemma {:induction false} UnseenModel(obs: seq<Observation>, s: string, m: string)
    requires m !in ModelsIn(obs, s)
    ensures ModelTotal(obs, s, m) == NO_MODEL_USAGE
  {
    if obs != [] {
      var n := |obs| - 1;
      assert obs == obs[..n] + [obs[n]];
      TotalsAfter(obs[..n], obs[n], s, m);
      UnseenModel(obs[..n], s, m);
    }
  }

  lemma {:induction false} SeenAfter(obs: seq<Observation>, o: Observation, s: string, filter: Option<string>)
    ensures Seen(obs + [o], s, filter) <==> Seen(obs, s, filter) || (ServiceOf(o) == s && Wanted(o, filter))
  {
    if Seen(obs, s, filter) {
      var i :| 0 <= i < |obs| && ServiceOf(obs[i]) == s && Wanted(obs[i], filter);
      assert (obs + [o])[i] == obs[i];
    }
    if ServiceOf(o) == s && Wanted(o, filter) {
      assert (obs + [o])[|obs|] == o;
    }
  }

  function ServiceBefore(services: map<string, ServiceUsage>, o: Observation): ServiceUsage {
    if ServiceOf(o) in services then services[ServiceOf(o)] else NO_USAGE
  }

  function ModelBefore(u: ServiceUsage, o: Observation): ModelUsage {
    if ModelOf(o) in u.models then u.models[ModelOf(o)] else NO_MODEL_USAGE
  }

  /** `v` is `u` with one more observation added to the totals and to its model. */
  predicate OneMore(u: ServiceUsage, v: ServiceUsage, o: Observation) {
    && Totals(v) == Plus(Totals(u), UsageOf(o))
    && v.models == u.models[ModelOf(o) := Plus(ModelBefore(u, o), UsageOf(o))]
  }

  lemma {:induction false} FitsAfter(u: ServiceUsage, v: ServiceUsage, obs: seq<Observation>, o: Observation)
    requires Fits(u, obs, ServiceOf(o)) && OneMore(u, v, o)
    ensures Fits(v, obs + [o], ServiceOf(o))
  {
    var s, model := ServiceOf(o), ModelOf(o);
    TotalsAfter(obs, o, s, model);
    if model !in u.models { UnseenModel(obs, s, model); }
    assert ModelBefore(u, o) == ModelTotal(obs, s, model);
    forall m | m in v.models ensures v.models[m] == ModelTotal(obs + [o], s, m) {
      TotalsAfter(obs, o, s, m);
    }
  }

  lemma {:induction false} WantedStep(before: map<string, ServiceUsage>, v: ServiceUsage, obs: seq<Observation>,
                                      o: Observation, filter: Option<string>)
    requires Accounts(before, obs, filter) && Wanted(o, filter)
    requires OneMore(ServiceBefore(before, o), v, o)
    ensures Accounts(before[ServiceOf(o) := v], obs + [o], filter)
  {
    var after := before[ServiceOf(o) := v];
    forall s ensures s in after <==> Seen(obs + [o], s, filter) { SeenAfter(obs, o, s, filter); }
    forall s | s in after ensures Fits(after[s], obs + [o], s) { WantedFits(before, v, obs, o, filter, s); }
  }

  lemma {:induction false} WantedFits(before: map<string, ServiceUsage>, v: ServiceUsage, obs: seq<Observation>,
                                      o: Observation, filter: Option<string>, s: string)
    requires Accounts(before, obs, filter) && Wanted(o, filter)
    requires OneMore(ServiceBefore(before, o), v, o)
    requires s in before || s == ServiceOf(o)
    ensures Fits(if s == ServiceOf(o) then v else before[s], obs + [o], s)
  {
    if s != ServiceOf(o) {
    } else {
      if s !in before { FirstOfService(before, obs, o, filter); }
      FitsAfter(ServiceBefore(before, o), v, obs, o);
    }
  }

  lemma {:induction false} FirstOfService(before: map<string, ServiceUsage>, obs: seq<Observation>, o: Observation,
                                          filter: Option<string>)
    requires Accounts(before, obs, filter) && Wanted(o, filter) && ServiceOf(o) !in before
    ensures Fits(NO_USAGE, obs, ServiceOf(o))
  {
    var svc := ServiceOf(o);
    assert !Seen(obs, svc, filter);
    forall i | 0 <= i < |obs| ensures ServiceOf(obs[i]) != svc {
      if ServiceOf(obs[i]) == svc { assert Wanted(obs[i], filter); }
    }
    UnseenService(obs, svc);
  }

  // ---------------------------------------------------------------- paging

  /** One page of the observations API; an empty cursor string ends the listing like a missing one. */
  datatype Page = Page(data: seq<Observation>, next: Option<string>)

  predicate HasNext(p: Page) {
    p.next.Some? && p.next.value != ""
  }

  /** Following cursors from `cursor` on reaches a last page within `hops` further requests. */
  predicate Ends(server: Option<string> -> Page, cursor: Option<string>, hops: nat)
    decreases hops
  {
    !HasNext(server(cursor)) || (hops > 0 && Ends(server, server(cursor).next, hops - 1))
  }

  /** All observations, page after page. */
  function Listing(server: Option<string> -> Page, cursor: Option<string>, hops: nat): seq<Observation>
    requires Ends(server, cursor, hops)
    decreases hops
  {
    var p := server(cursor);
    if HasNext(p) then p.data + Listing(server, p.next, hops - 1) else p.data
  }

  /** The paging loop of `_query_langfuse`, then the aggregation. */
  method QueryLangfuse(server: Option<string> -> Page, filter: Option<string>, ghost hops: nat)
    returns (summary: Summary, services: map<string, ServiceUsage>)
    requires Ends(server, None, hops)
    ensures Accounts(services, Listing(server, None, hops), filter)
    ensures summary == Summarize(services, filter)
  {
    var observations := [];
    var cursor := None;
    ghost var left := hops;
    while true
      invariant Ends(server, cursor, left)
      invariant observations + Listing(server, cursor, left) == Listing(server, None, hops)
      decreases left
    {
      var response := server(cursor);
      observations := observations + response.data;
      if !HasNext(response) {
        break;
      }
      cursor := response.next;
      left := left - 1;
    }
    assert observations == Listing(server, None, hops);
    summary, services := Aggregate(observations, filter);
  }
}
