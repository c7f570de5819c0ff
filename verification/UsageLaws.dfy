/** Aggregation commutes with filtering and paging, and conserves every quantity. */
module UsageLaws {
  import opened Basics
  import opened Rounding
  import opened Sums
  import opened Usage

  // ---------------------------------------------------------------- the account is unique

  /** The account of one service does not depend on the filter that let it through. */
  lemma {:induction false} AccountsAgree(a: map<string, ServiceUsage>, b: map<string, ServiceUsage>,
                                         obs: seq<Observation>, f: Option<string>, g: Option<string>, s: string)
    requires Accounts(a, obs, f) && Accounts(b, obs, g) && s in a && s in b
    ensures a[s] == b[s]
  {}

  /** Filtering by a non-empty service name gives exactly that service's entry of the unfiltered summary. */
  lemma {:induction false} FilterCommutes(filtered: map<string, ServiceUsage>, all: map<string, ServiceUsage>,
                                          obs: seq<Observation>, s: string)
    requires Accounts(filtered, obs, Some(s)) && Accounts(all, obs, None) && s != ""
    ensures Summarize(filtered, Some(s)) ==
            if s in all then OneService(s, Summarize(all, None).services[s]) else NothingFor(s)
  {
    if s in all {
      AccountsAgree(filtered, all, obs, Some(s), None, s);
    }
  }

  /** An empty filter string is no filter. */
  lemma {:induction false} EmptyFilter(a: map<string, ServiceUsage>, all: map<string, ServiceUsage>,
                                       obs: seq<Observation>)
    requires Accounts(a, obs, Some("")) && Accounts(all, obs, None)
    ensures Summarize(a, Some("")) == Summarize(all, None)
  {
    forall s ensures Seen(obs, s, Some("")) <==> Seen(obs, s, None) {
      if Seen(obs, s, Some("")) {
        var i :| 0 <= i < |obs| && ServiceOf(obs[i]) == s && Wanted(obs[i], Some(""));
        assert Wanted(obs[i], None);
      }
      if Seen(obs, s, None) {
        var i :| 0 <= i < |obs| && ServiceOf(obs[i]) == s && Wanted(obs[i], None);
        assert Wanted(obs[i], Some(""));
      }
    }
    forall s | s in all ensures a[s] == all[s] { AccountsAgree(a, all, obs, Some(""), None, s); }
    assert a == all;
  }

  // ---------------------------------------------------------------- pages

  function Flat(pages: seq<seq<Observation>>): seq<Observation> {
    if pages == [] then [] else pages[0] + Flat(pages[1..])
  }

  /** From this cursor on the server hands out exactly these pages, one after the other. */
  predicate Serves(server: Option<string> -> Page, cursor: Option<string>, pages: seq<seq<Observation>>)
    decreases |pages|
  {
    && pages != [] && server(cursor).data == pages[0]
    && if |pages| == 1 then !HasNext(server(cursor))
       else HasNext(server(cursor)) && Serves(server, server(cursor).next, pages[1..])
  }

  /** Following the cursors ends after the last page, and collects the pages' observations in order. */
  lemma {:induction false} ListingIsFlat(server: Option<string> -> Page, cursor: Option<string>,
                                         pages: seq<seq<Observation>>, hops: nat)
    requires Serves(server, cursor, pages)
    ensures Ends(server, cursor, hops) <==> hops >= |pages| - 1
    ensures Ends(server, cursor, hops) ==> Listing(server, cursor, hops) == Flat(pages)
    decreases |pages|
  {
    if |pages| == 1 {
      assert Flat(pages[1..]) == [];
    } else if hops > 0 {
      ListingIsFlat(server, server(cursor).next, pages[1..], hops - 1);
    }
  }

  /** A cursor that stands for page `k`. */
  function CursorOf(k: nat): Option<string> {
    if k == 0 then None else Some(seq(k, _ => 'x'))
  }

  function PageServer(pages: seq<seq<Observation>>): Option<string> -> Page {
    (cursor: Option<string>) =>
      var k := if cursor.Some? then |cursor.value| else 0;
      Page(if k < |pages| then pages[k] else [], if k + 1 < |pages| then CursorOf(k + 1) else None)
  }

  /** Every division into pages is served by some server. */
  lemma {:induction false} PagesAreServed(pages: seq<seq<Observation>>, k: nat)
    requires k < |pages|
    ensures Serves(PageServer(pages), CursorOf(k), pages[k..])
    decreases |pages| - k
  {
    if k + 1 < |pages| {
      PagesAreServed(pages, k + 1);
      assert pages[k..][1..] == pages[k + 1..];
    }
  }

  /** The listing ends with a page whose cursor is missing or empty, and only there. */
  lemma {:induction false} LastPage(server: Option<string> -> Page, cursor: Option<string>)
    ensures Ends(server, cursor, 0) <==> server(cursor).next == None || server(cursor).next == Some("")
    ensures Ends(server, cursor, 0) ==> Listing(server, cursor, 0) == server(cursor).data
  {}

  // ---------------------------------------------------------------- order and paging do not matter

  function Without(obs: seq<Observation>, i: nat): seq<Observation>
    requires i < |obs|
  {
    obs[..i] + obs[i + 1..]
  }

  predicate Extends(total: ModelUsage, rest: ModelUsage, u: ModelUsage, included: bool) {
    total == if included then Plus(rest, u) else rest
  }

  /** Adding `v` after `u` is adding `u` after `v`. */
  lemma {:induction false} Exchange(total: ModelUsage, left: ModelUsage, right: ModelUsage, rest: ModelUsage,
                                    u: ModelUsage, p: bool, v: ModelUsage, q: bool)
    requires Extends(total, left, v, q) && Extends(left, rest, u, p) && Extends(right, rest, v, q)
    ensures Extends(total, right, u, p)
  {}

  /** `all` holds the observations of `rest` and one more, as far as the sums can tell. */
  predicate OneMoreSummed(all: seq<Observation>, rest: seq<Observation>, o: Observation, s: string, m: string) {
    && Extends(ServiceTotal(all, s), ServiceTotal(rest, s), UsageOf(o), ServiceOf(o) == s)
    && Extends(ModelTotal(all, s, m), ModelTotal(rest, s, m), UsageOf(o), ServiceOf(o) == s && ModelOf(o) == m)
  }

  lemma {:induction false} ExchangeSummed(all: seq<Observation>, left: seq<Observation>, right: seq<Observation>,
                                          rest: seq<Observation>, o: Observation, p: Observation, s: string, m: string)
    requires OneMoreSummed(all, left, p, s, m) && OneMoreSummed(left, rest, o, s, m)
    requires OneMoreSummed(right, rest, p, s, m)
    ensures OneMoreSummed(all, right, o, s, m)
  {
    var u, v := UsageOf(o), UsageOf(p);
    Exchange(ServiceTotal(all, s), ServiceTotal(left, s), ServiceTotal(right, s), ServiceTotal(rest, s),
             u, ServiceOf(o) == s, v, ServiceOf(p) == s);
    Exchange(ModelTotal(all, s, m), ModelTotal(left, s, m), ModelTotal(right, s, m), ModelTotal(rest, s, m),
             u, ServiceOf(o) == s && ModelOf(o) == m, v, ServiceOf(p) == s && ModelOf(p) == m);
  }

  /** Any observation may be taken out of the sums, not only the last one. */
  lemma {:induction false} TakeOut(obs: seq<Observation>, i: nat, s: string, m: string)
    requires i < |obs|
    ensures OneMoreSummed(obs, Without(obs, i), obs[i], s, m)
    decreases |obs|
  {
    var n := |obs| - 1;
    var before, last := obs[..n], obs[n];
    assert obs == before + [last];
    if i == n {
      assert Without(obs, i) == before;
    } else {
      var rest := Without(before, i);
      assert Without(obs, i) == rest + [last];
      TakeOut(before, i, s, m);
      ExchangeSummed(obs, before, rest + [last], rest, obs[i], last, s, m);
    }
  }

  lemma {:induction false} WithoutMultiset(obs: seq<Observation>, i: nat)
    requires i < |obs|
    ensures multiset(obs) == multiset(Without(obs, i)) + multiset{obs[i]}
  {
    assert obs == obs[..i] + [obs[i]] + obs[i + 1..];
  }

  lemma {:induction false} FindIn(x: seq<Observation>, y: seq<Observation>) returns (i: nat)
    requires multiset(x) == multiset(y) && x != []
    ensures i < |y| && y[i] == x[0] && multiset(Without(x, 0)) == multiset(Without(y, i))
  {
    assert x[0] in multiset(x);
    assert x[0] in y;
    i :| 0 <= i < |y| && y[i] == x[0];
    WithoutMultiset(x, 0);
    WithoutMultiset(y, i);
    var o := multiset{x[0]};
    assert multiset(x) - o == multiset(Without(x, 0)) && multiset(y) - o == multiset(Without(y, i));
  }

  /** The sums depend on which observations there are, not on their order. */
  lemma {:induction false} SameTotals(x: seq<Observation>, y: seq<Observation>, s: string, m: string)
    requires multiset(x) == multiset(y)
    ensures ServiceTotal(x, s) == ServiceTotal(y, s) && ModelTotal(x, s, m) == ModelTotal(y, s, m)
    decreases |x|
  {
    if x == [] {
      assert |multiset(y)| == 0;
    } else {
      var i := FindIn(x, y);
      TakeOut(x, 0, s, m);
      TakeOut(y, i, s, m);
      SameTotals(Without(x, 0), Without(y, i), s, m);
    }
  }

  lemma {:induction false} SameMembers(x: seq<Observation>, y: seq<Observation>, o: Observation)
    requires multiset(x) == multiset(y)
    ensures o in x <==> o in y
  {
    assert o in x <==> o in multiset(x);
    assert o in y <==> o in multiset(y);
  }

  lemma {:induction false} SameFits(u: ServiceUsage, x: seq<Observation>, y: seq<Observation>, s: string)
    requires multiset(x) == multiset(y) && Fits(u, x, s)
    ensures Fits(u, y, s)
  {
    SameTotals(x, y, s, "");
    forall o ensures o in x <==> o in y { SameMembers(x, y, o); }
    forall m | m in u.models ensures u.models[m] == ModelTotal(y, s, m) { SameTotals(x, y, s, m); }
  }

  lemma {:induction false} SameSeen(x: seq<Observation>, y: seq<Observation>, s: string, filter: Option<string>)
    requires multiset(x) == multiset(y) && Seen(x, s, filter)
    ensures Seen(y, s, filter)
  {
    var i :| 0 <= i < |x| && ServiceOf(x[i]) == s && Wanted(x[i], filter);
    SameMembers(x, y, x[i]);
    var k :| 0 <= k < |y| && y[k] == x[i];
  }

  /** The accounts do not depend on the order in which the observations come. */
  lemma {:induction false} OrderIsIrrelevant(x: seq<Observation>, y: seq<Observation>, filter: Option<string>,
                                             a: map<string, ServiceUsage>, b: map<string, ServiceUsage>)
    requires multiset(x) == multiset(y) && Accounts(a, x, filter) && Accounts(b, y, filter)
    ensures a == b
  {
    forall s ensures s in a <==> s in b {
      if s in a { SameSeen(x, y, s, filter); }
      if s in b { SameSeen(y, x, s, filter); }
    }
    forall s | s in a ensures a[s] == b[s] {
      SameFits(a[s], x, y, s);
    }
    assert a.Keys == b.Keys;
  }

  /**
   * Two servers that hand out the same observations give the same summary, however these are divided into pages and
   * in whatever order they and the pages come.
   */
  lemma {:induction false} PagingIsIrrelevant(
      server: Option<string> -> Page, pages: seq<seq<Observation>>, n: nat, a: map<string, ServiceUsage>,
      other: Option<string> -> Page, otherPages: seq<seq<Observation>>, m: nat, b: map<string, ServiceUsage>,
      filter: Option<string>)
    requires Serves(server, None, pages) && Serves(other, None, otherPages)
    requires multiset(Flat(pages)) == multiset(Flat(otherPages))
    requires Ends(server, None, n) && Accounts(a, Listing(server, None, n), filter)
    requires Ends(other, None, m) && Accounts(b, Listing(other, None, m), filter)
    ensures Summarize(a, filter) == Summarize(b, filter)
  {
    ListingIsFlat(server, None, pages, n);
    ListingIsFlat(other, None, otherPages, m);
    OrderIsIrrelevant(Flat(pages), Flat(otherPages), filter, a, b);
  }

  // ---------------------------------------------------------------- conservation

  datatype Quantity = Cost | Input | Output | Requests

  function Measure(q: Quantity, u: ModelUsage): real {
    match q
    case Cost => u.cost
    case Input => u.input as real
    case Output => u.output as real
    case Requests => u.requests as real
  }

  function PerModel(q: Quantity, obs: seq<Observation>, s: string): string -> real {
    m => Measure(q, ModelTotal(obs, s, m))
  }

  /** Summed over any set of models that covers the service's, the models' totals make up the service's. */
  lemma {:induction false} ModelsMakeUpService(q: Quantity, obs: seq<Observation>, s: string, models: set<string>)
    requires ModelsIn(obs, s) <= models
    ensures Sum(models, PerModel(q, obs, s)) == Measure(q, ServiceTotal(obs, s))
  {
    if obs == [] {
      Zero(models, PerModel(q, obs, s));
    } else {
      var n := |obs| - 1;
      var before, o := obs[..n], obs[n];
      assert obs == before + [o];
      TotalsAfter(before, o, s, "");
      ModelsMakeUpService(q, before, s, models);
      forall m ensures PerModel(q, obs, s)(m) == PerModel(q, before, s)(m) +
                       (if ServiceOf(o) == s && ModelOf(o) == m then Measure(q, UsageOf(o)) else 0.0)
      {
        TotalsAfter(before, o, s, m);
      }
      if ServiceOf(o) == s {
        Bump(models, PerModel(q, before, s), PerModel(q, obs, s), ModelOf(o));
      } else {
        Congruent(models, PerModel(q, before, s), PerModel(q, obs, s));
      }
    }
  }

  function OverModels(q: Quantity, u: ServiceUsage): string -> real {
    m => if m in u.models then Measure(q, u.models[m]) else 0.0
  }

  /** Each service's unrounded cost, tokens and requests equal the sums over its models. */
  lemma {:induction false} ServiceIsSumOfModels(services: map<string, ServiceUsage>, obs: seq<Observation>,
                                                filter: Option<string>, s: string, q: Quantity)
    requires Accounts(services, obs, filter) && s in services
    ensures Measure(q, Totals(services[s])) == Sum(services[s].models.Keys, OverModels(q, services[s]))
  {
    var models := services[s].models.Keys;
    ModelsMakeUpService(q, obs, s, models);
    Congruent(models, OverModels(q, services[s]), PerModel(q, obs, s));
  }

  /** What one observation carries: its own fields, absent ones as zero, and one request. */
  function Carried(q: Quantity, o: Observation): real {
    match q
    case Cost => if o.cost.Some? then o.cost.value else 0.0
    case Input => if o.input.Some? then o.input.value as real else 0.0
    case Output => if o.output.Some? then o.output.value as real else 0.0
    case Requests => 1.0
  }

  /** The sum over all observations, whatever their service. */
  function GrandTotal(q: Quantity, obs: seq<Observation>): real {
    if obs == [] then 0.0 else GrandTotal(q, obs[..|obs| - 1]) + Carried(q, obs[|obs| - 1])
  }

  function PerService(q: Quantity, obs: seq<Observation>): string -> real {
    s => Measure(q, ServiceTotal(obs, s))
  }

  lemma {:induction false} ServicesMakeUpTotal(q: Quantity, obs: seq<Observation>, names: set<string>)
    requires forall i :: 0 <= i < |obs| ==> ServiceOf(obs[i]) in names
    ensures Sum(names, PerService(q, obs)) == GrandTotal(q, obs)
  {
    if obs == [] {
      Zero(names, PerService(q, obs));
    } else {
      var n := |obs| - 1;
      var before, o := obs[..n], obs[n];
      assert obs == before + [o];
      ServicesMakeUpTotal(q, before, names);
      forall s ensures PerService(q, obs)(s) == PerService(q, before)(s) +
                       (if ServiceOf(o) == s then Measure(q, UsageOf(o)) else 0.0)
      {
        TotalsAfter(before, o, s, "");
      }
      Bump(names, PerService(q, before), PerService(q, obs), ServiceOf(o));
    }
  }

  function OverServices(q: Quantity, services: map<string, ServiceUsage>): string -> real {
    s => if s in services then Measure(q, Totals(services[s])) else 0.0
  }

  /** Nothing is dropped or counted twice: the unfiltered services add up to all observations. */
  lemma {:induction false} ServicesConserveTotal(services: map<string, ServiceUsage>, obs: seq<Observation>,
                                                 q: Quantity)
    requires Accounts(services, obs, None)
    ensures Sum(services.Keys, OverServices(q, services)) == GrandTotal(q, obs)
  {
    forall i | 0 <= i < |obs| ensures ServiceOf(obs[i]) in services.Keys {
      assert Wanted(obs[i], None);
      assert Seen(obs, ServiceOf(obs[i]), None);
    }
    ServicesMakeUpTotal(q, obs, services.Keys);
    forall s | s in services ensures OverServices(q, services)(s) == PerService(q, obs)(s) {
      assert Fits(services[s], obs, s);
    }
    Congruent(services.Keys, OverServices(q, services), PerService(q, obs));
  }

  // ---------------------------------------------------------------- what the reply says

  /** The service and the model that an observation is booked under. */
  function BookedService(o: Observation): string {
    match o.metadata
    case None => "unknown"
    case Some(d) => if "service_name" in d then d["service_name"] else "unknown"
  }

  function BookedModel(o: Observation): string {
    if o.model == None || o.model == Some("") then "unknown" else o.model.value
  }

  lemma {:induction false} MeasureAdds(q: Quantity, a: ModelUsage, b: ModelUsage)
    ensures Measure(q, Plus(a, b)) == Measure(q, a) + Measure(q, b)
    ensures Measure(q, NO_MODEL_USAGE) == 0.0
  {}

  /** What a service, and one of its models, has been charged so far. */
  function Charged(q: Quantity, services: map<string, ServiceUsage>, s: string): real {
    if s in services then Measure(q, Totals(services[s])) else 0.0
  }

  function ChargedTo(q: Quantity, services: map<string, ServiceUsage>, s: string, m: string): real {
    if s in services && m in services[s].models then Measure(q, services[s].models[m]) else 0.0
  }

  lemma {:induction false} NothingCharged(services: map<string, ServiceUsage>, obs: seq<Observation>, s: string)
    requires Accounts(services, obs, None) && s !in services
    ensures ServiceTotal(obs, s) == NO_MODEL_USAGE && ModelsIn(obs, s) == {}
  {
    assert !Seen(obs, s, None);
    UnseenService(obs, s);
  }

  lemma {:induction false} ChargedService(q: Quantity, services: map<string, ServiceUsage>, obs: seq<Observation>,
                                          s: string)
    requires Accounts(services, obs, None)
    ensures Charged(q, services, s) == Measure(q, ServiceTotal(obs, s))
  {
    if s in services {
      assert Fits(services[s], obs, s);
    } else {
      NothingCharged(services, obs, s);
    }
  }

  lemma {:induction false} ChargedModel(q: Quantity, services: map<string, ServiceUsage>, obs: seq<Observation>,
                                        s: string, m: string)
    requires Accounts(services, obs, None)
    ensures ChargedTo(q, services, s, m) == Measure(q, ModelTotal(obs, s, m))
  {
    if s in services {
      assert Fits(services[s], obs, s);
    } else {
      NothingCharged(services, obs, s);
    }
    if m !in ModelsIn(obs, s) { UnseenModel(obs, s, m); }
  }

  /**
   * One more observation is booked under the service of its metadata and its model, or "unknown": it adds its own
   * fields there, and changes no other service and no other model.
   */
  lemma {:induction false} OneMoreObservation(q: Quantity, before: map<string, ServiceUsage>, obs: seq<Observation>,
                                              after: map<string, ServiceUsage>, o: Observation, s: string, m: string)
    requires Accounts(before, obs, None) && Accounts(after, obs + [o], None)
    ensures Charged(q, after, s) == Charged(q, before, s) +
            (if BookedService(o) == s then Carried(q, o) else 0.0)
    ensures ChargedTo(q, after, s, m) == ChargedTo(q, before, s, m) +
            (if BookedService(o) == s && BookedModel(o) == m then Carried(q, o) else 0.0)
  {
    ChargedService(q, before, obs, s);
    ChargedService(q, after, obs + [o], s);
    ChargedModel(q, before, obs, s, m);
    ChargedModel(q, after, obs + [o], s, m);
    TotalsAfter(obs, o, s, m);
    MeasureAdds(q, ServiceTotal(obs, s), UsageOf(o));
    MeasureAdds(q, ModelTotal(obs, s, m), UsageOf(o));
  }

  /**
   * The reply shows each account as it is, with only the total cost rounded to eight decimals, and a filtered reply
   * shows the one service asked for.
   */
  lemma {:induction false} ReplyShowsAccounts(services: map<string, ServiceUsage>, s: string)
    requires s in services && s != ""
    ensures Summarize(services, None).AllServices? && Summarize(services, None).services.Keys == services.Keys
    ensures var e, u := Summarize(services, None).services[s], services[s];
            && (forall q :: q != Cost ==> Measure(q, Totals(e)) == Measure(q, Totals(u)))
            && e.models == u.models && NearestMultiple(u.cost, e.cost, 100000000.0)
            && Summarize(services, Some(s)) == OneService(s, e)
  {
    RoundedToUnit(services[s].cost);
  }
}
