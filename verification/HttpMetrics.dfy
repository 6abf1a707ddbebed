/** What the HTTP interceptor makes the registry record: one more active request on entry; on the
    end of its response one completed request, its duration, and one active request fewer. */
module HttpMetrics {
  import opened Sorting
  import opened KeyOrder
  import opened Labels
  import opened Metrics

  const ACTIVE := "fashion_erp_active_http_requests"
  const TOTAL := "fashion_erp_http_requests_total"

  /** Counters or gauges: the values of the series of each metric. */
  type Series<V> = map<string, map<string, V>>

  function ValueOf(m: Series<int>, name: string, key: string): int {
    if name in m && key in m[name] then m[name][key] else 0
  }

  function CounterOf(m: Series<nat>, name: string, key: string): nat {
    if name in m && key in m[name] then m[name][key] else 0
  }

  /** `incrementCounter`: an unknown metric is left alone. */
  function Counted(counters: Series<nat>, name: string, key: string): Series<nat> {
    if name !in counters then counters
    else
      var values: map<string, nat> := counters[name];
      var n: nat := CounterOf(counters, name, key) + 1;
      counters[name := values[key := n]]
  }

  /** `addGauge`: never below 0. */
  function Adjusted(gauges: Series<int>, name: string, key: string, delta: int): Series<int> {
    if name !in gauges then gauges
    else
      var v := ValueOf(gauges, name, key) + delta;
      gauges[name := gauges[name][key := if v < 0 then 0 else v]]
  }

  /** A finished request: its method, sanitized route, printed status and duration. */
  datatype Finished = Finished(verb: string, route: string, status: string, durationMs: int)

  function LabelsOf(f: Finished): LabelList {
    [("method", SanitizeLabel(f.verb)), ("route", f.route), ("status_code", f.status)]
  }

  function SeriesOf(f: Finished, leq: Order): string {
    Serialize(LabelsOf(f), leq)
  }

  datatype Event = Enter(r: nat) | Finalize(r: nat, done: Finished)

  datatype Recorded = Recorded(counters: Series<nat>, gauges: Series<int>, durations: Numbers)

  predicate Ready(s: Recorded) {
    && ACTIVE in s.gauges && TOTAL in s.counters
    && Lengths(s.durations.buckets, HTTP_DURATION_BUCKETS_MS)
  }

  function Handle(s: Recorded, e: Event, leq: Order): (s': Recorded)
    requires Ready(s)
    ensures Ready(s')
  {
    match e
    case Enter(_) => s.(gauges := Adjusted(s.gauges, ACTIVE, "", 1))
    case Finalize(_, f) =>
      Recorded(Counted(s.counters, TOTAL, SeriesOf(f, leq)), Adjusted(s.gauges, ACTIVE, "", -1),
               Observed(s.durations, HTTP_DURATION_BUCKETS_MS, Observation(SeriesOf(f, leq), f.durationMs)))
  }

  function Fresh(): Recorded {
    Recorded(map[TOTAL := map[]], map[ACTIVE := map[]], AfterAll(HTTP_DURATION_BUCKETS_MS, []))
  }

  function Run(events: seq<Event>, leq: Order): (s: Recorded)
    ensures Ready(s)
  {
    if events == [] then Fresh() else Handle(Run(events[..|events| - 1], leq), events[|events| - 1], leq)
  }

  /** The requests that have entered and not finished. */
  function InFlight(events: seq<Event>): set<nat> {
    if events == [] then {}
    else
      var before := InFlight(events[..|events| - 1]);
      match events[|events| - 1]
      case Enter(r) => before + {r}
      case Finalize(r, _) => before - {r}
  }

  /** Every request enters once before it finishes, and finishes once; different requests
      interleave in any way. */
  predicate Bracketed(events: seq<Event>) {
    events == [] ||
    (var front, last := events[..|events| - 1], events[|events| - 1];
     Bracketed(front) && (last.Enter? <==> last.r !in InFlight(front)))
  }

  /** Entries minus exits, without any clamp. */
  function Balance(events: seq<Event>): int {
    if events == [] then 0
    else Balance(events[..|events| - 1]) + if events[|events| - 1].Enter? then 1 else -1
  }

  /** The finished requests, each in the series its labels name. */
  function Completed(events: seq<Event>, leq: Order): seq<Observation> {
    if events == [] then []
    else
      var front := Completed(events[..|events| - 1], leq);
      match events[|events| - 1]
      case Enter(_) => front
      case Finalize(_, f) => front + [Observation(SeriesOf(f, leq), f.durationMs)]
  }

  lemma AdjustedTo(s: Recorded, e: Event, leq: Order)
    requires Ready(s)
    ensures var v := ValueOf(s.gauges, ACTIVE, "") + if e.Enter? then 1 else -1;
      ValueOf(Handle(s, e, leq).gauges, ACTIVE, "") == if v < 0 then 0 else v
  {
  }

  lemma InFlightStep(events: seq<Event>)
    requires events != [] && Bracketed(events)
    ensures |InFlight(events)| == |InFlight(events[..|events| - 1])| + if events[|events| - 1].Enter? then 1 else -1
  {
    var last := events[|events| - 1];
    if last.Finalize? {
      assert InFlight(events[..|events| - 1]) == InFlight(events) + {last.r};
    }
  }

  /** Under every well-bracketed interleaving the gauge is the number of requests in flight, and
      clamping it at 0 has never changed it. */
  lemma {:induction false} GaugeIsInFlight(events: seq<Event>, leq: Order)
    requires Bracketed(events)
    ensures ValueOf(Run(events, leq).gauges, ACTIVE, "") == |InFlight(events)| == Balance(events)
  {
    if events != [] {
      var front, last := events[..|events| - 1], events[|events| - 1];
      GaugeIsInFlight(front, leq);
      AdjustedTo(Run(front, leq), last, leq);
      InFlightStep(events);
    }
  }

  /** The clamp is what hides an exit without an entry: the gauge then stays at 0 and the next
      request counts as 1, where entries minus exits are 0. */
  lemma UnmatchedExitIsHidden(r: nat, f: Finished, leq: Order)
    ensures var events := [Finalize(r, f), Enter(r)];
      !Bracketed(events) && ValueOf(Run(events, leq).gauges, ACTIVE, "") == 1 && Balance(events) == 0
  {
    var events := [Finalize(r, f), Enter(r)];
    assert events[..1] == [Finalize(r, f)] && events[..1][..0] == [];
    assert Run(events[..1], leq) == Handle(Fresh(), Finalize(r, f), leq);
    assert Run(events, leq) == Handle(Run(events[..1], leq), Enter(r), leq);
    assert Balance(events[..1]) == -1;
    assert !Bracketed(events[..1]);
  }

  lemma {:induction false} DurationsAreCompleted(events: seq<Event>, leq: Order)
    ensures Run(events, leq).durations == AfterAll(HTTP_DURATION_BUCKETS_MS, Completed(events, leq))
  {
    if events != [] {
      var front, last := events[..|events| - 1], events[|events| - 1];
      DurationsAreCompleted(front, leq);
      if last.Finalize? {
        var c := Completed(events, leq);
        assert c[..|c| - 1] == Completed(front, leq);
      }
    }
  }

  lemma CountedOnce(counters: Series<nat>, name: string, counted: string, key: string)
    requires name in counters
    ensures CounterOf(Counted(counters, name, counted), name, key)
         == CounterOf(counters, name, key) + if counted == key then 1 else 0
  {
  }

  lemma {:induction false} CounterIsCompleted(events: seq<Event>, leq: Order, key: string)
    ensures CounterOf(Run(events, leq).counters, TOTAL, key) == CountOf(Completed(events, leq), key)
  {
    if events != [] {
      var front, last := events[..|events| - 1], events[|events| - 1];
      CounterIsCompleted(front, leq, key);
      if last.Finalize? {
        CountedOnce(Run(front, leq).counters, TOTAL, SeriesOf(last.done, leq), key);
        ObservedOnce(Completed(front, leq), Observation(SeriesOf(last.done, leq), last.done.durationMs), key);
      }
    }
  }

  /** For every series the request counter, the `_count` of the duration histogram and its `+Inf`
      bucket are the same number: the requests finished under those labels. */
  lemma CounterMatchesHistogram(events: seq<Event>, leq: Order, key: string)
    ensures var s := Run(events, leq);
      && (key in s.durations.counts <==> CounterOf(s.counters, TOTAL, key) > 0)
      && (key in s.durations.counts ==>
            && key in s.durations.buckets
            && CounterOf(s.counters, TOTAL, key) == s.durations.counts[key]
            && Rendered(s.durations, key)[|HTTP_DURATION_BUCKETS_MS|] == CountOf(Completed(events, leq), key))
  {
    DurationsAreCompleted(events, leq);
    CounterIsCompleted(events, leq, key);
    NumbersAgree(HTTP_DURATION_BUCKETS_MS, Completed(events, leq));
    KnownIsObserved(HTTP_DURATION_BUCKETS_MS, Completed(events, leq), key);
    if CountOf(Completed(events, leq), key) > 0 {
      RenderedIsExact(HTTP_DURATION_BUCKETS_MS, Completed(events, leq), key);
    }
  }

  lemma {:induction false} KnownIsObserved(bounds: seq<int>, seen: seq<Observation>, key: string)
    ensures key in AfterAll(bounds, seen).counts <==> CountOf(seen, key) > 0
  {
    if seen != [] {
      KnownIsObserved(bounds, seen[..|seen| - 1], key);
    }
  }

  // ---- The registry as an object ----

  class Registry {
    const leq: Order
    const durations: Histogram
    var counters: Series<nat>
    var gauges: Series<int>

    ghost predicate Valid()
      reads this, durations, durations.Arrays()
    {
      && durations.Valid() && durations.bounds == HTTP_DURATION_BUCKETS_MS
      && ACTIVE in gauges && TOTAL in counters
    }

    ghost function Contents(): Recorded
      reads this, durations, durations.Arrays()
    {
      Recorded(counters, gauges, durations.Contents())
    }

    constructor (leq: Order)
      ensures Valid() && this.leq == leq && fresh(durations) && fresh(durations.Arrays())
      ensures Contents() == Fresh()
    {
      this.leq := leq;
      durations := new Histogram(HTTP_DURATION_BUCKETS_MS);
      counters, gauges := map[TOTAL := map[]], map[ACTIVE := map[]];
    }

    method IncrementCounter(name: string, labels: LabelList)
      modifies this`counters
      ensures counters == Counted(old(counters), name, Serialize(labels, leq))
    {
      if name !in counters {
        return;
      }
      var key := Serialize(labels, leq);
      var values: map<string, nat> := counters[name];
      var n: nat := (if key in values then values[key] else 0) + 1;
      counters := counters[name := values[key := n]];
    }

    method AddGauge(name: string, delta: int, labels: LabelList)
      modifies this`gauges
      ensures gauges == Adjusted(old(gauges), name, Serialize(labels, leq), delta)
    {
      if name !in gauges {
        return;
      }
      var key := Serialize(labels, leq);
      var v := (if key in gauges[name] then gauges[name][key] else 0) + delta;
      gauges := gauges[name := gauges[name][key := if v < 0 then 0 else v]];
    }

    /** `intercept` up to the handler. */
    method EnterRequest(r: nat)
      requires Valid()
      modifies this`gauges
      ensures Valid() && Contents() == Handle(old(Contents()), Enter(r), leq)
    {
      AddGauge(ACTIVE, 1, []);
    }

    /** `recordHttpRequest`: the counter and the histogram under the same labels. */
    method RecordHttpRequest(f: Finished)
      requires Valid()
      modifies this`counters, durations, durations.Arrays()
      ensures Valid() && fresh(durations.Arrays() - old(durations.Arrays()))
      ensures counters == Counted(old(counters), TOTAL, SeriesOf(f, leq))
      ensures durations.Contents()
           == Observed(old(durations.Contents()), HTTP_DURATION_BUCKETS_MS, Observation(SeriesOf(f, leq), f.durationMs))
    {
      IncrementCounter(TOTAL, LabelsOf(f));
      durations.Observe(SeriesOf(f, leq), f.durationMs);
    }

    /** `finalize`: the request is recorded, then no longer active. */
    method FinalizeRequest(r: nat, f: Finished)
      requires Valid()
      modifies this, durations, durations.Arrays()
      ensures Valid() && fresh(durations.Arrays() - old(durations.Arrays()))
      ensures Contents() == Handle(old(Contents()), Finalize(r, f), leq)
    {
      RecordHttpRequest(f);
      AddGauge(ACTIVE, -1, []);
    }
  }

  /** Two finished requests whose routes and statuses can be printed and read back are in one series
      exactly when method, as sanitized, route and status agree. */
  lemma SameSeriesOfRequests(f: Finished, g: Finished, leq: Order)
    requires TotalOrder(leq) && Clean(f.route) && Clean(f.status) && Clean(g.route) && Clean(g.status)
    ensures SeriesOf(f, leq) == SeriesOf(g, leq) <==>
              SanitizeLabel(f.verb) == SanitizeLabel(g.verb) && f.route == g.route && f.status == g.status
  {
    LabelsAreClean(f);
    LabelsAreClean(g);
    SameSeriesIff(LabelsOf(f), LabelsOf(g), leq);
    LabelValues(f);
    LabelValues(g);
  }

  lemma LabelsAreClean(f: Finished)
    requires Clean(f.route) && Clean(f.status)
    ensures LabelObject(LabelsOf(f)) && AllClean(LabelsOf(f))
  {
    SanitizedIsClean(f.verb);
  }

  function Given(m: map<string, string>, key: string): string {
    if key in m then m[key] else ""
  }

  /** The printed labels give back the three values; an empty one is left out. */
  lemma LabelValues(f: Finished)
    ensures var m := ToMap(NonEmpty(LabelsOf(f)));
      && m.Keys <= {"method", "route", "status_code"}
      && Given(m, "method") == SanitizeLabel(f.verb) && Given(m, "route") == f.route
      && Given(m, "status_code") == f.status
      && forall k :: k in m ==> m[k] != ""
  {
    var l := LabelsOf(f);
    ThreeLabels(l[0], l[1], l[2]);
    AddedValues(l[0], l[1], l[2]);
  }

  lemma AddedValues(a: (string, string), b: (string, string), c: (string, string))
    requires a.0 != b.0 && a.0 != c.0 && b.0 != c.0
    ensures var m := Adding(Adding(Adding(map[], a), b), c);
      && m.Keys <= {a.0, b.0, c.0}
      && Given(m, a.0) == a.1 && Given(m, b.0) == b.1 && Given(m, c.0) == c.1
      && forall k :: k in m ==> m[k] != ""
  {
  }

  function Adding(m: map<string, string>, e: (string, string)): map<string, string> {
    if e.1 == "" then m else m[e.0 := e.1]
  }

  lemma ThreeLabels(a: (string, string), b: (string, string), c: (string, string))
    ensures ToMap(NonEmpty([a, b, c])) == Adding(Adding(Adding(map[], a), b), c)
  {
    NonEmptyOne([], a);
    NonEmptyOne([a], b);
    NonEmptyOne([a, b], c);
    assert [] + [a] == [a] && [a] + [b] == [a, b] && [a, b] + [c] == [a, b, c];
    assert NonEmpty([]) == [];
  }

  lemma NonEmptyOne(front: LabelList, e: (string, string))
    ensures ToMap(NonEmpty(front + [e]))
         == Adding(ToMap(NonEmpty(front)), e)
  {
    assert (front + [e])[..|front|] == front;
    MapSnoc(NonEmpty(front), e);
  }
}
