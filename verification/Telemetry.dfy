/**
 The telemetry aggregates: what each record call adds to the open interval of its
 endpoint, how measurements merge, and what they say about the recorded events.
 */
module Telemetry {
  import opened Basics
  import opened Histogram

  datatype Waits = Waits(slot: real, pacing: real, backoff: real, depth: int, concurrency: int)

  /** One record call, with status codes, errors and header texts already classified. */
  datatype Event =
    | ThrottleWait(waits: Waits)
    | HttpResponse(outcome: string, duration: real, quota: string, waited: Option<Waits>, group: string)
    | TransportError(error: string, duration: real, waited: Option<Waits>, group: string)
    | Retry(category: string, delay: real)
    | RetryWait(duration: real)
    | Page(rows: Option<int>)

  /** Counters are multisets: a Counter that only ever counts up is one. */
  datatype Exchanges = Exchanges(
    attempts: nat,
    outcomes: multiset<string>,
    transportErrors: multiset<string>,
    limiterGroups: set<string>,
    quota: Option<string>)

  datatype Retries = Retries(counts: multiset<string>, delaySeconds: map<string, real>)

  datatype Load = Load(queuedRequests: nat, maxQueueDepth: int, maxConcurrency: int)

  datatype Pages = Pages(yielded: nat, rows: int, withoutCount: nat)

  datatype Timings = Timings(slotWait: Dist, pacingWait: Dist, retryWait: Dist, httpExecution: Dist)

  datatype Measurements = Measurements(
    exchanges: Exchanges, retries: Retries, load: Load, pages: Pages, timings: Timings)

  // ----- What the events say

  /** The plain lists of everything that a list of events reports. */
  datatype Facts = Facts(
    outcomes: seq<string>,
    errors: seq<string>,
    groups: seq<string>,
    quotas: seq<string>,
    retries: seq<(string, real)>,
    depths: seq<int>,
    concurrencies: seq<int>,
    pages: seq<Option<int>>,
    slots: seq<real>,
    pacings: seq<real>,
    backoffs: seq<real>,
    durations: seq<real>)

  const NoFacts := Facts([], [], [], [], [], [], [], [], [], [], [], [])

  function Join(f: Facts, g: Facts): Facts {
    Facts(f.outcomes + g.outcomes, f.errors + g.errors, f.groups + g.groups, f.quotas + g.quotas,
          f.retries + g.retries, f.depths + g.depths, f.concurrencies + g.concurrencies, f.pages + g.pages,
          f.slots + g.slots, f.pacings + g.pacings, f.backoffs + g.backoffs, f.durations + g.durations)
  }

  function WaitFacts(w: Waits): Facts {
    NoFacts.(depths := [w.depth], concurrencies := [w.concurrency],
             slots := [Max(w.slot, 0.0)], pacings := [Max(w.pacing, 0.0)], backoffs := [Max(w.backoff, 0.0)])
  }

  function WaitedFacts(w: Option<Waits>): Facts {
    if w.Some? then WaitFacts(w.value) else NoFacts
  }

  function EventFacts(e: Event): Facts {
    match e
    case ThrottleWait(w) => WaitFacts(w)
    case HttpResponse(outcome, duration, quota, w, group) =>
      WaitedFacts(w).(outcomes := [outcome], groups := [group], quotas := [quota], durations := [Max(duration, 0.0)])
    case TransportError(error, duration, w, group) =>
      WaitedFacts(w).(outcomes := ["transport_error"], errors := [error], groups := [group],
                      durations := [Max(duration, 0.0)])
    case Retry(category, delay) => NoFacts.(retries := [(category, Max(delay, 0.0))])
    case RetryWait(duration) => NoFacts.(backoffs := [Max(duration, 0.0)])
    case Page(rows) => NoFacts.(pages := [rows])
  }

  function FactsOf(es: seq<Event>): Facts {
    if es == [] then NoFacts else Join(FactsOf(es[..|es| - 1]), EventFacts(es[|es| - 1]))
  }

  lemma {:induction false} FactsOfConcat(a: seq<Event>, b: seq<Event>)
    ensures FactsOf(a + b) == Join(FactsOf(a), FactsOf(b))
  {
    if b == [] {
      assert a + b == a;
      JoinNothing(FactsOf(a));
    } else {
      var init, e := b[..|b| - 1], b[|b| - 1];
      FactsOfConcat(a, init);
      assert b == init + [e];
      assert a + b == a + init + [e];
      ConcatOneMore(a, init, e);
    }
  }

  lemma ConcatOneMore(a: seq<Event>, b: seq<Event>, e: Event)
    requires FactsOf(a + b) == Join(FactsOf(a), FactsOf(b))
    ensures FactsOf(a + b + [e]) == Join(FactsOf(a), FactsOf(b + [e]))
  {
    OneMoreEvent(a + b, e, EventFacts(e));
    OneMoreEvent(b, e, EventFacts(e));
    JoinAssociates(FactsOf(a), FactsOf(b), EventFacts(e));
  }

  lemma OneMoreEvent(es: seq<Event>, e: Event, f: Facts)
    requires f == EventFacts(e)
    ensures FactsOf(es + [e]) == Join(FactsOf(es), f)
  {
    assert (es + [e])[..|es|] == es;
  }

  lemma JoinNothing(f: Facts)
    ensures Join(f, NoFacts) == f
  {
  }

  lemma JoinAssociates(f: Facts, g: Facts, h: Facts)
    ensures Join(Join(f, g), h) == Join(f, Join(g, h))
  {
    assert (f.outcomes + g.outcomes) + h.outcomes == f.outcomes + (g.outcomes + h.outcomes);
    assert (f.errors + g.errors) + h.errors == f.errors + (g.errors + h.errors);
    assert (f.groups + g.groups) + h.groups == f.groups + (g.groups + h.groups);
    assert (f.quotas + g.quotas) + h.quotas == f.quotas + (g.quotas + h.quotas);
    assert (f.retries + g.retries) + h.retries == f.retries + (g.retries + h.retries);
    assert (f.depths + g.depths) + h.depths == f.depths + (g.depths + h.depths);
    assert (f.concurrencies + g.concurrencies) + h.concurrencies == f.concurrencies + (g.concurrencies + h.concurrencies);
    assert (f.pages + g.pages) + h.pages == f.pages + (g.pages + h.pages);
    assert (f.slots + g.slots) + h.slots == f.slots + (g.slots + h.slots);
    assert (f.pacings + g.pacings) + h.pacings == f.pacings + (g.pacings + h.pacings);
    assert (f.backoffs + g.backoffs) + h.backoffs == f.backoffs + (g.backoffs + h.backoffs);
    assert (f.durations + g.durations) + h.durations == f.durations + (g.durations + h.durations);
  }

  // ----- Measurements told from the facts

  function MaxOf(xs: seq<int>): (m: int)
    ensures m >= 0
  {
    if xs == [] then 0 else MaxInt(MaxOf(xs[..|xs| - 1]), xs[|xs| - 1])
  }

  function CountPositive(xs: seq<int>): nat {
    if xs == [] then 0 else CountPositive(xs[..|xs| - 1]) + (if xs[|xs| - 1] > 0 then 1 else 0)
  }

  function RowSum(ps: seq<Option<int>>): int {
    if ps == [] then 0
    else RowSum(ps[..|ps| - 1]) + (if ps[|ps| - 1].Some? then MaxInt(ps[|ps| - 1].value, 0) else 0)
  }

  function CountNone(ps: seq<Option<int>>): nat {
    if ps == [] then 0 else CountNone(ps[..|ps| - 1]) + (if ps[|ps| - 1].None? then 1 else 0)
  }

  function CategoryNames(rs: seq<(string, real)>): seq<string> {
    seq(|rs|, i requires 0 <= i < |rs| => rs[i].0)
  }

  function Categories(rs: seq<(string, real)>): multiset<string> {
    multiset(CategoryNames(rs))
  }

  /** Total seconds per category; a category that never occurred is absent. */
  function DelaySums(rs: seq<(string, real)>): map<string, real> {
    if rs == [] then map[]
    else AddDelay(DelaySums(rs[..|rs| - 1]), rs[|rs| - 1].0, rs[|rs| - 1].1)
  }

  function AddDelay(m: map<string, real>, key: string, seconds: real): map<string, real> {
    m[key := (if key in m then m[key] else 0.0) + seconds]
  }

  function Summarize(bs: Bounds, f: Facts): Measurements {
    Measurements(
      Exchanges(
        |f.outcomes|, multiset(f.outcomes), multiset(f.errors), set x | x in f.groups,
        if f.quotas == [] then None else Some(f.quotas[|f.quotas| - 1])),
      Retries(Categories(f.retries), DelaySums(f.retries)),
      Load(CountPositive(f.depths), MaxOf(f.depths), MaxOf(f.concurrencies)),
      Pages(|f.pages|, RowSum(f.pages), CountNone(f.pages)),
      Timings(Tally(bs, f.slots), Tally(bs, f.pacings), Tally(bs, f.backoffs), Tally(bs, f.durations)))
  }

  function Aggregate(bs: Bounds, es: seq<Event>): Measurements {
    Summarize(bs, FactsOf(es))
  }

  // ----- The updates, as the program makes them

  predicate Shaped(bs: Bounds, t: Timings) {
    |t.slotWait.buckets| == |t.pacingWait.buckets| == |t.retryWait.buckets| == |t.httpExecution.buckets| == |bs| + 1
  }

  function NewMeasurements(bs: Bounds): Measurements {
    Measurements(
      Exchanges(0, multiset{}, multiset{}, {}, None), Retries(multiset{}, map[]), Load(0, 0, 0), Pages(0, 0, 0),
      Timings(Empty(bs), Empty(bs), Empty(bs), Empty(bs)))
  }

  function WaitedLoad(l: Load, w: Option<Waits>): Load {
    if w.None? then l
    else
      Load(l.queuedRequests + (if w.value.depth > 0 then 1 else 0),
           MaxInt(l.maxQueueDepth, w.value.depth), MaxInt(l.maxConcurrency, w.value.concurrency))
  }

  function WaitedTimings(bs: Bounds, t: Timings, w: Option<Waits>): Timings
    requires Shaped(bs, t)
  {
    if w.None? then t
    else
      Timings(Observed(bs, t.slotWait, w.value.slot), Observed(bs, t.pacingWait, w.value.pacing),
              Observed(bs, t.retryWait, w.value.backoff), t.httpExecution)
  }

  function Executed(bs: Bounds, t: Timings, duration: real): Timings
    requires Shaped(bs, t)
  {
    t.(httpExecution := Observed(bs, t.httpExecution, duration))
  }

  function Exchanged(x: Exchanges, outcome: string, group: string): Exchanges {
    x.(limiterGroups := x.limiterGroups + {group}, attempts := x.attempts + 1,
       outcomes := x.outcomes + multiset{outcome})
  }

  function Recorded(bs: Bounds, m: Measurements, e: Event): Measurements
    requires Shaped(bs, m.timings)
  {
    match e
    case ThrottleWait(w) =>
      m.(load := WaitedLoad(m.load, Some(w)), timings := WaitedTimings(bs, m.timings, Some(w)))
    case HttpResponse(outcome, duration, quota, w, group) =>
      m.(load := WaitedLoad(m.load, w),
         timings := Executed(bs, WaitedTimings(bs, m.timings, w), duration),
         exchanges := Exchanged(m.exchanges, outcome, group).(quota := Some(quota)))
    case TransportError(error, duration, w, group) =>
      m.(load := WaitedLoad(m.load, w),
         timings := Executed(bs, WaitedTimings(bs, m.timings, w), duration),
         exchanges := Exchanged(m.exchanges, "transport_error", group)
                      .(transportErrors := m.exchanges.transportErrors + multiset{error}))
    case Retry(category, delay) =>
      m.(retries := Retries(m.retries.counts + multiset{category},
                            AddDelay(m.retries.delaySeconds, category, Max(delay, 0.0))))
    case RetryWait(duration) =>
      m.(timings := m.timings.(retryWait := Observed(bs, m.timings.retryWait, duration)))
    case Page(rows) =>
      m.(pages := if rows.None? then m.pages.(yielded := m.pages.yielded + 1, withoutCount := m.pages.withoutCount + 1)
                  else m.pages.(yielded := m.pages.yielded + 1, rows := m.pages.rows + MaxInt(rows.value, 0)))
  }

  function SumDelays(a: map<string, real>, b: map<string, real>): map<string, real> {
    map k | k in a.Keys + b.Keys :: (if k in a then a[k] else 0.0) + (if k in b then b[k] else 0.0)
  }

  function MergedMeasurements(bs: Bounds, a: Measurements, b: Measurements): Measurements
    requires Shaped(bs, a.timings) && Shaped(bs, b.timings)
  {
    Measurements(
      Exchanges(
        a.exchanges.attempts + b.exchanges.attempts,
        a.exchanges.outcomes + b.exchanges.outcomes,
        a.exchanges.transportErrors + b.exchanges.transportErrors,
        a.exchanges.limiterGroups + b.exchanges.limiterGroups,
        if b.exchanges.quota.Some? then b.exchanges.quota else a.exchanges.quota),
      Retries(a.retries.counts + b.retries.counts, SumDelays(a.retries.delaySeconds, b.retries.delaySeconds)),
      Load(a.load.queuedRequests + b.load.queuedRequests,
           MaxInt(a.load.maxQueueDepth, b.load.maxQueueDepth), MaxInt(a.load.maxConcurrency, b.load.maxConcurrency)),
      Pages(a.pages.yielded + b.pages.yielded, a.pages.rows + b.pages.rows,
            a.pages.withoutCount + b.pages.withoutCount),
      Timings(Merged(bs, a.timings.slotWait, b.timings.slotWait),
              Merged(bs, a.timings.pacingWait, b.timings.pacingWait),
              Merged(bs, a.timings.retryWait, b.timings.retryWait),
              Merged(bs, a.timings.httpExecution, b.timings.httpExecution)))
  }

  // ----- Merging agrees with the aggregate

  lemma {:induction false} IntFoldsOfConcat(xs: seq<int>, ys: seq<int>)
    ensures MaxOf(xs + ys) == MaxInt(MaxOf(xs), MaxOf(ys))
    ensures CountPositive(xs + ys) == CountPositive(xs) + CountPositive(ys)
  {
    if ys == [] {
      assert xs + ys == xs;
    } else {
      var n := |ys| - 1;
      IntFoldsOfConcat(xs, ys[..n]);
      assert (xs + ys)[..|xs| + n] == xs + ys[..n];
      assert (xs + ys)[|xs| + n] == ys[n];
    }
  }

  lemma {:induction false} PageFoldsOfConcat(xs: seq<Option<int>>, ys: seq<Option<int>>)
    ensures RowSum(xs + ys) == RowSum(xs) + RowSum(ys)
    ensures CountNone(xs + ys) == CountNone(xs) + CountNone(ys)
  {
    if ys == [] {
      assert xs + ys == xs;
    } else {
      var n := |ys| - 1;
      PageFoldsOfConcat(xs, ys[..n]);
      assert (xs + ys)[..|xs| + n] == xs + ys[..n];
      assert (xs + ys)[|xs| + n] == ys[n];
    }
  }

  lemma DelayStep(a: map<string, real>, b: map<string, real>, key: string, seconds: real)
    ensures SumDelays(a, AddDelay(b, key, seconds)) == AddDelay(SumDelays(a, b), key, seconds)
  {
  }

  lemma {:induction false} DelaysOfConcat(xs: seq<(string, real)>, ys: seq<(string, real)>)
    ensures DelaySums(xs + ys) == SumDelays(DelaySums(xs), DelaySums(ys))
  {
    if ys == [] {
      assert xs + ys == xs;
      assert SumDelays(DelaySums(xs), map[]) == DelaySums(xs);
    } else {
      var n := |ys| - 1;
      DelaysOfConcat(xs, ys[..n]);
      assert (xs + ys)[..|xs| + n] == xs + ys[..n];
      DelayStep(DelaySums(xs), DelaySums(ys[..n]), ys[n].0, ys[n].1);
    }
  }

  lemma CategoriesOfConcat(xs: seq<(string, real)>, ys: seq<(string, real)>)
    ensures Categories(xs + ys) == Categories(xs) + Categories(ys)
  {
    assert CategoryNames(xs + ys) == CategoryNames(xs) + CategoryNames(ys);
  }

  lemma SummariesMerge(bs: Bounds, f: Facts, g: Facts)
    ensures MergedMeasurements(bs, Summarize(bs, f), Summarize(bs, g)) == Summarize(bs, Join(f, g))
  {
    var m, n := MergedMeasurements(bs, Summarize(bs, f), Summarize(bs, g)), Summarize(bs, Join(f, g));
    assert m.exchanges == n.exchanges by {
      assert m.exchanges.limiterGroups == n.exchanges.limiterGroups;
    }
    assert m.retries == n.retries by {
      DelaysOfConcat(f.retries, g.retries);
      CategoriesOfConcat(f.retries, g.retries);
    }
    assert m.load == n.load by {
      IntFoldsOfConcat(f.depths, g.depths);
      IntFoldsOfConcat(f.concurrencies, g.concurrencies);
    }
    assert m.pages == n.pages by {
      PageFoldsOfConcat(f.pages, g.pages);
    }
    assert m.timings == n.timings by {
      MergeTally(bs, f.slots, g.slots);
      MergeTally(bs, f.pacings, g.pacings);
      MergeTally(bs, f.backoffs, g.backoffs);
      MergeTally(bs, f.durations, g.durations);
    }
  }

  /** Merging the measurements of two event lists gives the measurements of both lists together. */
  lemma MergeAggregates(bs: Bounds, a: seq<Event>, b: seq<Event>)
    ensures MergedMeasurements(bs, Aggregate(bs, a), Aggregate(bs, b)) == Aggregate(bs, a + b)
  {
    FactsOfConcat(a, b);
    SummariesMerge(bs, FactsOf(a), FactsOf(b));
  }

  lemma AggregateOfNothing(bs: Bounds)
    ensures Aggregate(bs, []) == NewMeasurements(bs)
  {
    EmptyTally(bs);
    var m, n := Aggregate(bs, []), NewMeasurements(bs);
    assert m.exchanges == n.exchanges && m.timings == n.timings;
  }

  // ----- Recording agrees with the aggregate

  lemma FoldSteps(xs: seq<int>, x: int)
    ensures MaxOf(xs + [x]) == MaxInt(MaxOf(xs), x)
    ensures CountPositive(xs + [x]) == CountPositive(xs) + (if x > 0 then 1 else 0)
  {
    assert (xs + [x])[..|xs|] == xs;
  }

  lemma PageSteps(ps: seq<Option<int>>, p: Option<int>)
    ensures RowSum(ps + [p]) == RowSum(ps) + (if p.Some? then MaxInt(p.value, 0) else 0)
    ensures CountNone(ps + [p]) == CountNone(ps) + (if p.None? then 1 else 0)
  {
    assert (ps + [p])[..|ps|] == ps;
  }

  lemma RetrySteps(rs: seq<(string, real)>, r: (string, real))
    ensures DelaySums(rs + [r]) == AddDelay(DelaySums(rs), r.0, r.1)
    ensures Categories(rs + [r]) == Categories(rs) + multiset{r.0}
  {
    assert (rs + [r])[..|rs|] == rs;
    assert CategoryNames(rs + [r]) == CategoryNames(rs) + [r.0];
  }

  lemma WaitsRecorded(bs: Bounds, f: Facts, w: Option<Waits>)
    ensures var m, n := Summarize(bs, f), Summarize(bs, Join(f, WaitedFacts(w)));
            && n.load == WaitedLoad(m.load, w)
            && n.timings == WaitedTimings(bs, m.timings, w)
  {
    if w.None? {
      JoinNothing(f);
    } else {
      FoldSteps(f.depths, w.value.depth);
      FoldSteps(f.concurrencies, w.value.concurrency);
      ObserveTally(bs, f.slots, w.value.slot);
      ObserveTally(bs, f.pacings, w.value.pacing);
      ObserveTally(bs, f.backoffs, w.value.backoff);
      assert f.durations + [] == f.durations;
    }
  }

  /** Lists that an exchange's status, group, quota and duration do not touch. */
  lemma ExchangeKeepsWaits(bs: Bounds, f: Facts, e: Event)
    requires e.HttpResponse? || e.TransportError?
    ensures var g, h := Join(f, WaitedFacts(e.waited)), Join(f, EventFacts(e));
            && h.depths == g.depths && h.concurrencies == g.concurrencies
            && h.slots == g.slots && h.pacings == g.pacings && h.backoffs == g.backoffs
            && h.durations == f.durations + [Max(e.duration, 0.0)]
            && h.retries == f.retries && h.pages == f.pages && g.durations == f.durations
  {
  }

  lemma ExchangeTimed(bs: Bounds, f: Facts, g: Facts, h: Facts, duration: real, t: Timings)
    requires h.slots == g.slots && h.pacings == g.pacings && h.backoffs == g.backoffs
    requires g.durations == f.durations && h.durations == f.durations + [Max(duration, 0.0)]
    requires t == Summarize(bs, g).timings && Shaped(bs, t)
    ensures Summarize(bs, h).timings == Executed(bs, t, duration)
  {
    ObserveTally(bs, f.durations, duration);
  }

  lemma ResponseCounted(bs: Bounds, f: Facts, e: Event)
    requires e.HttpResponse?
    ensures Summarize(bs, Join(f, EventFacts(e))).exchanges
         == Exchanged(Summarize(bs, f).exchanges, e.outcome, e.group).(quota := Some(e.quota))
  {
    var h := Join(f, EventFacts(e));
    assert h.outcomes == f.outcomes + [e.outcome] && h.groups == f.groups + [e.group];
    assert h.errors == f.errors && h.quotas == f.quotas + [e.quota];
    assert (set x | x in h.groups) == (set x | x in f.groups) + {e.group};
  }

  lemma ErrorCounted(bs: Bounds, f: Facts, e: Event)
    requires e.TransportError?
    ensures var x := Summarize(bs, f).exchanges;
            Summarize(bs, Join(f, EventFacts(e))).exchanges
            == Exchanged(x, "transport_error", e.group).(transportErrors := x.transportErrors + multiset{e.error})
  {
    var h := Join(f, EventFacts(e));
    assert h.outcomes == f.outcomes + ["transport_error"] && h.groups == f.groups + [e.group];
    assert h.errors == f.errors + [e.error] && h.quotas == f.quotas;
    assert (set x | x in h.groups) == (set x | x in f.groups) + {e.group};
  }

  lemma ThrottleWaitRecorded(bs: Bounds, f: Facts, e: Event)
    requires e.ThrottleWait?
    ensures Recorded(bs, Summarize(bs, f), e) == Summarize(bs, Join(f, EventFacts(e)))
  {
    WaitsRecorded(bs, f, Some(e.waits));
    JoinNothing(f);
  }

  lemma RetryRecorded(bs: Bounds, f: Facts, e: Event)
    requires e.Retry?
    ensures Recorded(bs, Summarize(bs, f), e) == Summarize(bs, Join(f, EventFacts(e)))
  {
    JoinNothing(f);
    RetrySteps(f.retries, (e.category, Max(e.delay, 0.0)));
  }

  lemma RetryWaitRecorded(bs: Bounds, f: Facts, e: Event)
    requires e.RetryWait?
    ensures Recorded(bs, Summarize(bs, f), e) == Summarize(bs, Join(f, EventFacts(e)))
  {
    JoinNothing(f);
    ObserveTally(bs, f.backoffs, e.duration);
  }

  lemma PageFacts(f: Facts, e: Event)
    requires e.Page?
    ensures Join(f, EventFacts(e)) == f.(pages := f.pages + [e.rows])
  {
  }

  lemma PageRecorded(bs: Bounds, f: Facts, e: Event)
    requires e.Page?
    ensures Recorded(bs, Summarize(bs, f), e) == Summarize(bs, Join(f, EventFacts(e)))
  {
    PageFacts(f, e);
    PageSteps(f.pages, e.rows);
  }

  lemma ExchangeRecorded(bs: Bounds, f: Facts, e: Event)
    requires e.HttpResponse? || e.TransportError?
    ensures Recorded(bs, Summarize(bs, f), e) == Summarize(bs, Join(f, EventFacts(e)))
  {
    var g, h := Join(f, WaitedFacts(e.waited)), Join(f, EventFacts(e));
    ExchangeKeepsWaits(bs, f, e);
    WaitsRecorded(bs, f, e.waited);
    ExchangeTimed(bs, f, g, h, e.duration, Summarize(bs, g).timings);
    if e.HttpResponse? {
      ResponseCounted(bs, f, e);
    } else {
      ErrorCounted(bs, f, e);
    }
  }

  /** The in-place updates of a record call give the summary of one more event. */
  lemma RecordSummarizes(bs: Bounds, f: Facts, e: Event)
    ensures Recorded(bs, Summarize(bs, f), e) == Summarize(bs, Join(f, EventFacts(e)))
  {
    match e
    case ThrottleWait(_) => ThrottleWaitRecorded(bs, f, e);
    case HttpResponse(_, _, _, _, _) => ExchangeRecorded(bs, f, e);
    case TransportError(_, _, _, _) => ExchangeRecorded(bs, f, e);
    case Retry(_, _) => RetryRecorded(bs, f, e);
    case RetryWait(_) => RetryWaitRecorded(bs, f, e);
    case Page(_) => PageRecorded(bs, f, e);
  }

  lemma RecordAggregates(bs: Bounds, es: seq<Event>, e: Event)
    ensures Recorded(bs, Aggregate(bs, es), e) == Aggregate(bs, es + [e])
  {
    assert (es + [e])[..|es|] == es;
    RecordSummarizes(bs, FactsOf(es), e);
  }
}
