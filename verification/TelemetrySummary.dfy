/** The recorder at work on the program's measurements. */
module TelemetrySummary {
  import opened Histogram
  import opened Telemetry
  import opened Recorder

  /** Measurements as the recorder uses them; every table entry it keeps is shaped. */
  function MeasurementCells(bs: Bounds): Cells<Measurements, Event> {
    Cells(NewMeasurements(bs),
          (m: Measurements, e: Event) => if Shaped(bs, m.timings) then Recorded(bs, m, e) else m,
          (a: Measurements, b: Measurements) =>
            if Shaped(bs, a.timings) && Shaped(bs, b.timings) then MergedMeasurements(bs, a, b) else a)
  }

  function Aggregator(bs: Bounds): seq<Event> -> Measurements {
    es => Aggregate(bs, es)
  }

  lemma AggregateIsShaped(bs: Bounds, es: seq<Event>)
    ensures Shaped(bs, Aggregate(bs, es).timings)
  {
  }

  lemma RecordIsLawful(bs: Bounds, es: seq<Event>, e: Event)
    ensures MeasurementCells(bs).record(Aggregator(bs)(es), e) == Aggregator(bs)(es + [e])
  {
    AggregateIsShaped(bs, es);
    RecordAggregates(bs, es, e);
  }

  lemma MergeIsLawful(bs: Bounds, a: seq<Event>, b: seq<Event>)
    ensures MeasurementCells(bs).merge(Aggregator(bs)(a), Aggregator(bs)(b)) == Aggregator(bs)(a + b)
  {
    AggregateIsShaped(bs, a);
    AggregateIsShaped(bs, b);
    MergeAggregates(bs, a, b);
  }

  lemma MeasurementsAreLawful(bs: Bounds)
    ensures Lawful(MeasurementCells(bs), Aggregator(bs))
  {
    AggregateOfNothing(bs);
    forall es, e ensures MeasurementCells(bs).record(Aggregator(bs)(es), e) == Aggregator(bs)(es + [e]) {
      RecordIsLawful(bs, es, e);
    }
    forall a, b ensures MeasurementCells(bs).merge(Aggregator(bs)(a), Aggregator(bs)(b)) == Aggregator(bs)(a + b) {
      MergeIsLawful(bs, a, b);
    }
  }

  /**
   Telemetry conservation: whatever was recorded, in whatever order, and whenever it
   was flushed, the summary merged with the open interval holds for each endpoint the
   aggregate of its events, and at most `max` interval records were accepted.
   */
  lemma TelemetryIsConserved(bs: Bounds, max: nat, ops: seq<Op<Event>>, name: string)
    ensures var cells := MeasurementCells(bs);
            var l := Play(cells, max, ops);
            var merged := MergeTables(cells, l.summary, l.interval);
            && (name in merged <==> |At(Entries(ops), name)| > 0)
            && (name in merged ==> merged[name] == Aggregate(bs, At(Entries(ops), name)))
            && l.appSummary + l.appInterval == Streams(Entries(ops))
            && l.accepted <= max
  {
    MeasurementsAreLawful(bs);
    NothingIsLost(MeasurementCells(bs), Aggregator(bs), max, ops);
  }

  /** The run summary of a finished run is the same for all flush points and all record limits. */
  lemma SummaryIgnoresFlushPoints(
      bs: Bounds, max1: nat, ops1: seq<Op<Event>>, max2: nat, ops2: seq<Op<Event>>)
    requires Entries(ops1) == Entries(ops2)
    ensures var cells := MeasurementCells(bs);
            var l1, l2 := Play(cells, max1, ops1 + [Flush]), Play(cells, max2, ops2 + [Flush]);
            l1.summary == l2.summary && l1.appSummary == l2.appSummary
  {
    MeasurementsAreLawful(bs);
    FlushPointsDoNotMatter(MeasurementCells(bs), Aggregator(bs), max1, ops1, max2, ops2);
  }
}
