/**
 The recorder: an open interval per endpoint, a run summary, and flushes that
 move the one into the other at arbitrary points. Nothing here depends on what
 the measurements are, only on how they start, record an event and merge.
 */
module Recorder {
  import opened Basics

  datatype Cells<!M, !E> = Cells(initial: M, record: (M, E) -> M, merge: (M, M) -> M)

  /** `aggregate` tells the measurements from the events; recording and merging agree with it. */
  ghost predicate Lawful<M(!new), E(!new)>(cells: Cells<M, E>, aggregate: seq<E> -> M) {
    && aggregate([]) == cells.initial
    && (forall es, e :: cells.record(aggregate(es), e) == aggregate(es + [e]))
    && (forall a, b :: cells.merge(aggregate(a), aggregate(b)) == aggregate(a + b))
  }

  /** One thing recorded: an event at an endpoint, or an application stream's state. */
  datatype Entry<E> = Measured(endpoint: string, event: E) | Stream(state: string)

  datatype Ledger<M> = Ledger(
    interval: map<string, M>,
    summary: map<string, M>,
    appInterval: multiset<string>,
    appSummary: multiset<string>,
    accepted: nat,
    dropped: nat)

  function EmptyLedger<M>(): Ledger<M> {
    Ledger(map[], map[], multiset{}, multiset{}, 0, 0)
  }

  function LookUp<M, E>(cells: Cells<M, E>, t: map<string, M>, name: string): M {
    if name in t then t[name] else cells.initial
  }

  function AddEntry<M, E>(cells: Cells<M, E>, l: Ledger<M>, e: Entry<E>): Ledger<M> {
    match e
    case Measured(endpoint, event) =>
      l.(interval := l.interval[endpoint := cells.record(LookUp(cells, l.interval, endpoint), event)])
    case Stream(state) => l.(appInterval := l.appInterval + multiset{state})
  }

  function MergeTables<M, E>(cells: Cells<M, E>, summary: map<string, M>, interval: map<string, M>): map<string, M> {
    map name | name in summary.Keys + interval.Keys ::
      if name in interval then cells.merge(LookUp(cells, summary, name), interval[name]) else summary[name]
  }

  predicate NothingOpen<M>(l: Ledger<M>) {
    |l.interval| == 0 && |l.appInterval| == 0
  }

  /** Move the interval into the summary; its record is accepted only while there is room for one. */
  function Closed<M, E>(cells: Cells<M, E>, maxIntervalRecords: nat, l: Ledger<M>): Ledger<M> {
    var room := l.accepted < maxIntervalRecords;
    Ledger(map[], MergeTables(cells, l.summary, l.interval), multiset{}, l.appSummary + l.appInterval,
           if room then l.accepted + 1 else l.accepted, if room then l.dropped else l.dropped + 1)
  }

  function Flushed<M, E>(cells: Cells<M, E>, maxIntervalRecords: nat, l: Ledger<M>): Ledger<M> {
    if NothingOpen(l) then l else Closed(cells, maxIntervalRecords, l)
  }

  // ----- What a table says about a list of entries

  function At<E>(es: seq<Entry<E>>, name: string): seq<E> {
    if es == [] then []
    else
      var last := es[|es| - 1];
      At(es[..|es| - 1], name) + (if last.Measured? && last.endpoint == name then [last.event] else [])
  }

  function States<E>(es: seq<Entry<E>>): seq<string> {
    if es == [] then []
    else States(es[..|es| - 1]) + (if es[|es| - 1].Stream? then [es[|es| - 1].state] else [])
  }

  function Streams<E>(es: seq<Entry<E>>): multiset<string> {
    multiset(States(es))
  }

  /** The table holds exactly the endpoints with events, each with the aggregate of its events. */
  ghost predicate Describes<M, E>(aggregate: seq<E> -> M, t: map<string, M>, es: seq<Entry<E>>) {
    && (forall name :: name in t <==> |At(es, name)| > 0)
    && (forall name :: name in t ==> t[name] == aggregate(At(es, name)))
  }

  /** A list of entries determines its table. */
  lemma DescribedOnce<M, E>(aggregate: seq<E> -> M, t: map<string, M>, u: map<string, M>, es: seq<Entry<E>>)
    requires Describes(aggregate, t, es) && Describes(aggregate, u, es)
    ensures t == u
  {
    assert t.Keys == u.Keys;
  }

  lemma {:induction false} AtOfConcat<E>(a: seq<Entry<E>>, b: seq<Entry<E>>, name: string)
    ensures At(a + b, name) == At(a, name) + At(b, name)
  {
    if b == [] {
      assert a + b == a;
    } else {
      var n := |b| - 1;
      AtOfConcat(a, b[..n], name);
      assert (a + b)[..|a| + n] == a + b[..n];
    }
  }

  lemma {:induction false} StatesOfConcat<E>(a: seq<Entry<E>>, b: seq<Entry<E>>)
    ensures States(a + b) == States(a) + States(b)
  {
    if b == [] {
      assert a + b == a;
    } else {
      var n := |b| - 1;
      StatesOfConcat(a, b[..n]);
      assert (a + b)[..|a| + n] == a + b[..n];
    }
  }

  lemma LookUpDescribed<M(!new), E(!new)>(
      cells: Cells<M, E>, aggregate: seq<E> -> M, t: map<string, M>, es: seq<Entry<E>>, name: string)
    requires Lawful(cells, aggregate) && Describes(aggregate, t, es)
    ensures LookUp(cells, t, name) == aggregate(At(es, name))
  {
  }

  lemma AddEntryDescribes<M(!new), E(!new)>(
      cells: Cells<M, E>, aggregate: seq<E> -> M, l: Ledger<M>, es: seq<Entry<E>>, e: Entry<E>)
    requires Lawful(cells, aggregate) && Describes(aggregate, l.interval, es)
    ensures Describes(aggregate, AddEntry(cells, l, e).interval, es + [e])
    ensures Streams(es + [e]) == if e.Stream? then Streams(es) + multiset{e.state} else Streams(es)
  {
    var t := AddEntry(cells, l, e).interval;
    assert (es + [e])[..|es|] == es;
    forall name ensures (name in t <==> |At(es + [e], name)| > 0)
                     && (name in t ==> t[name] == aggregate(At(es + [e], name)))
    {
      LookUpDescribed(cells, aggregate, l.interval, es, name);
      if !(e.Measured? && e.endpoint == name) {
        assert At(es + [e], name) == At(es, name);
      }
    }
  }

  lemma SplitAt<E>(es: seq<Entry<E>>, k: nat, name: string)
    requires k <= |es|
    ensures At(es, name) == At(es[..k], name) + At(es[k..], name)
    ensures Streams(es) == Streams(es[..k]) + Streams(es[k..])
  {
    assert es[..k] + es[k..] == es;
    AtOfConcat(es[..k], es[k..], name);
    StatesOfConcat(es[..k], es[k..]);
  }

  lemma MergeDescribes<M(!new), E(!new)>(
      cells: Cells<M, E>, aggregate: seq<E> -> M, summary: map<string, M>, interval: map<string, M>,
      es: seq<Entry<E>>, k: nat)
    requires Lawful(cells, aggregate) && k <= |es|
    requires Describes(aggregate, summary, es[..k]) && Describes(aggregate, interval, es[k..])
    ensures Describes(aggregate, MergeTables(cells, summary, interval), es)
  {
    var t := MergeTables(cells, summary, interval);
    forall name ensures (name in t <==> |At(es, name)| > 0)
                     && (name in t ==> t[name] == aggregate(At(es, name)))
    {
      SplitAt(es, k, name);
      LookUpDescribed(cells, aggregate, summary, es[..k], name);
      if name !in interval {
        assert At(es, name) == At(es[..k], name);
      }
    }
  }

  // ----- Runs of record and flush steps

  datatype Op<E> = Record(entry: Entry<E>) | Flush

  function Entries<E>(ops: seq<Op<E>>): seq<Entry<E>> {
    if ops == [] then []
    else Entries(ops[..|ops| - 1]) + (if ops[|ops| - 1].Record? then [ops[|ops| - 1].entry] else [])
  }

  function Play<M, E>(cells: Cells<M, E>, max: nat, ops: seq<Op<E>>): Ledger<M> {
    if ops == [] then EmptyLedger()
    else
      var l := Play(cells, max, ops[..|ops| - 1]);
      match ops[|ops| - 1]
      case Record(e) => AddEntry(cells, l, e)
      case Flush => Flushed(cells, max, l)
  }

  /** Of the entries `es`, the first `done` are in the summary and the others in the interval. */
  ghost predicate Accounts<M, E>(
      aggregate: seq<E> -> M, max: nat, l: Ledger<M>, es: seq<Entry<E>>, done: nat) {
    && done <= |es|
    && Describes(aggregate, l.summary, es[..done]) && Describes(aggregate, l.interval, es[done..])
    && l.appSummary == Streams(es[..done]) && l.appInterval == Streams(es[done..])
    && l.accepted <= max
  }

  lemma RecordAccounts<M(!new), E(!new)>(
      cells: Cells<M, E>, aggregate: seq<E> -> M, max: nat, l: Ledger<M>, es: seq<Entry<E>>, done: nat, e: Entry<E>)
    requires Lawful(cells, aggregate) && Accounts(aggregate, max, l, es, done)
    ensures Accounts(aggregate, max, AddEntry(cells, l, e), es + [e], done)
  {
    SplitOneMore(es, done, e);
    AddEntryDescribes(cells, aggregate, l, es[done..], e);
  }

  lemma SplitOneMore<E>(es: seq<Entry<E>>, done: nat, e: Entry<E>)
    requires done <= |es|
    ensures (es + [e])[..done] == es[..done] && (es + [e])[done..] == es[done..] + [e]
  {
  }

  lemma FlushAccounts<M(!new), E(!new)>(
      cells: Cells<M, E>, aggregate: seq<E> -> M, max: nat, l: Ledger<M>, es: seq<Entry<E>>, done: nat)
    requires Lawful(cells, aggregate) && Accounts(aggregate, max, l, es, done) && !NothingOpen(l)
    ensures Accounts(aggregate, max, Flushed(cells, max, l), es, |es|)
  {
    MergeDescribes(cells, aggregate, l.summary, l.interval, es, done);
    SplitAt(es, done, "");
    WholeAccounts(aggregate, max, Flushed(cells, max, l), es);
  }

  lemma WholeAccounts<M, E>(aggregate: seq<E> -> M, max: nat, l: Ledger<M>, es: seq<Entry<E>>)
    requires Describes(aggregate, l.summary, es) && l.interval == map[]
    requires l.appSummary == Streams(es) && l.appInterval == multiset{} && l.accepted <= max
    ensures Accounts(aggregate, max, l, es, |es|)
  {
    assert es[..|es|] == es && es[|es|..] == [];
  }

  lemma {:induction false} PlayAccounts<M(!new), E(!new)>(
      cells: Cells<M, E>, aggregate: seq<E> -> M, max: nat, ops: seq<Op<E>>) returns (done: nat)
    requires Lawful(cells, aggregate)
    ensures Accounts(aggregate, max, Play(cells, max, ops), Entries(ops), done)
  {
    if ops == [] {
      done := 0;
    } else {
      var init, last := ops[..|ops| - 1], ops[|ops| - 1];
      done := PlayAccounts(cells, aggregate, max, init);
      var l := Play(cells, max, init);
      if last.Record? {
        RecordAccounts(cells, aggregate, max, l, Entries(init), done, last.entry);
      } else {
        assert Entries(ops) == Entries(init);
        if !NothingOpen(l) {
          FlushAccounts(cells, aggregate, max, l, Entries(init), done);
          done := |Entries(ops)|;
        }
      }
    }
  }

  /**
   For any interleaving of record and flush steps: the summary merged with the open
   interval is the aggregate of everything recorded, and no more interval records
   than allowed have been accepted.
   */
  lemma NothingIsLost<M(!new), E(!new)>(
      cells: Cells<M, E>, aggregate: seq<E> -> M, max: nat, ops: seq<Op<E>>)
    requires Lawful(cells, aggregate)
    ensures var l := Play(cells, max, ops);
            && Describes(aggregate, MergeTables(cells, l.summary, l.interval), Entries(ops))
            && l.appSummary + l.appInterval == Streams(Entries(ops))
            && l.accepted <= max
  {
    var l, es := Play(cells, max, ops), Entries(ops);
    var done := PlayAccounts(cells, aggregate, max, ops);
    MergeDescribes(cells, aggregate, l.summary, l.interval, es, done);
    SplitAt(es, done, "");
  }

  /** How many flushes found something to close: those that come right behind a record. */
  function Closings<E>(ops: seq<Op<E>>): nat {
    if |ops| < 2 then 0
    else Closings(ops[..|ops| - 1]) + (if ops[|ops| - 1].Flush? && ops[|ops| - 2].Record? then 1 else 0)
  }

  lemma RecordOpens<M, E>(cells: Cells<M, E>, l: Ledger<M>, e: Entry<E>)
    ensures !NothingOpen(AddEntry(cells, l, e))
    ensures var m := AddEntry(cells, l, e); m.accepted == l.accepted && m.dropped == l.dropped
  {
    var m := AddEntry(cells, l, e);
    if e.Measured? {
      assert e.endpoint in m.interval;
    } else {
      assert e.state in m.appInterval;
    }
  }

  /**
   Every interval that is closed is accounted for, and none twice: intervals are
   accepted up to the limit and dropped beyond it; a flush with nothing to close
   counts for neither.
   */
  lemma {:induction false} ClosingsAreCounted<M, E>(cells: Cells<M, E>, max: nat, ops: seq<Op<E>>)
    ensures var l := Play(cells, max, ops);
            && l.accepted == (if Closings(ops) <= max then Closings(ops) else max)
            && l.accepted + l.dropped == Closings(ops)
            && (NothingOpen(l) <==> ops == [] || ops[|ops| - 1].Flush?)
  {
    if ops != [] {
      var init := ops[..|ops| - 1];
      ClosingsAreCounted(cells, max, init);
      var l := Play(cells, max, init);
      if ops[|ops| - 1].Record? {
        RecordOpens(cells, l, ops[|ops| - 1].entry);
      }
    }
  }

  /** After a closing flush the summary depends on the entries alone, not on flush points or dropped records. */
  lemma FlushPointsDoNotMatter<M(!new), E(!new)>(
      cells: Cells<M, E>, aggregate: seq<E> -> M, max1: nat, ops1: seq<Op<E>>, max2: nat, ops2: seq<Op<E>>)
    requires Lawful(cells, aggregate) && Entries(ops1) == Entries(ops2)
    ensures var l1, l2 := Play(cells, max1, ops1 + [Flush]), Play(cells, max2, ops2 + [Flush]);
            && l1.summary == l2.summary && l1.appSummary == l2.appSummary
            && Describes(aggregate, l1.summary, Entries(ops1))
  {
    ClosedSummary(cells, aggregate, max1, ops1);
    ClosedSummary(cells, aggregate, max2, ops2);
    DescribedOnce(aggregate, Play(cells, max1, ops1 + [Flush]).summary,
                  Play(cells, max2, ops2 + [Flush]).summary, Entries(ops1));
  }

  lemma ClosedSummary<M(!new), E(!new)>(
      cells: Cells<M, E>, aggregate: seq<E> -> M, max: nat, ops: seq<Op<E>>)
    requires Lawful(cells, aggregate)
    ensures var l := Play(cells, max, ops + [Flush]);
            Describes(aggregate, l.summary, Entries(ops)) && l.appSummary == Streams(Entries(ops))
  {
    var l := Play(cells, max, ops + [Flush]);
    assert (ops + [Flush])[..|ops|] == ops;
    assert Entries(ops + [Flush]) == Entries(ops);
    NothingIsLost(cells, aggregate, max, ops + [Flush]);
    assert NothingOpen(l);
    assert MergeTables(cells, l.summary, l.interval) == l.summary;
  }

  // ----- The object of the program

  /** What the run summary says. */
  datatype Report<M> = Report(
    endpoints: map<string, M>, applicationStreams: multiset<string>, droppedRecords: nat, outputTruncated: bool)

  class TelemetryRecorder<M(==), E> {
    const cells: Cells<M, E>
    const maxIntervalRecords: nat
    const reportingIntervalSeconds: real
    var interval: map<string, M>
    var summary: map<string, M>
    var appInterval: multiset<string>
    var appSummary: multiset<string>
    var intervalStartedAt: real
    var sequence: nat
    var intervalRecords: nat
    var droppedRecords: nat
    var outputTruncated: bool
    var finished: bool

    ghost function Value(): Ledger<M>
      reads this
    {
      Ledger(interval, summary, appInterval, appSummary, intervalRecords, droppedRecords)
    }

    constructor (cells: Cells<M, E>, maxIntervalRecords: nat, reportingIntervalSeconds: real, now: real)
      requires maxIntervalRecords >= 1 && reportingIntervalSeconds > 0.0
      ensures this.cells == cells && this.maxIntervalRecords == maxIntervalRecords
      ensures this.reportingIntervalSeconds == reportingIntervalSeconds
      ensures Value() == EmptyLedger() && !finished
    {
      this.cells := cells;
      this.maxIntervalRecords := maxIntervalRecords;
      this.reportingIntervalSeconds := reportingIntervalSeconds;
      interval, summary, appInterval, appSummary := map[], map[], multiset{}, multiset{};
      intervalStartedAt := now;
      sequence, intervalRecords, droppedRecords, outputTruncated, finished := 0, 0, 0, false, false;
    }

    /** Any of the record calls; a finished recorder ignores them. */
    method Record(entry: Entry<E>)
      modifies this`interval, this`appInterval
      ensures Value() == if finished then old(Value()) else AddEntry(cells, old(Value()), entry)
    {
      if finished {
        return;
      }
      match entry
      case Measured(endpoint, event) =>
        if endpoint !in interval {
          interval := interval[endpoint := cells.initial];
        }
        interval := interval[endpoint := cells.record(interval[endpoint], event)];
      case Stream(state) =>
        appInterval := appInterval + multiset{state};
    }

    /** Merge every endpoint's open measurements into its summary. */
    method MergeInterval()
      modifies this`summary
      ensures summary == MergeTables(cells, old(summary), interval)
    {
      var names := interval.Keys;
      ghost var merged := {};
      while names != {}
        invariant names !! merged && names + merged == interval.Keys
        invariant summary.Keys == old(summary).Keys + merged
        invariant forall name :: name in summary ==>
                    summary[name] == if name in merged
                                     then cells.merge(LookUp(cells, old(summary), name), interval[name])
                                     else old(summary)[name]
        decreases names
      {
        var name :| name in names;
        assert LookUp(cells, summary, name) == LookUp(cells, old(summary), name);
        names, merged := names - {name}, merged + {name};
        summary := summary[name := cells.merge(LookUp(cells, summary, name), interval[name])];
      }
    }

    method MoveInterval()
      modifies this`summary, this`appSummary, this`interval, this`appInterval
      ensures summary == MergeTables(cells, old(summary), old(interval)) && interval == map[]
      ensures appSummary == old(appSummary) + old(appInterval) && appInterval == multiset{}
    {
      MergeInterval();
      appSummary, appInterval := appSummary + appInterval, multiset{};
      interval := map[];
    }

    /** Close a non-empty interval; true when its record was accepted for export. */
    method CloseInterval(now: real) returns (accepted: bool)
      modifies this
      ensures finished == old(finished)
      ensures Value() == Closed(cells, maxIntervalRecords, old(Value()))
      ensures accepted <==> intervalRecords == old(intervalRecords) + 1
      ensures intervalStartedAt == now && sequence == old(sequence) + 1
      ensures outputTruncated == (old(outputTruncated) || !accepted)
    {
      ghost var was := Value();
      sequence := sequence + 1;
      MoveInterval();
      assert Value() == Ledger(map[], MergeTables(cells, was.summary, was.interval), multiset{},
                               was.appSummary + was.appInterval, was.accepted, was.dropped);
      intervalStartedAt := now;
      if intervalRecords >= maxIntervalRecords {
        droppedRecords := droppedRecords + 1;
        outputTruncated := true;
        return false;
      }
      intervalRecords := intervalRecords + 1;
      return true;
    }

    method Flush(force: bool, now: real) returns (accepted: bool)
      modifies this
      ensures finished == old(finished)
      ensures var due := force || Max(now - old(intervalStartedAt), 0.0) >= reportingIntervalSeconds;
              && Value() == (if due then Flushed(cells, maxIntervalRecords, old(Value())) else old(Value()))
              && intervalStartedAt == (if due || NothingOpen(old(Value())) then now else old(intervalStartedAt))
              && sequence == old(sequence) + (if due && !NothingOpen(old(Value())) then 1 else 0)
              && outputTruncated == (old(outputTruncated) || (due && !NothingOpen(old(Value())) && !accepted))
      ensures accepted <==> intervalRecords == old(intervalRecords) + 1
    {
      if |interval| == 0 && |appInterval| == 0 {
        intervalStartedAt := now;
        return false;
      }
      if !force && Max(now - intervalStartedAt, 0.0) < reportingIntervalSeconds {
        return false;
      }
      accepted := CloseInterval(now);
    }

    /** Flush once more and report the summary; a second call does nothing. */
    method Finish(now: real) returns (report: Option<Report<M>>)
      modifies this
      ensures finished
      ensures old(finished) ==> report.None? && Value() == old(Value())
      ensures !old(finished) ==>
                && Value() == Flushed(cells, maxIntervalRecords, old(Value())) && NothingOpen(Value())
                && report == Some(Report(summary, appSummary, droppedRecords, outputTruncated))
    {
      if finished {
        return None;
      }
      finished := true;
      var _ := Flush(true, now);
      return Some(Report(summary, appSummary, droppedRecords, outputTruncated));
    }
  }
}
