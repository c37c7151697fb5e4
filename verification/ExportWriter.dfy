/** The bounded export queue and the writer's byte budget. A record is known by its encoded size. */
module ExportWriter {

  const SUMMARY_RESERVE_BYTES: nat := 32 * 1024
  const MIN_MAX_FILE_BYTES: nat := 64 * 1024
  /** Encoded size of the one-line truncation status, whose only variable part is a 32-digit run id. */
  const STATUS_BYTES: nat := 123

  /** An exported record; `compactSize` is the size of the shortened form that only a summary has. */
  datatype Record = Record(isSummary: bool, size: nat, compactSize: nat)

  datatype Line = Full(record: Record) | Compact(record: Record) | Status

  function SizeOf(line: Line): nat {
    match line
    case Full(r) => r.size
    case Compact(r) => r.compactSize
    case Status => STATUS_BYTES
  }

  function Total(lines: seq<Line>): nat {
    if lines == [] then 0 else Total(lines[..|lines| - 1]) + SizeOf(lines[|lines| - 1])
  }

  function CountStatus(lines: seq<Line>): nat {
    if lines == [] then 0
    else CountStatus(lines[..|lines| - 1]) + (if lines[|lines| - 1].Status? then 1 else 0)
  }

  datatype Output = Output(lines: seq<Line>, bytes: nat, statusWritten: bool, truncated: bool)

  const NoOutput := Output([], 0, false, false)

  function Append(o: Output, line: Line): Output {
    o.(lines := o.lines + [line], bytes := o.bytes + SizeOf(line))
  }

  /** What the writer does with one record. */
  function Write(maxFileBytes: nat, o: Output, r: Record): Output {
    if !r.isSummary && o.bytes + r.size > maxFileBytes - SUMMARY_RESERVE_BYTES then
      if o.statusWritten then o.(truncated := true)
      else Append(o.(truncated := true), Status).(statusWritten := true)
    else if o.bytes + r.size <= maxFileBytes then Append(o, Full(r))
    else if r.isSummary && o.bytes + r.compactSize <= maxFileBytes then Append(o.(truncated := true), Compact(r))
    else o.(truncated := true)
  }

  function WriteAll(maxFileBytes: nat, records: seq<Record>): Output {
    if records == [] then NoOutput
    else Write(maxFileBytes, WriteAll(maxFileBytes, records[..|records| - 1]), records[|records| - 1])
  }

  /** The loop of the writer thread over the records of the queue. */
  method WriterLoop(maxFileBytes: nat, records: seq<Record>) returns (o: Output)
    requires maxFileBytes >= MIN_MAX_FILE_BYTES
    ensures o == WriteAll(maxFileBytes, records)
  {
    var lines: seq<Line>, bytesWritten: nat, statusWritten, truncated := [], 0, false, false;
    for i := 0 to |records|
      invariant Output(lines, bytesWritten, statusWritten, truncated) == WriteAll(maxFileBytes, records[..i])
    {
      var record := records[i];
      assert records[..i + 1][..i] == records[..i];
      var dataLimit := maxFileBytes - SUMMARY_RESERVE_BYTES;
      if !record.isSummary && bytesWritten + record.size > dataLimit {
        truncated := true;
        if !statusWritten {
          lines := lines + [Status];
          bytesWritten := bytesWritten + STATUS_BYTES;
          statusWritten := true;
        }
      } else if bytesWritten + record.size > maxFileBytes {
        truncated := true;
        if record.isSummary && bytesWritten + record.compactSize <= maxFileBytes {
          lines := lines + [Compact(record)];
          bytesWritten := bytesWritten + record.compactSize;
        }
      } else {
        lines := lines + [Full(record)];
        bytesWritten := bytesWritten + record.size;
      }
    }
    assert records[..|records|] == records;
    o := Output(lines, bytesWritten, statusWritten, truncated);
  }

  // ----- The budget

  ghost predicate OnlyData(records: seq<Record>) {
    forall i :: 0 <= i < |records| ==> !records[i].isSummary
  }

  ghost predicate Accounted(o: Output) {
    o.bytes == Total(o.lines) && CountStatus(o.lines) == (if o.statusWritten then 1 else 0)
  }

  lemma AppendAccounted(lines: seq<Line>, line: Line)
    ensures Total(lines + [line]) == Total(lines) + SizeOf(line)
    ensures CountStatus(lines + [line]) == CountStatus(lines) + (if line.Status? then 1 else 0)
  {
    assert (lines + [line])[..|lines|] == lines;
  }

  lemma WriteAccounted(maxFileBytes: nat, o: Output, r: Record)
    requires Accounted(o)
    ensures Accounted(Write(maxFileBytes, o, r))
  {
    AppendAccounted(o.lines, Status);
    AppendAccounted(o.lines, Full(r));
    AppendAccounted(o.lines, Compact(r));
  }

  /** The byte count is the size of the lines, and at most one of them is the status. */
  lemma {:induction false} OutputIsAccounted(maxFileBytes: nat, records: seq<Record>)
    ensures Accounted(WriteAll(maxFileBytes, records))
  {
    if records != [] {
      OutputIsAccounted(maxFileBytes, records[..|records| - 1]);
      WriteAccounted(maxFileBytes, WriteAll(maxFileBytes, records[..|records| - 1]), records[|records| - 1]);
    }
  }

  lemma {:induction false} DataLeavesTheReserve(maxFileBytes: nat, records: seq<Record>)
    requires maxFileBytes >= MIN_MAX_FILE_BYTES && OnlyData(records)
    ensures var o := WriteAll(maxFileBytes, records);
            o.bytes <= maxFileBytes - SUMMARY_RESERVE_BYTES + (if o.statusWritten then STATUS_BYTES else 0)
  {
    if records != [] {
      DataLeavesTheReserve(maxFileBytes, records[..|records| - 1]);
    }
  }

  /**
   With the run summary last, as a finished run enqueues it: the file never exceeds
   its budget, holds at most one truncation status, and ends with a summary (full or
   compact) whenever the status line and the compact summary fit in the reserve.
   */
  lemma WriterKeepsBudget(maxFileBytes: nat, data: seq<Record>, summary: Record)
    requires maxFileBytes >= MIN_MAX_FILE_BYTES && OnlyData(data) && summary.isSummary
    ensures var o := WriteAll(maxFileBytes, data + [summary]);
            && o.bytes == Total(o.lines) <= maxFileBytes
            && CountStatus(o.lines) <= 1
            && (STATUS_BYTES + summary.compactSize <= SUMMARY_RESERVE_BYTES ==>
                  |o.lines| > 0 && o.lines[|o.lines| - 1] in {Full(summary), Compact(summary)})
  {
    assert (data + [summary])[..|data|] == data;
    DataLeavesTheReserve(maxFileBytes, data);
    OutputIsAccounted(maxFileBytes, data + [summary]);
  }

  /** Nothing is left out silently: without the truncation flag every record is in the file, in order. */
  lemma {:induction false} NothingDroppedSilently(maxFileBytes: nat, records: seq<Record>)
    requires !WriteAll(maxFileBytes, records).truncated
    ensures var o := WriteAll(maxFileBytes, records);
            |o.lines| == |records| && forall i :: 0 <= i < |records| ==> o.lines[i] == Full(records[i])
  {
    if records != [] {
      NothingDroppedSilently(maxFileBytes, records[..|records| - 1]);
    }
  }

  // ----- What is in the file, exactly

  /** What record `i` adds to the lines before it. */
  ghost predicate Adds(maxFileBytes: nat, records: seq<Record>, i: nat, lines: seq<Line>)
    requires i < |records|
  {
    WriteAll(maxFileBytes, records[..i + 1]).lines == WriteAll(maxFileBytes, records[..i]).lines + lines
  }

  ghost predicate WrittenInFull(maxFileBytes: nat, records: seq<Record>, i: nat)
    requires i < |records|
  {
    Adds(maxFileBytes, records, i, [Full(records[i])])
  }

  lemma WriteLast(maxFileBytes: nat, records: seq<Record>, i: nat)
    requires i < |records|
    ensures WriteAll(maxFileBytes, records[..i + 1]) == Write(maxFileBytes, WriteAll(maxFileBytes, records[..i]), records[i])
  {
    assert records[..i + 1][..i] == records[..i];
  }

  lemma WrittenOnce(maxFileBytes: nat, o: Output, r: Record)
    requires maxFileBytes >= MIN_MAX_FILE_BYTES && Accounted(o)
    ensures var fits := Total(o.lines) + r.size <= maxFileBytes - (if r.isSummary then 0 else SUMMARY_RESERVE_BYTES);
            var shortFits := r.isSummary && Total(o.lines) + r.compactSize <= maxFileBytes;
            Write(maxFileBytes, o, r).lines
            == o.lines + if fits then [Full(r)]
                         else if shortFits then [Compact(r)]
                         else if !r.isSummary && CountStatus(o.lines) == 0 then [Status]
                         else []
  {
  }

  /**
   What the file holds of each record, for any records in any order: a data record is
   written exactly if it fits below the summary's reserve behind the lines before it; a
   summary in full if it fits the file, else shortened if that fits; and the first data
   record left out is replaced by the status line.
   */
  lemma WrittenExactly(maxFileBytes: nat, records: seq<Record>, i: nat)
    requires maxFileBytes >= MIN_MAX_FILE_BYTES && i < |records|
    ensures var r, before := records[i], WriteAll(maxFileBytes, records[..i]).lines;
            var limit := maxFileBytes - (if r.isSummary then 0 else SUMMARY_RESERVE_BYTES);
            && (WrittenInFull(maxFileBytes, records, i) <==> Total(before) + r.size <= limit)
            && (Adds(maxFileBytes, records, i, [Compact(r)]) <==>
                  r.isSummary && Total(before) + r.size > limit && Total(before) + r.compactSize <= maxFileBytes)
            && (Adds(maxFileBytes, records, i, [Status]) <==>
                  !r.isSummary && Total(before) + r.size > limit && CountStatus(before) == 0)
    ensures WriteAll(maxFileBytes, records[..i + 1]).lines <= WriteAll(maxFileBytes, records).lines
  {
    var o := WriteAll(maxFileBytes, records[..i]);
    OutputIsAccounted(maxFileBytes, records[..i]);
    WriteLast(maxFileBytes, records, i);
    WrittenOnce(maxFileBytes, o, records[i]);
    SameTail(o.lines, Full(records[i]), Compact(records[i]));
    SameTail(o.lines, Full(records[i]), Status);
    SameTail(o.lines, Compact(records[i]), Status);
    LinesOnlyGrow(maxFileBytes, records, i + 1);
  }

  lemma SameTail(lines: seq<Line>, a: Line, b: Line)
    requires a != b
    ensures lines + [a] != lines + [b] && lines + [a] != lines + [] && lines + [b] != lines + []
  {
    assert (lines + [a])[|lines|] == a && (lines + [b])[|lines|] == b;
    assert |lines + [a]| != |lines + []| && |lines + [b]| != |lines + []|;
  }

  lemma {:induction false} LinesOnlyGrow(maxFileBytes: nat, records: seq<Record>, n: nat)
    requires n <= |records|
    ensures WriteAll(maxFileBytes, records[..n]).lines <= WriteAll(maxFileBytes, records).lines
    decreases |records|
  {
    if n == |records| {
      assert records[..n] == records;
    } else {
      var init := records[..|records| - 1];
      LinesOnlyGrow(maxFileBytes, init, n);
      assert init[..n] == records[..n];
    }
  }

  lemma WrittenInFullPrefix(maxFileBytes: nat, records: seq<Record>, n: nat, i: nat)
    requires i < n <= |records|
    ensures WrittenInFull(maxFileBytes, records[..n], i) <==> WrittenInFull(maxFileBytes, records, i)
  {
    assert records[..n][..i + 1] == records[..i + 1] && records[..n][..i] == records[..i];
  }

  lemma LastTruncates(maxFileBytes: nat, records: seq<Record>)
    requires maxFileBytes >= MIN_MAX_FILE_BYTES && records != []
    ensures var n := |records| - 1;
            WriteAll(maxFileBytes, records).truncated <==>
              WriteAll(maxFileBytes, records[..n]).truncated || !WrittenInFull(maxFileBytes, records, n)
  {
    var n := |records| - 1;
    var o := WriteAll(maxFileBytes, records[..n]);
    assert records[..n + 1] == records;
    WrittenExactly(maxFileBytes, records, n);
    OutputIsAccounted(maxFileBytes, records[..n]);
  }

  /** The file counts as truncated exactly if some record is not in it in full. */
  lemma {:induction false} TruncatedExactly(maxFileBytes: nat, records: seq<Record>)
    requires maxFileBytes >= MIN_MAX_FILE_BYTES
    ensures WriteAll(maxFileBytes, records).truncated <==>
            exists i :: 0 <= i < |records| && !WrittenInFull(maxFileBytes, records, i)
  {
    if records != [] {
      var n := |records| - 1;
      TruncatedExactly(maxFileBytes, records[..n]);
      LastTruncates(maxFileBytes, records);
      forall i | 0 <= i < n
        ensures WrittenInFull(maxFileBytes, records[..n], i) <==> WrittenInFull(maxFileBytes, records, i)
      {
        WrittenInFullPrefix(maxFileBytes, records, n, i);
      }
    }
  }

  function TotalSize(records: seq<Record>): nat {
    if records == [] then 0 else TotalSize(records[..|records| - 1]) + records[|records| - 1].size
  }

  function InFull(records: seq<Record>): seq<Line> {
    seq(|records|, i requires 0 <= i < |records| => Full(records[i]))
  }

  lemma {:induction false} DataFits(maxFileBytes: nat, records: seq<Record>)
    requires maxFileBytes >= MIN_MAX_FILE_BYTES && OnlyData(records)
    requires TotalSize(records) <= maxFileBytes - SUMMARY_RESERVE_BYTES
    ensures WriteAll(maxFileBytes, records) == Output(InFull(records), TotalSize(records), false, false)
  {
    if records != [] {
      var n := |records| - 1;
      DataFits(maxFileBytes, records[..n]);
      assert InFull(records) == InFull(records[..n]) + [Full(records[n])];
    }
  }

  /** If all data together leave the reserve free and the summary fits the rest, the file is complete and in order. */
  lemma EverythingFits(maxFileBytes: nat, data: seq<Record>, summary: Record)
    requires maxFileBytes >= MIN_MAX_FILE_BYTES && OnlyData(data) && summary.isSummary
    requires TotalSize(data) <= maxFileBytes - SUMMARY_RESERVE_BYTES
    requires TotalSize(data) + summary.size <= maxFileBytes
    ensures var o := WriteAll(maxFileBytes, data + [summary]);
            o.lines == InFull(data + [summary]) && !o.truncated
  {
    assert (data + [summary])[..|data|] == data;
    DataFits(maxFileBytes, data);
    assert InFull(data + [summary]) == InFull(data) + [Full(summary)];
  }

  /** Record `r` would be the first to be cut off, and there is no room for the status line. */
  predicate Overflows(maxFileBytes: nat, o: Output, r: Record) {
    && !r.isSummary && o.bytes + r.size > maxFileBytes - SUMMARY_RESERVE_BYTES
    && !o.statusWritten && o.bytes + STATUS_BYTES > maxFileBytes
  }

  predicate OverflowsAt(maxFileBytes: nat, records: seq<Record>, i: nat)
    requires i < |records|
  {
    Overflows(maxFileBytes, WriteAll(maxFileBytes, records[..i]), records[i])
  }

  lemma StepBreaks(maxFileBytes: nat, o: Output, r: Record)
    requires maxFileBytes >= MIN_MAX_FILE_BYTES
    ensures Write(maxFileBytes, o, r).bytes > maxFileBytes <==> o.bytes > maxFileBytes || Overflows(maxFileBytes, o, r)
  {
  }

  /** For any records in any order, the file exceeds its budget exactly if some record overflows it. */
  lemma {:induction false} BudgetBreaksExactly(maxFileBytes: nat, records: seq<Record>)
    requires maxFileBytes >= MIN_MAX_FILE_BYTES
    ensures WriteAll(maxFileBytes, records).bytes > maxFileBytes <==>
            exists i :: 0 <= i < |records| && OverflowsAt(maxFileBytes, records, i)
  {
    if records != [] {
      var n := |records| - 1;
      BudgetBreaksExactly(maxFileBytes, records[..n]);
      StepBreaks(maxFileBytes, WriteAll(maxFileBytes, records[..n]), records[n]);
      forall i | 0 <= i < n
        ensures OverflowsAt(maxFileBytes, records[..n], i) <==> OverflowsAt(maxFileBytes, records, i)
      {
        assert records[..n][..i] == records[..i];
      }
      assert OverflowsAt(maxFileBytes, records, n) <==>
             Overflows(maxFileBytes, WriteAll(maxFileBytes, records[..n]), records[n]);
    }
  }

  /** A data record behind a summary can break the budget: its status line is written unchecked. */
  lemma DataAfterSummaryBreaksBudget(maxFileBytes: nat)
    requires maxFileBytes >= MIN_MAX_FILE_BYTES
    ensures WriteAll(maxFileBytes, [Record(true, maxFileBytes, 100), Record(false, 1, 0)]).bytes > maxFileBytes
  {
    var summary, late := Record(true, maxFileBytes, 100), Record(false, 1, 0);
    assert [summary, late][..1] == [summary] && [summary][..0] == [];
    assert WriteAll(maxFileBytes, [summary]) == Append(NoOutput, Full(summary));
  }

  // ----- The queue in front of the writer

  class ExportQueue {
    const capacity: nat
    var items: seq<Record>
    var droppedRecords: nat

    constructor (capacity: nat)
      requires capacity >= 2
      ensures this.capacity == capacity && items == [] && droppedRecords == 0
    {
      this.capacity := capacity;
      items := [];
      droppedRecords := 0;
    }

    /** A record that finds the queue full is dropped; a priority record displaces the oldest one. */
    method Enqueue(record: Record, priority: bool)
      requires capacity >= 2 && |items| <= capacity
      modifies this
      ensures |items| <= capacity
      ensures old(|items|) < capacity ==> items == old(items) + [record] && droppedRecords == old(droppedRecords)
      ensures old(|items|) == capacity ==> droppedRecords == old(droppedRecords) + 1
      ensures old(|items|) == capacity ==> items == if priority then old(items)[1..] + [record] else old(items)
      ensures priority ==> |items| > 0 && items[|items| - 1] == record
    {
      if |items| < capacity {
        items := items + [record];
        return;
      }
      droppedRecords := droppedRecords + 1;
      if priority {
        items := items[1..];
        items := items + [record];
      }
    }
  }
}
