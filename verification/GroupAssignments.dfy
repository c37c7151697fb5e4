/** Streaming an application's group assignments with exact duplicate handling. */
module GroupAssignments {
  import opened Basics

  /** The three evidence fields of an assignment; canonical JSON and its digest are taken as injective on them. */
  datatype Evidence = Evidence(lastUpdated: string, priority: string, profile: string)

  /**
   One item of the listing: the stripped group id unless it is missing, blank or of
   the wrong type, and the evidence unless it has no JSON form.
   */
  datatype Item = Item(groupId: Option<string>, evidence: Option<Evidence>)

  datatype Row = Row(groupId: string, evidence: Evidence)

  datatype Ending = Ended(duplicates: nat) | NoGroupId | NotJson | Conflict(groupId: string)

  predicate Usable(item: Item) {
    item.groupId.Some? && item.evidence.Some?
  }

  /** The item agrees with every earlier item of its group. */
  ghost predicate Agrees(items: seq<Item>, i: nat)
    requires i < |items|
  {
    forall j :: 0 <= j < i && items[j].groupId == items[i].groupId ==> items[j].evidence == items[i].evidence
  }

  /** No earlier item has the group of item `i`. */
  predicate IsFirst(items: seq<Item>, i: nat)
    requires i < |items|
  {
    forall j :: 0 <= j < i ==> items[j].groupId != items[i].groupId
  }

  ghost predicate Consistent(items: seq<Item>) {
    forall i :: 0 <= i < |items| ==> Usable(items[i]) && Agrees(items, i)
  }

  /** One row per group, at its first item. */
  function FirstRows(items: seq<Item>): seq<Row> {
    if items == [] then []
    else
      var n := |items| - 1;
      FirstRows(items[..n])
      + (if Usable(items[n]) && IsFirst(items, n) then [Row(items[n].groupId.value, items[n].evidence.value)] else [])
  }

  lemma PrefixFacts(items: seq<Item>, n: nat, i: nat)
    requires i < n <= |items|
    ensures Agrees(items[..n], i) <==> Agrees(items, i)
    ensures IsFirst(items[..n], i) <==> IsFirst(items, i)
  {
    assert forall j :: 0 <= j <= i ==> items[..n][j] == items[j];
  }

  /**
   Stream the rows. The call ends normally exactly if every item is usable and agrees
   with every earlier item of its group; up to the ending it has yielded one row per
   group in first-seen order, and rows plus duplicates account for every item.
   */
  method ApplicationGroupAssignmentRows(items: seq<Item>) returns (rows: seq<Row>, ending: Ending, read: nat)
    ensures ending.Ended? <==> Consistent(items)
    ensures read <= |items| && Consistent(items[..read])
    ensures rows == FirstRows(items[..read])
    ensures ending.Ended? ==> read == |items| && |rows| + ending.duplicates == |items|
    ensures !ending.Ended? ==> read < |items|
    ensures ending.NoGroupId? <==> read < |items| && items[read].groupId.None?
    ensures ending.NotJson? <==> read < |items| && items[read].groupId.Some? && items[read].evidence.None?
    ensures ending.Conflict? <==> read < |items| && Usable(items[read]) && !Agrees(items, read)
  {
    var fingerprints: map<string, Evidence> := map[];
    var duplicateCount: nat := 0;
    rows := [];
    for n := 0 to |items|
      invariant Consistent(items[..n])
      invariant rows == FirstRows(items[..n]) && |rows| + duplicateCount == n
      invariant Remembers(fingerprints, items, n)
    {
      var item := items[n];
      if item.groupId.None? {
        BreaksAt(items, n);
        return rows, NoGroupId, n;
      }
      if item.evidence.None? {
        BreaksAt(items, n);
        return rows, NotJson, n;
      }
      var id := item.groupId.value;
      ExtendsTo(items, n);
      LooksUp(fingerprints, items, n);
      RemembersOneMore(fingerprints, items, n);
      if id !in fingerprints {
        fingerprints := fingerprints[id := item.evidence.value];
        rows := rows + [Row(id, item.evidence.value)];
      } else if fingerprints[id] == item.evidence.value {
        duplicateCount := duplicateCount + 1;
      } else {
        BreaksAt(items, n);
        return rows, Conflict(id), n;
      }
    }
    assert items[..|items|] == items;
    return rows, Ended(duplicateCount), |items|;
  }

  /** The fingerprints of the first `n` items: one per group, that of every item of the group. */
  ghost predicate Remembers(fingerprints: map<string, Evidence>, items: seq<Item>, n: nat)
    requires n <= |items|
  {
    && (forall id :: id in fingerprints ==> exists j :: 0 <= j < n && items[j].groupId == Some(id))
    && forall j :: 0 <= j < n ==>
         && items[j].groupId.Some? && items[j].groupId.value in fingerprints
         && items[j].evidence == Some(fingerprints[items[j].groupId.value])
  }

  lemma LooksUp(fingerprints: map<string, Evidence>, items: seq<Item>, n: nat)
    requires n < |items| && Usable(items[n]) && Remembers(fingerprints, items, n)
    ensures var id := items[n].groupId.value;
            && (id !in fingerprints <==> IsFirst(items, n))
            && (Agrees(items, n) <==> id in fingerprints ==> fingerprints[id] == items[n].evidence.value)
  {
  }

  lemma RemembersOneMore(fingerprints: map<string, Evidence>, items: seq<Item>, n: nat)
    requires n < |items| && Usable(items[n]) && Remembers(fingerprints, items, n)
    ensures var id, evidence := items[n].groupId.value, items[n].evidence.value;
            && (id !in fingerprints ==> Remembers(fingerprints[id := evidence], items, n + 1))
            && (id in fingerprints && fingerprints[id] == evidence ==> Remembers(fingerprints, items, n + 1))
  {
  }

  lemma BreaksAt(items: seq<Item>, n: nat)
    requires n < |items| && !(Usable(items[n]) && Agrees(items, n))
    ensures !Consistent(items)
  {
  }

  /** What one more usable item does to consistency and to the rows. */
  lemma ExtendsTo(items: seq<Item>, n: nat)
    requires n < |items| && Usable(items[n]) && Consistent(items[..n])
    ensures Consistent(items[..n + 1]) <==> Agrees(items, n)
    ensures FirstRows(items[..n + 1])
         == FirstRows(items[..n])
            + (if IsFirst(items, n) then [Row(items[n].groupId.value, items[n].evidence.value)] else [])
  {
    var init := items[..n + 1];
    assert init[..n] == items[..n];
    PrefixFacts(items, n + 1, n);
    forall i | 0 <= i < n ensures Usable(init[i]) && Agrees(init, i) {
      assert Usable(items[..n][i]) && Agrees(items[..n], i);
      PrefixFacts(items, n, i);
      PrefixFacts(items, n + 1, i);
    }
  }

  lemma PrefixConsistent(items: seq<Item>, n: nat)
    requires Consistent(items) && n <= |items|
    ensures Consistent(items[..n])
  {
    forall i | 0 <= i < n ensures Usable(items[..n][i]) && Agrees(items[..n], i) {
      assert Usable(items[i]) && Agrees(items, i);
      PrefixFacts(items, n, i);
    }
  }

  ghost predicate Named(rows: seq<Row>, id: string) {
    exists k :: 0 <= k < |rows| && rows[k].groupId == id
  }

  ghost predicate Listed(items: seq<Item>, id: string) {
    exists i :: 0 <= i < |items| && items[i].groupId == Some(id)
  }

  lemma NamedOneMore(rows: seq<Row>, row: Row, id: string)
    ensures Named(rows + [row], id) <==> Named(rows, id) || row.groupId == id
  {
    var more := rows + [row];
    assert more[|rows|] == row;
    assert forall k :: 0 <= k < |rows| ==> more[k] == rows[k];
  }

  lemma ListedOneMore(items: seq<Item>, id: string)
    requires items != []
    ensures Listed(items, id) <==> Listed(items[..|items| - 1], id) || items[|items| - 1].groupId == Some(id)
    ensures items[|items| - 1].groupId == Some(id) ==>
              (IsFirst(items, |items| - 1) <==> !Listed(items[..|items| - 1], id))
  {
    var init := items[..|items| - 1];
    assert forall i :: 0 <= i < |init| ==> init[i] == items[i];
  }

  lemma {:induction false} RowsNameGroup(items: seq<Item>, id: string)
    requires Consistent(items)
    ensures Named(FirstRows(items), id) <==> Listed(items, id)
  {
    if items != [] {
      var n := |items| - 1;
      PrefixConsistent(items, n);
      RowsNameGroup(items[..n], id);
      ListedOneMore(items, id);
      assert Usable(items[n]);
      var row := Row(items[n].groupId.value, items[n].evidence.value);
      NamedOneMore(FirstRows(items[..n]), row, id);
      assert FirstRows(items) == FirstRows(items[..n]) + if IsFirst(items, n) then [row] else [];
      if !IsFirst(items, n) {
        assert FirstRows(items) == FirstRows(items[..n]);
      }
    }
  }

  lemma {:induction false} RowsDiffer(items: seq<Item>)
    requires Consistent(items)
    ensures forall i, j :: 0 <= i < j < |FirstRows(items)| ==>
              FirstRows(items)[i].groupId != FirstRows(items)[j].groupId
  {
    if items != [] {
      var n := |items| - 1;
      PrefixConsistent(items, n);
      RowsDiffer(items[..n]);
      var last := items[n].groupId.value;
      RowsNameGroup(items[..n], last);
      ListedOneMore(items, last);
      var rows := FirstRows(items[..n]);
      assert IsFirst(items, n) ==> forall k :: 0 <= k < |rows| ==> rows[k].groupId != last;
    }
  }

  lemma {:induction false} RowsCarryEvidence(items: seq<Item>, k: nat, i: nat)
    requires Consistent(items) && k < |FirstRows(items)| && i < |items|
    requires items[i].groupId == Some(FirstRows(items)[k].groupId)
    ensures items[i].evidence == Some(FirstRows(items)[k].evidence)
  {
    var n := |items| - 1;
    PrefixConsistent(items, n);
    assert Usable(items[n]) && Agrees(items, n) && Agrees(items, i);
    var rows := FirstRows(items[..n]);
    if k < |rows| {
      assert FirstRows(items)[k] == rows[k];
      if i < n {
        RowsCarryEvidence(items[..n], k, i);
      } else {
        RowsNameGroup(items[..n], rows[k].groupId);
        var j :| 0 <= j < n && items[..n][j].groupId == Some(rows[k].groupId);
        RowsCarryEvidence(items[..n], k, j);
        assert items[j].groupId == items[i].groupId;
      }
    }
  }

  /** Rows come in first-seen order: later items only ever add rows at the end. */
  lemma {:induction false} RowsGrow(items: seq<Item>, n: nat)
    requires n <= |items|
    ensures FirstRows(items[..n]) <= FirstRows(items)
  {
    if n == |items| {
      assert items[..n] == items;
    } else {
      var init := items[..|items| - 1];
      RowsGrow(init, n);
      assert init[..n] == items[..n];
    }
  }

  /** The rows name every group of the items read, each exactly once. */
  lemma RowsNameGroupsOnce(items: seq<Item>)
    requires Consistent(items)
    ensures forall id :: Named(FirstRows(items), id) <==> Listed(items, id)
    ensures forall i, j :: 0 <= i < j < |FirstRows(items)| ==>
              FirstRows(items)[i].groupId != FirstRows(items)[j].groupId
  {
    forall id ensures Named(FirstRows(items), id) <==> Listed(items, id) {
      RowsNameGroup(items, id);
    }
    RowsDiffer(items);
  }
}
