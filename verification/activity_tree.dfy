/**
 * The activity modal's tree (`initActivityForm` and its tree-recursion strategy).
 *
 * The rows of one document's activities arrive ordered by `generated`, newest first.
 * They are folded into a two-level list of records: one group per run of equal
 * `generated` values, labelled with the formatted date, and one leaf per row,
 * labelled with the localised activity type. The tree widget then turns every
 * record into a node: a childless record gets a link carrying its `content_id`,
 * and a record whose label equals the first group's label is expanded.
 */
module ActivityTree {
  import opened Wrappers

  /** One row of the activity query: `type`, `content_id` (as the text the database returns), `generated`. */
  datatype Row = Row(kind: string, contentId: string, generated: int)

  /** A record handed to the tree widget. Groups carry no `content_id`; leaves carry their row's. */
  datatype Record = Record(caption: string, contentId: Option<string>, children: seq<Record>)

  /** The host services the fold calls: the localised date formatter and the plugin's text lookup. */
  datatype Labels = Labels(formatDate: int -> string, txt: string -> string)

  /** The environment given to the tree: the first group's label (`null` when there is none) and the link base. */
  datatype Env = Env(first: Option<string>, url: string)

  /** A tree node as built by the strategy; `children` are filled in by the widget's recursion. */
  datatype Node = Node(caption: string, link: Option<string>, expanded: bool, children: seq<Node>)

  // ---------------------------------------------------------------------------
  // Reference grouping: the runs of equal timestamps
  // ---------------------------------------------------------------------------

  /** One generation batch: a timestamp and the rows generated at it, in query order. */
  datatype Batch = Batch(generated: int, rows: seq<Row>)

  /** Splits `rows` into its maximal runs of equal `generated` values, by recursion on the tail. */
  function Batches(rows: seq<Row>): seq<Batch>
  {
    if |rows| == 0 then []
    else
      var rest := Batches(rows[1..]);
      if |rest| > 0 && rest[0].generated == rows[0].generated
      then [Batch(rows[0].generated, [rows[0]] + rest[0].rows)] + rest[1..]
      else [Batch(rows[0].generated, [rows[0]])] + rest
  }

  function ConcatRows(bs: seq<Batch>): seq<Row>
  {
    if |bs| == 0 then [] else bs[0].rows + ConcatRows(bs[1..])
  }

  /** A batch is non-empty and every row in it has the batch's timestamp. */
  ghost predicate Uniform(b: Batch)
  {
    |b.rows| > 0 && forall j :: 0 <= j < |b.rows| ==> b.rows[j].generated == b.generated
  }

  /** Uniform batches whose neighbours differ: no run could be merged with the next. */
  ghost predicate WellFormed(bs: seq<Batch>)
  {
    && (forall k :: 0 <= k < |bs| ==> Uniform(bs[k]))
    && (forall k :: 0 < k < |bs| ==> bs[k - 1].generated != bs[k].generated)
  }

  ghost predicate SortedDesc(rows: seq<Row>)
  {
    forall i, j :: 0 <= i < j < |rows| ==> rows[i].generated >= rows[j].generated
  }

  ghost predicate StrictlyDecreasing(bs: seq<Batch>)
  {
    forall i, j :: 0 <= i < j < |bs| ==> bs[i].generated > bs[j].generated
  }

  /** The distinct `generated` values of the rows: what `SELECT DISTINCT generated` returns. */
  function Timestamps(rows: seq<Row>): set<int>
  {
    set r | r in rows :: r.generated
  }

  /** Number of runs of equal timestamps, counted pairwise along the rows. */
  function RunCount(rows: seq<Row>): nat
  {
    if |rows| == 0 then 0
    else if |rows| == 1 then 1
    else RunCount(rows[1..]) + (if rows[0].generated != rows[1].generated then 1 else 0)
  }

  lemma ConcatRowsSnoc(bs: seq<Batch>, b: Batch)
    ensures ConcatRows(bs + [b]) == ConcatRows(bs) + b.rows
  {
    if |bs| > 0 {
      assert (bs + [b])[1..] == bs[1..] + [b];
    }
  }

  lemma ConcatRowsCons(b: Batch, bs: seq<Batch>)
    ensures ConcatRows([b] + bs) == b.rows + ConcatRows(bs)
  {
    assert ([b] + bs)[1..] == bs;
  }

  /** Well-formedness of a decomposition, read off its first batch and the rest. */
  lemma WellFormedCons(b: Batch, bs: seq<Batch>)
    ensures WellFormed([b] + bs) <==>
      Uniform(b) && WellFormed(bs) && (|bs| > 0 ==> b.generated != bs[0].generated)
  {
    var all := [b] + bs;
    assert forall k :: 0 < k < |all| ==> all[k] == bs[k - 1];
    if WellFormed(all) {
      assert Uniform(all[0]);
      forall k | 0 <= k < |bs|
        ensures Uniform(bs[k])
      {
        assert Uniform(all[k + 1]);
      }
      forall k | 0 < k < |bs|
        ensures bs[k - 1].generated != bs[k].generated
      {
        assert all[k] == bs[k - 1] && all[k + 1] == bs[k];
      }
      if |bs| > 0 {
        assert all[1] == bs[0];
      }
    }
    if Uniform(b) && WellFormed(bs) && (|bs| > 0 ==> b.generated != bs[0].generated) {
      forall k | 0 < k < |all|
        ensures all[k - 1].generated != all[k].generated
      {
        if k > 1 {
          assert all[k - 1] == bs[k - 2];
        }
      }
    }
  }

  lemma UniformCons(r: Row, b: Batch)
    requires Uniform(b) && r.generated == b.generated
    ensures Uniform(Batch(b.generated, [r] + b.rows))
  {
    var rs := [r] + b.rows;
    assert forall j :: 0 < j < |rs| ==> rs[j] == b.rows[j - 1];
  }

  lemma UniformTail(b: Batch)
    requires Uniform(b) && |b.rows| > 1
    ensures Uniform(Batch(b.generated, b.rows[1..]))
  {
    assert forall j :: 0 <= j < |b.rows| - 1 ==> b.rows[1..][j] == b.rows[j + 1];
  }

  /** The first batch of a non-empty row sequence opens with the first row's timestamp. */
  lemma BatchesHead(rows: seq<Row>)
    ensures |Batches(rows)| > 0 <==> |rows| > 0
    ensures |rows| > 0 ==> Batches(rows)[0].generated == rows[0].generated
  {
  }

  /** Merging a row into the first batch puts it in front of the concatenation. */
  lemma {:induction false} ConcatMergedHead(r: Row, g: int, rest: seq<Batch>)
    requires |rest| > 0
    ensures ConcatRows([Batch(g, [r] + rest[0].rows)] + rest[1..]) == [r] + ConcatRows(rest)
  {
    ConcatRowsCons(Batch(g, [r] + rest[0].rows), rest[1..]);
    assert rest == [rest[0]] + rest[1..];
    ConcatRowsCons(rest[0], rest[1..]);
  }

  /** Opening a new batch with a row puts it in front of the concatenation. */
  lemma {:induction false} ConcatFreshHead(r: Row, g: int, rest: seq<Batch>)
    ensures ConcatRows([Batch(g, [r])] + rest) == [r] + ConcatRows(rest)
  {
    ConcatRowsCons(Batch(g, [r]), rest);
  }

  lemma {:induction false} BatchesConcat(rows: seq<Row>)
    ensures ConcatRows(Batches(rows)) == rows
  {
    if |rows| > 0 {
      var tail := rows[1..];
      BatchesConcat(tail);
      var rest := Batches(tail);
      var g := rows[0].generated;
      if |rest| > 0 && rest[0].generated == g {
        assert Batches(rows) == [Batch(g, [rows[0]] + rest[0].rows)] + rest[1..];
        ConcatMergedHead(rows[0], g, rest);
      } else {
        assert Batches(rows) == [Batch(g, [rows[0]])] + rest;
        ConcatFreshHead(rows[0], g, rest);
      }
      assert rows == [rows[0]] + tail;
    }
  }

  lemma {:induction false} BatchesWellFormed(rows: seq<Row>)
    ensures WellFormed(Batches(rows))
  {
    if |rows| > 0 {
      var tail := rows[1..];
      BatchesWellFormed(tail);
      BatchesHead(tail);
      var rest := Batches(tail);
      var g := rows[0].generated;
      if |rest| > 0 && rest[0].generated == g {
        var b := Batch(g, [rows[0]] + rest[0].rows);
        assert rest == [rest[0]] + rest[1..];
        WellFormedCons(rest[0], rest[1..]);
        UniformCons(rows[0], rest[0]);
        WellFormedCons(b, rest[1..]);
        assert Batches(rows) == [b] + rest[1..];
      } else {
        var b := Batch(g, [rows[0]]);
        assert Uniform(b);
        WellFormedCons(b, rest);
        assert Batches(rows) == [b] + rest;
      }
    }
  }

  /** `Batches` cuts the rows into well-formed runs that concatenate back to the rows. */
  lemma {:induction false} BatchesDecompose(rows: seq<Row>)
    ensures WellFormed(Batches(rows))
    ensures ConcatRows(Batches(rows)) == rows
    ensures |Batches(rows)| > 0 <==> |rows| > 0
    ensures |rows| > 0 ==> Batches(rows)[0].generated == rows[0].generated
  {
    BatchesHead(rows);
    BatchesConcat(rows);
    BatchesWellFormed(rows);
  }

  /** Any decomposition into well-formed runs that concatenates to `rows` is `Batches(rows)`. */
  lemma {:induction false} BatchesUnique(rows: seq<Row>, bs: seq<Batch>)
    requires WellFormed(bs) && ConcatRows(bs) == rows
    ensures bs == Batches(rows)
    decreases |rows|
  {
    if |bs| > 0 {
      var b := bs[0];
      var others := bs[1..];
      assert bs == [b] + others;
      WellFormedCons(b, others);
      ConcatRowsCons(b, others);
      assert rows[0] == b.rows[0];
      var tail := rows[1..];
      if |b.rows| == 1 {
        assert tail == ConcatRows(others);
        BatchesUnique(tail, others);
        assert b == Batch(rows[0].generated, [rows[0]]);
      } else {
        var b' := Batch(b.generated, b.rows[1..]);
        UniformTail(b);
        WellFormedCons(b', others);
        ConcatRowsCons(b', others);
        assert tail == b'.rows + ConcatRows(others);
        BatchesUnique(tail, [b'] + others);
        assert b.rows == [rows[0]] + b'.rows;
      }
    }
  }

  /** The number of batches is the number of runs of equal timestamps. */
  lemma {:induction false} BatchCountIsRunCount(rows: seq<Row>)
    ensures |Batches(rows)| == RunCount(rows)
  {
    if |rows| > 1 {
      BatchCountIsRunCount(rows[1..]);
      BatchesDecompose(rows[1..]);
      assert rows[1..][0] == rows[1];
    } else if |rows| == 1 {
      assert rows[1..] == [];
    }
  }

  lemma TimestampsCons(rows: seq<Row>)
    requires |rows| > 0
    ensures Timestamps(rows) == {rows[0].generated} + Timestamps(rows[1..])
  {
    assert rows == [rows[0]] + rows[1..];
  }

  /** In sorted rows, a timestamp that differs from the next row's does not occur again. */
  lemma HeadTimestampLeavesTail(rows: seq<Row>)
    requires SortedDesc(rows) && |rows| > 1 && rows[0].generated != rows[1].generated
    ensures rows[0].generated !in Timestamps(rows[1..])
  {
    forall r | r in rows[1..]
      ensures r.generated < rows[0].generated
    {
      var j :| 0 <= j < |rows[1..]| && rows[1..][j] == r;
      assert rows[j + 1] == r;
    }
  }

  lemma {:induction false} SortedTail(rows: seq<Row>)
    requires |rows| > 0 && SortedDesc(rows)
    ensures SortedDesc(rows[1..])
  {
    forall i, j | 0 <= i < j < |rows[1..]|
      ensures rows[1..][i].generated >= rows[1..][j].generated
    {
      assert rows[1..][i] == rows[i + 1] && rows[1..][j] == rows[j + 1];
    }
  }

  /** Growing the first batch of a strictly decreasing sequence keeps it strictly decreasing. */
  lemma {:induction false} MergedHeadDecreasing(g: int, rs: seq<Row>, rest: seq<Batch>)
    requires |rest| > 0 && rest[0].generated == g && StrictlyDecreasing(rest)
    ensures StrictlyDecreasing([Batch(g, rs + rest[0].rows)] + rest[1..])
  {
    var bs := [Batch(g, rs + rest[0].rows)] + rest[1..];
    forall i, j | 0 <= i < j < |bs|
      ensures bs[i].generated > bs[j].generated
    {
      assert bs[i].generated == rest[i].generated && bs[j].generated == rest[j].generated;
    }
  }

  /** A batch newer than the first of a strictly decreasing sequence can be put in front. */
  lemma {:induction false} FreshHeadDecreasing(b: Batch, rest: seq<Batch>)
    requires StrictlyDecreasing(rest)
    requires |rest| > 0 ==> b.generated > rest[0].generated
    ensures StrictlyDecreasing([b] + rest)
  {
    var bs := [b] + rest;
    forall i, j | 0 <= i < j < |bs|
      ensures bs[i].generated > bs[j].generated
    {
      assert bs[j] == rest[j - 1];
      if i > 0 {
        assert bs[i] == rest[i - 1];
      } else if j > 1 {
        assert rest[0].generated > rest[j - 1].generated;
      }
    }
  }

  /** On rows sorted newest first, batches appear in strictly decreasing timestamp order. */
  lemma {:induction false} SortedBatchesDecrease(rows: seq<Row>)
    requires SortedDesc(rows)
    ensures StrictlyDecreasing(Batches(rows))
  {
    if |rows| > 0 {
      var tail := rows[1..];
      SortedTail(rows);
      SortedBatchesDecrease(tail);
      BatchesHead(tail);
      var rest := Batches(tail);
      var g := rows[0].generated;
      if |rest| > 0 && rest[0].generated == g {
        assert Batches(rows) == [Batch(g, [rows[0]] + rest[0].rows)] + rest[1..];
        MergedHeadDecreasing(g, [rows[0]], rest);
      } else {
        assert Batches(rows) == [Batch(g, [rows[0]])] + rest;
        if |rest| > 0 {
          assert rest[0].generated == rows[1].generated <= g;
        }
        FreshHeadDecreasing(Batch(g, [rows[0]]), rest);
      }
    }
  }

  /** On rows sorted newest first there is exactly one batch per distinct timestamp. */
  lemma {:induction false} SortedBatchCount(rows: seq<Row>)
    requires SortedDesc(rows)
    ensures |Batches(rows)| == |Timestamps(rows)|
  {
    if |rows| == 1 {
      assert rows[1..] == [];
      TimestampsCons(rows);
    } else if |rows| > 1 {
      var tail := rows[1..];
      assert SortedDesc(tail);
      SortedBatchCount(tail);
      BatchesHead(tail);
      TimestampsCons(rows);
      if rows[1].generated == rows[0].generated {
        assert rows[1] in tail;
        assert Timestamps(rows) == Timestamps(tail);
      } else {
        HeadTimestampLeavesTail(rows);
      }
    }
  }

  /**
   * On rows sorted newest first, batches appear in strictly decreasing timestamp order
   * and there is exactly one batch per distinct timestamp.
   */
  lemma SortedBatchesAreDistinct(rows: seq<Row>)
    requires SortedDesc(rows)
    ensures StrictlyDecreasing(Batches(rows))
    ensures |Batches(rows)| == |Timestamps(rows)|
  {
    SortedBatchesDecrease(rows);
    SortedBatchCount(rows);
  }

  lemma {:induction false} RowInSomeBatch(bs: seq<Batch>, r: Row)
    requires r in ConcatRows(bs)
    ensures exists j :: 0 <= j < |bs| && r in bs[j].rows
  {
    if r !in bs[0].rows {
      RowInSomeBatch(bs[1..], r);
      var j :| 0 <= j < |bs[1..]| && r in bs[1..][j].rows;
      assert bs[j + 1] == bs[1..][j];
    }
  }

  /**
   * On rows sorted newest first, a batch holds every row generated at its timestamp, so
   * each group's leaves are exactly the activities of one generation.
   */
  lemma SortedBatchIsComplete(rows: seq<Row>)
    requires SortedDesc(rows)
    ensures var bs := Batches(rows);
      forall k, r :: 0 <= k < |bs| && r in rows && r.generated == bs[k].generated ==> r in bs[k].rows
  {
    var bs := Batches(rows);
    BatchesDecompose(rows);
    SortedBatchesDecrease(rows);
    forall k, r | 0 <= k < |bs| && r in rows && r.generated == bs[k].generated
      ensures r in bs[k].rows
    {
      RowInSomeBatch(bs, r);
      var j :| 0 <= j < |bs| && r in bs[j].rows;
      assert Uniform(bs[j]);
      var i :| 0 <= i < |bs[j].rows| && bs[j].rows[i] == r;
      assert bs[j].generated == r.generated;
      assert j == k;
    }
  }

  /** The rows generated at `t`, in query order. */
  function RowsAt(rows: seq<Row>, t: int): seq<Row>
  {
    if |rows| == 0 then []
    else (if rows[0].generated == t then [rows[0]] else []) + RowsAt(rows[1..], t)
  }

  lemma {:induction false} RowsAtAppend(a: seq<Row>, b: seq<Row>, t: int)
    ensures RowsAt(a + b, t) == RowsAt(a, t) + RowsAt(b, t)
  {
    if |a| > 0 {
      assert (a + b)[0] == a[0];
      assert (a + b)[1..] == a[1..] + b;
      RowsAtAppend(a[1..], b, t);
    } else {
      assert a + b == b;
    }
  }

  lemma {:induction false} RowsAtUniform(b: Batch, t: int)
    requires Uniform(b)
    ensures RowsAt(b.rows, t) == if b.generated == t then b.rows else []
  {
    RowsAtSame(b.rows, b.generated, t);
  }

  lemma {:induction false} RowsAtSame(rs: seq<Row>, g: int, t: int)
    requires forall j :: 0 <= j < |rs| ==> rs[j].generated == g
    ensures RowsAt(rs, t) == if g == t then rs else []
  {
    if |rs| > 0 {
      RowsAtSame(rs[1..], g, t);
      if g == t {
        assert rs == [rs[0]] + rs[1..];
      }
    }
  }

  /** In strictly decreasing uniform batches, filtering the concatenation by a batch's timestamp gives that batch. */
  lemma {:induction false} RowsAtOfBatch(bs: seq<Batch>, k: nat)
    requires forall j :: 0 <= j < |bs| ==> Uniform(bs[j])
    requires StrictlyDecreasing(bs)
    requires k < |bs|
    ensures RowsAt(ConcatRows(bs), bs[k].generated) == bs[k].rows
  {
    var t := bs[k].generated;
    var tail := bs[1..];
    assert forall j :: 0 <= j < |tail| ==> tail[j] == bs[j + 1];
    assert StrictlyDecreasing(tail) by {
      forall i, j | 0 <= i < j < |tail|
        ensures tail[i].generated > tail[j].generated
      {
        assert tail[i] == bs[i + 1] && tail[j] == bs[j + 1];
      }
    }
    RowsAtAppend(bs[0].rows, ConcatRows(tail), t);
    RowsAtUniform(bs[0], t);
    if k == 0 {
      RowsAtMissing(tail, t);
    } else {
      assert bs[0].generated > t;
      RowsAtOfBatch(tail, k - 1);
      assert tail[k - 1] == bs[k];
    }
  }

  lemma {:induction false} RowsAtMissing(bs: seq<Batch>, t: int)
    requires forall j :: 0 <= j < |bs| ==> Uniform(bs[j]) && bs[j].generated < t
    ensures RowsAt(ConcatRows(bs), t) == []
  {
    if |bs| > 0 {
      RowsAtAppend(bs[0].rows, ConcatRows(bs[1..]), t);
      RowsAtUniform(bs[0], t);
      assert forall j :: 0 <= j < |bs[1..]| ==> bs[1..][j] == bs[j + 1];
      RowsAtMissing(bs[1..], t);
    }
  }

  /**
   * On rows sorted newest first, each batch is exactly the rows generated at its
   * timestamp, in query order; in particular each group has as many children as there
   * are activities of that generation.
   */
  lemma SortedBatchIsItsGeneration(rows: seq<Row>)
    requires SortedDesc(rows)
    ensures var bs := Batches(rows);
      forall k :: 0 <= k < |bs| ==>
        bs[k].rows == RowsAt(rows, bs[k].generated) && |bs[k].rows| == |RowsAt(rows, bs[k].generated)|
  {
    var bs := Batches(rows);
    BatchesDecompose(rows);
    SortedBatchesDecrease(rows);
    forall k | 0 <= k < |bs|
      ensures bs[k].rows == RowsAt(rows, bs[k].generated)
    {
      RowsAtOfBatch(bs, k);
    }
  }

  // ---------------------------------------------------------------------------
  // The records handed to the tree widget
  // ---------------------------------------------------------------------------

  /** The leaf for one row: its localised type label, its `content_id`, no children. */
  function LeafRecord(row: Row, labels: Labels): Record
  {
    Record(labels.txt("activities_" + row.kind), Some(row.contentId), [])
  }

  function Leaves(rows: seq<Row>, labels: Labels): (ls: seq<Record>)
    ensures |ls| == |rows|
  {
    seq(|rows|, k requires 0 <= k < |rows| => LeafRecord(rows[k], labels))
  }

  /** The group for one batch: the formatted date, no `content_id`, one leaf per row. */
  function GroupRecord(b: Batch, labels: Labels): Record
  {
    Record(labels.formatDate(b.generated), None, Leaves(b.rows, labels))
  }

  function GroupRecords(bs: seq<Batch>, labels: Labels): (gs: seq<Record>)
    ensures |gs| == |bs|
  {
    seq(|bs|, k requires 0 <= k < |bs| => GroupRecord(bs[k], labels))
  }

  /** The children of all records, concatenated in order. */
  function Flatten(recs: seq<Record>): seq<Record>
  {
    if |recs| == 0 then [] else recs[0].children + Flatten(recs[1..])
  }

  lemma LeavesAppend(a: seq<Row>, b: seq<Row>, labels: Labels)
    ensures Leaves(a + b, labels) == Leaves(a, labels) + Leaves(b, labels)
  {
  }

  lemma {:induction false} FlattenGroupRecords(bs: seq<Batch>, labels: Labels)
    ensures Flatten(GroupRecords(bs, labels)) == Leaves(ConcatRows(bs), labels)
  {
    if |bs| > 0 {
      var gs := GroupRecords(bs, labels);
      assert gs[1..] == GroupRecords(bs[1..], labels);
      FlattenGroupRecords(bs[1..], labels);
      LeavesAppend(bs[0].rows, ConcatRows(bs[1..]), labels);
    }
  }

  /** Opening a group for `row` and adding its leaf builds the records of one more batch. */
  lemma OpenBatchRecords(bs: seq<Batch>, data: seq<Record>, row: Row, labels: Labels)
    requires data == GroupRecords(bs, labels)
    ensures var grown := data + [Record(labels.formatDate(row.generated), None, [])];
      var j := |grown| - 1;
      grown[j := grown[j].(children := grown[j].children + [LeafRecord(row, labels)])]
        == GroupRecords(bs + [Batch(row.generated, [row])], labels)
  {
    var b := Batch(row.generated, [row]);
    var grown := data + [Record(labels.formatDate(row.generated), None, [])];
    var j := |grown| - 1;
    var built := grown[j := grown[j].(children := grown[j].children + [LeafRecord(row, labels)])];
    var gs := GroupRecords(bs + [b], labels);
    assert Leaves(b.rows, labels) == [LeafRecord(row, labels)];
    assert gs[j] == built[j];
    assert forall k :: 0 <= k < j ==> gs[k] == built[k];
  }

  /** A batch with a new timestamp keeps the decomposition well formed. */
  lemma OpenBatchWellFormed(bs: seq<Batch>, row: Row)
    requires WellFormed(bs)
    requires |bs| > 0 ==> bs[|bs| - 1].generated != row.generated
    ensures WellFormed(bs + [Batch(row.generated, [row])])
  {
    var b := Batch(row.generated, [row]);
    var all := bs + [b];
    assert Uniform(b);
    forall k | 0 <= k < |all|
      ensures Uniform(all[k])
    {
      if k < |bs| {
        assert all[k] == bs[k];
      }
    }
    forall k | 0 < k < |all|
      ensures all[k - 1].generated != all[k].generated
    {
      assert all[k - 1] == bs[k - 1];
      if k < |bs| {
        assert all[k] == bs[k];
      }
    }
  }

  /** Adding the leaf of `row` to the open group builds the records of the extended last batch. */
  lemma ExtendBatchStep(bs: seq<Batch>, data: seq<Record>, row: Row, labels: Labels)
    requires WellFormed(bs) && data == GroupRecords(bs, labels)
    requires |bs| > 0 && bs[|bs| - 1].generated == row.generated
    ensures var n := |bs| - 1;
      var bs' := bs[..n] + [Batch(row.generated, bs[n].rows + [row])];
      && data[n := data[n].(children := data[n].children + [LeafRecord(row, labels)])] == GroupRecords(bs', labels)
      && WellFormed(bs')
      && ConcatRows(bs') == ConcatRows(bs) + [row]
  {
    var n := |bs| - 1;
    var b := Batch(row.generated, bs[n].rows + [row]);
    var bs' := bs[..n] + [b];
    assert bs == bs[..n] + [bs[n]];
    ConcatRowsSnoc(bs[..n], bs[n]);
    ConcatRowsSnoc(bs[..n], b);
    assert Uniform(bs[n]);
    assert Uniform(b);
    assert forall k :: 0 <= k < n ==> bs'[k] == bs[k];
    assert Leaves(b.rows, labels) == Leaves(bs[n].rows, labels) + [LeafRecord(row, labels)];
  }

  /**
   * The grouping loop of `initActivityForm`: a new group opens whenever a row's
   * timestamp differs from the previous row's (the first row always opens one), and
   * every row becomes a leaf of the group that is open when it is read.
   */
  method InitActivityData(rows: seq<Row>, labels: Labels) returns (data: seq<Record>)
    ensures data == GroupRecords(Batches(rows), labels)
    ensures Flatten(data) == Leaves(rows, labels)
    ensures |data| > 0 <==> |rows| > 0
    ensures forall k :: 0 <= k < |data| ==> data[k].contentId.None? && |data[k].children| > 0
  {
    data := [];
    var last: Option<int> := None;
    ghost var bs: seq<Batch> := [];
    var i := 0;
    while i < |rows|
      invariant 0 <= i <= |rows|
      invariant WellFormed(bs) && ConcatRows(bs) == rows[..i]
      invariant data == GroupRecords(bs, labels)
      invariant i == 0 ==> bs == [] && last == None
      invariant i > 0 ==> |bs| > 0 && last == Some(bs[|bs| - 1].generated)
    {
      var row := rows[i];
      assert rows[..i + 1] == rows[..i] + [row];
      if last != Some(row.generated) {
        OpenBatchRecords(bs, data, row, labels);
        OpenBatchWellFormed(bs, row);
        ConcatRowsSnoc(bs, Batch(row.generated, [row]));
        last := Some(row.generated);
        data := data + [Record(labels.formatDate(row.generated), None, [])];
        bs := bs + [Batch(row.generated, [row])];
      } else {
        ExtendBatchStep(bs, data, row, labels);
        bs := bs[..|bs| - 1] + [Batch(row.generated, bs[|bs| - 1].rows + [row])];
      }
      var j := |data| - 1;
      data := data[j := data[j].(children := data[j].children + [LeafRecord(row, labels)])];
      i := i + 1;
    }
    assert rows[..i] == rows;
    BatchesUnique(rows, bs);
    FlattenGroupRecords(bs, labels);
  }

  // ---------------------------------------------------------------------------
  // The tree-recursion strategy and the widget's recursion over it
  // ---------------------------------------------------------------------------

  /** `$data[0]["label"]`: the first group's label, or `null` when there are no groups. */
  function FirstLabel(data: seq<Record>): (first: Option<string>)
    ensures first.Some? <==> |data| > 0
    ensures |data| > 0 ==> first.value == data[0].caption
  {
    if |data| == 0 then None else Some(data[0].caption)
  }

  /** The environment built for the tree: the first label and the link base with the document id. */
  function TreeEnvironment(data: seq<Record>, httpPath: string, targetUrl: string, documentId: string): (env: Env)
    ensures env.first.Some? <==> |data| > 0
    ensures |data| > 0 ==> env.first.value == data[0].caption
    ensures env.url == httpPath + "/" + targetUrl + "&document_id=" + documentId
  {
    Env(FirstLabel(data), httpPath + "/" + targetUrl + "&document_id=" + documentId)
  }

  /** PHP string concatenation of a possibly `null` content id: `null` contributes nothing. */
  function ContentIdText(c: Option<string>): string
  {
    match c
    case Some(s) => s
    case None => ""
  }

  /** `getChildren`: the record's own children. */
  function GetChildren(rec: Record): seq<Record>
  {
    rec.children
  }

  /**
   * `build`: a simple node with the record's label, a link to the selection target when
   * the record has no children, and expanded when its label is the first group's label.
   */
  function Build(rec: Record, env: Env): (n: Node)
    ensures n.caption == rec.caption && n.children == []
    ensures n.link.Some? <==> |rec.children| == 0
    ensures n.link.Some? ==> n.link.value == env.url + "&content_id=" + ContentIdText(rec.contentId)
    ensures n.expanded <==> env.first == Some(rec.caption)
  {
    var link := if |rec.children| == 0 then Some(env.url + "&content_id=" + ContentIdText(rec.contentId)) else None;
    Node(rec.caption, link, env.first == Some(rec.caption), [])
  }

  /** The widget's recursion: build a record, then its children as given by `GetChildren`. */
  function Render(rec: Record, env: Env): Node
    decreases rec
  {
    Build(rec, env).(children := RenderAll(GetChildren(rec), env))
  }

  function RenderAll(recs: seq<Record>, env: Env): (ns: seq<Node>)
    decreases recs
    ensures |ns| == |recs|
  {
    seq(|recs|, k requires 0 <= k < |recs| => Render(recs[k], env))
  }

  /** The children of all nodes, concatenated in order. */
  function LeafNodes(nodes: seq<Node>): seq<Node>
  {
    if |nodes| == 0 then [] else nodes[0].children + LeafNodes(nodes[1..])
  }

  lemma {:induction false} LeafNodesOfRenderAll(recs: seq<Record>, env: Env)
    ensures LeafNodes(RenderAll(recs, env)) == RenderAll(Flatten(recs), env)
  {
    if |recs| > 0 {
      assert RenderAll(recs, env)[1..] == RenderAll(recs[1..], env);
      LeafNodesOfRenderAll(recs[1..], env);
      var a := recs[0].children;
      var b := Flatten(recs[1..]);
      assert RenderAll(a + b, env) == RenderAll(a, env) + RenderAll(b, env);
    }
  }

  /** The whole modal tree for a document's rows, as `initActivityForm` configures it. */
  function ModalTree(rows: seq<Row>, labels: Labels, httpPath: string, targetUrl: string, documentId: string): seq<Node>
  {
    var data := GroupRecords(Batches(rows), labels);
    RenderAll(data, TreeEnvironment(data, httpPath, targetUrl, documentId))
  }

  /**
   * The environment's first label is the formatted date of the first row, which opens the
   * first batch, and `null` when the document has no activities.
   */
  lemma {:induction false} FirstLabelIsFirstRowDate(rows: seq<Row>, labels: Labels, httpPath: string,
                                                    targetUrl: string, documentId: string)
    ensures var env := TreeEnvironment(GroupRecords(Batches(rows), labels), httpPath, targetUrl, documentId);
      && (|rows| == 0 ==> env.first.None?)
      && (|rows| > 0 ==> env.first == Some(labels.formatDate(rows[0].generated)))
  {
    BatchesDecompose(rows);
  }

  /**
   * The modal tree has one unlinked group per batch and, reading the groups' children in
   * order, exactly one linked leaf per row, carrying that row's type label and
   * `content_id` in a link to the selection target of the document.
   */
  lemma ModalTreeShape(rows: seq<Row>, labels: Labels, httpPath: string, targetUrl: string, documentId: string)
    ensures var tree := ModalTree(rows, labels, httpPath, targetUrl, documentId);
      && |tree| == |Batches(rows)|
      && (forall k :: 0 <= k < |tree| ==> tree[k].link.None? && |tree[k].children| > 0)
      && |LeafNodes(tree)| == |rows|
      && (forall k :: 0 <= k < |rows| ==>
            var leaf := LeafNodes(tree)[k];
            && leaf.caption == labels.txt("activities_" + rows[k].kind)
            && leaf.link == Some(httpPath + "/" + targetUrl + "&document_id=" + documentId
                                 + "&content_id=" + rows[k].contentId)
            && leaf.children == [])
  {
    var data := GroupRecords(Batches(rows), labels);
    var env := TreeEnvironment(data, httpPath, targetUrl, documentId);
    BatchesDecompose(rows);
    FlattenGroupRecords(Batches(rows), labels);
    LeafNodesOfRenderAll(data, env);
    assert forall k :: 0 <= k < |data| ==> |data[k].children| > 0 by {
      forall k | 0 <= k < |data|
        ensures |data[k].children| > 0
      {
        assert Uniform(Batches(rows)[k]);
      }
    }
  }

  /** A row of any batch is a row of the concatenation. */
  lemma {:induction false} BatchRowInConcat(bs: seq<Batch>, k: nat, j: nat)
    requires k < |bs| && j < |bs[k].rows|
    ensures bs[k].rows[j] in ConcatRows(bs)
  {
    if k > 0 {
      BatchRowInConcat(bs[1..], k - 1, j);
      assert bs[1..][k - 1] == bs[k];
    }
  }

  /**
   * When timestamps are sorted newest first, no older row's date formats like the newest
   * row's date, and no type label of the document reads like that date, the newest group
   * is the only expanded node.
   */
  lemma OnlyNewestBatchExpanded(rows: seq<Row>, labels: Labels, httpPath: string, targetUrl: string, documentId: string)
    requires SortedDesc(rows)
    requires forall i :: 0 <= i < |rows| && rows[i].generated != rows[0].generated ==>
      labels.formatDate(rows[i].generated) != labels.formatDate(rows[0].generated)
    requires forall i :: 0 <= i < |rows| ==>
      labels.txt("activities_" + rows[i].kind) != labels.formatDate(rows[0].generated)
    ensures var tree := ModalTree(rows, labels, httpPath, targetUrl, documentId);
      && (forall k :: 0 <= k < |tree| ==> (tree[k].expanded <==> k == 0))
      && (forall k, j :: 0 <= k < |tree| && 0 <= j < |tree[k].children| ==> !tree[k].children[j].expanded)
  {
    var bs := Batches(rows);
    SortedBatchesAreDistinct(rows);
    BatchesDecompose(rows);
    var data := GroupRecords(bs, labels);
    var env := TreeEnvironment(data, httpPath, targetUrl, documentId);
    var tree := ModalTree(rows, labels, httpPath, targetUrl, documentId);
    assert tree == RenderAll(data, env);
    forall k | 0 <= k < |tree|
      ensures tree[k].expanded <==> k == 0
      ensures forall j :: 0 <= j < |tree[k].children| ==> !tree[k].children[j].expanded
    {
      assert tree[k] == Render(data[k], env);
      assert env.first == Some(labels.formatDate(bs[0].generated));
      assert bs[0].generated == rows[0].generated;
      if k > 0 {
        assert bs[0].generated > bs[k].generated;
        assert Uniform(bs[k]);
        BatchRowInConcat(bs, k, 0);
        assert bs[k].rows[0].generated == bs[k].generated;
      }
      forall j | 0 <= j < |tree[k].children|
        ensures !tree[k].children[j].expanded
      {
        assert tree[k].children == RenderAll(GetChildren(data[k]), env);
        assert tree[k].children[j] == Render(data[k].children[j], env);
        assert data[k].children[j].caption == labels.txt("activities_" + bs[k].rows[j].kind);
        BatchRowInConcat(bs, k, j);
      }
    }
  }

  /**
   * Expansion compares labels, not positions: two batches whose dates format alike (say,
   * a formatter with minute resolution) are both expanded.
   */
  lemma LaterBatchExpandedWhenDatesCollide()
    ensures var rows := [Row("tf", "1", 120), Row("mcq", "2", 60)];
      var labels := Labels(t => "same minute", key => key);
      var tree := ModalTree(rows, labels, "http://host", "goto.php?x=1", "doc");
      |tree| == 2 && tree[0].expanded && tree[1].expanded
  {
    var rows := [Row("tf", "1", 120), Row("mcq", "2", 60)];
    assert rows[1..] == [Row("mcq", "2", 60)];
    assert rows[1..][1..] == [];
  }
}
