// count_queued_submissions: the per-queue counts, and sending them in batches
// of ten.  The batches come from zip_longest over ten references to one and
// the same iterator.
module QueueMetrics {
  import opened Collections
  import opened Submissions

  const BATCH := 10

  // --------------------------------------------------------------------- the counts

  datatype QueueCount = QueueCount(queue: string, count: nat)

  function Unretired(rows: Table): set<Id> {
    set id | id in rows && !rows[id].retired
  }

  function UnretiredIn(rows: Table, queue: string): set<Id> {
    set id | id in rows && !rows[id].retired && rows[id].queue == queue
  }

  predicate HasQueue(counts: seq<QueueCount>, queue: string) {
    exists i :: 0 <= i < |counts| && counts[i].queue == queue
  }

  /** Each queue is counted once, correctly. */
  predicate CountsQueues(rows: Table, counts: seq<QueueCount>) {
    && (forall i, j | 0 <= i < j < |counts| :: counts[i].queue != counts[j].queue)
    && (forall i | 0 <= i < |counts| :: counts[i].count == |UnretiredIn(rows, counts[i].queue)|)
  }

  /** The result of the grouping query: each queue with unretired rows once, with their number. */
  predicate IsGrouping(rows: Table, counts: seq<QueueCount>) {
    CountsQueues(rows, counts) && forall id | id in rows && !rows[id].retired :: HasQueue(counts, rows[id].queue)
  }

  function Total(counts: seq<QueueCount>): nat {
    if counts == [] then 0 else Total(counts[..|counts| - 1]) + counts[|counts| - 1].count
  }

  function UnretiredInAny(rows: Table, counts: seq<QueueCount>): set<Id> {
    set id | id in rows && !rows[id].retired && HasQueue(counts, rows[id].queue)
  }

  lemma HasQueueSplit(counts: seq<QueueCount>, queue: string)
    requires counts != []
    ensures HasQueue(counts, queue)
            <==> HasQueue(counts[..|counts| - 1], queue) || counts[|counts| - 1].queue == queue
  {
    var rest := counts[..|counts| - 1];
    if HasQueue(rest, queue) {
      var i :| 0 <= i < |rest| && rest[i].queue == queue;
      assert counts[i].queue == queue;
    }
    if HasQueue(counts, queue) && counts[|counts| - 1].queue != queue {
      var i :| 0 <= i < |counts| && counts[i].queue == queue;
      assert rest[i].queue == queue;
    }
  }

  lemma SplitLastQueue(rows: Table, counts: seq<QueueCount>)
    requires counts != [] && CountsQueues(rows, counts)
    ensures var rest, last := counts[..|counts| - 1], counts[|counts| - 1];
            CountsQueues(rows, rest)
            && UnretiredInAny(rows, rest) <= UnretiredInAny(rows, counts)
            && UnretiredIn(rows, last.queue) == UnretiredInAny(rows, counts) - UnretiredInAny(rows, rest)
  {
    var rest, last := counts[..|counts| - 1], counts[|counts| - 1];
    forall id | id in rows
      ensures HasQueue(counts, rows[id].queue) <==> HasQueue(rest, rows[id].queue) || last.queue == rows[id].queue
    {
      HasQueueSplit(counts, rows[id].queue);
    }
    assert !HasQueue(rest, last.queue);
  }

  lemma {:induction false} TotalOfGroups(rows: Table, counts: seq<QueueCount>)
    requires CountsQueues(rows, counts)
    ensures Total(counts) == |UnretiredInAny(rows, counts)|
  {
    if counts == [] {
      assert UnretiredInAny(rows, counts) == {};
    } else {
      SplitLastQueue(rows, counts);
      var rest, last := counts[..|counts| - 1], counts[|counts| - 1];
      TotalOfGroups(rows, rest);
      Partition(UnretiredInAny(rows, rest), UnretiredInAny(rows, counts), UnretiredIn(rows, last.queue));
    }
  }

  /** The metrics add up to the number of unretired submissions. */
  lemma MetricsAddUp(rows: Table, counts: seq<QueueCount>)
    requires IsGrouping(rows, counts)
    ensures Total(counts) == |Unretired(rows)|
  {
    TotalOfGroups(rows, counts);
    assert UnretiredInAny(rows, counts) == Unretired(rows);
  }

  // ---------------------------------------------------------------------- the chunks

  function Flatten<T>(chunks: seq<seq<T>>): seq<T> {
    if chunks == [] then [] else Flatten(chunks[..|chunks| - 1]) + chunks[|chunks| - 1]
  }

  /** An iterator over a list. */
  class SharedIterator<T> {
    const items: seq<T>
    var pos: nat

    constructor (items: seq<T>)
      ensures this.items == items && pos == 0
    {
      this.items := items;
      pos := 0;
    }

    ghost predicate Valid()
      reads this
    {
      pos <= |items|
    }

    /** next(): None is StopIteration. */
    method Next() returns (item: Option<T>)
      requires Valid()
      modifies this`pos
      ensures Valid()
      ensures old(pos) == |items| ==> item == None && pos == old(pos)
      ensures old(pos) < |items| ==> item == Some(items[old(pos)]) && pos == old(pos) + 1
    {
      if pos < |items| {
        item := Some(items[pos]);
        pos := pos + 1;
      } else {
        item := None;
      }
    }
  }

  /** The entries of a row that are not fill values. */
  function Present<T>(row: seq<Option<T>>): seq<T> {
    if row == [] then []
    else Present(row[..|row| - 1]) + (if row[|row| - 1].Some? then [row[|row| - 1].value] else [])
  }

  function CountTrue(flags: seq<bool>): nat {
    if flags == [] then 0 else CountTrue(flags[..|flags| - 1]) + (if flags[|flags| - 1] then 1 else 0)
  }

  lemma {:induction false} CountTrueUpdate(flags: seq<bool>, i: nat)
    requires i < |flags| && flags[i]
    ensures CountTrue(flags[i := false]) == CountTrue(flags) - 1
  {
    var last := |flags| - 1;
    if i == last {
      assert flags[i := false][..last] == flags[..last];
    } else {
      assert flags[i := false][..last] == flags[..last][i := false];
      CountTrueUpdate(flags[..last], i);
    }
  }

  lemma {:induction false} CountTrueFrom(flags: seq<bool>, i: nat)
    requires i < |flags| && flags[i]
    ensures CountTrue(flags) > 0
  {
    var last := |flags| - 1;
    if i < last { CountTrueFrom(flags[..last], i); }
  }

  lemma {:induction false} CountTrueAll(flags: seq<bool>)
    ensures (forall i | 0 <= i < |flags| :: flags[i]) ==> CountTrue(flags) == |flags|
    ensures CountTrue(flags) == 0 <==> forall i | 0 <= i < |flags| :: !flags[i]
  {
    if flags != [] { CountTrueAll(flags[..|flags| - 1]); }
  }

  /** zip_longest over n references to one iterator: a position whose turn finds the iterator exhausted
      yields fill values from then on, and the zip ends when no position is active. */
  class Grouper<T> {
    const source: SharedIterator<T>
    const n: nat
    var active: seq<bool>
    var numActive: nat

    constructor (source: SharedIterator<T>, n: nat)
      requires source.Valid() && n > 0
      ensures this.source == source && this.n == n && Valid() && !Finished()
    {
      this.source := source;
      this.n := n;
      active := seq(n, _ => true);
      numActive := n;
      new;
      CountTrueAll(active);
    }

    ghost predicate Valid()
      reads this, source
    {
      source.Valid() && |active| == n && numActive == CountTrue(active)
      && (source.pos < |source.items| ==> forall i | 0 <= i < n :: active[i])
    }

    ghost predicate Finished()
      reads this
    {
      numActive == 0
    }

    /** One row: up to n items in order, then fill values; None at the end. */
    method NextRow() returns (row: Option<seq<Option<T>>>)
      requires Valid() && n > 0 && !Finished()
      modifies this`active, this`numActive, source
      ensures Valid()
      ensures old(source.pos) == |source.items| ==> row == None && source.pos == old(source.pos)
      ensures old(source.pos) < |source.items| ==>
                && row.Some? && |row.value| == n && !Finished()
                && source.pos == (if old(source.pos) + n <= |source.items| then old(source.pos) + n else |source.items|)
                && Present(row.value) == source.items[old(source.pos)..source.pos]
    {
      ghost var start := source.pos;
      var values: seq<Option<T>> := [];
      for i := 0 to n
        invariant source.Valid() && |active| == n && numActive == CountTrue(active) && numActive > 0
        invariant |values| == i && start <= source.pos
        invariant source.pos == if start + i <= |source.items| then start + i else |source.items|
        invariant Present(values) == source.items[start..source.pos]
        invariant source.pos < |source.items| ==> forall k | 0 <= k < n :: active[k]
        invariant start < |source.items| ==> (i > 0 ==> active[0]) && forall k | i <= k < n :: active[k]
        invariant start == |source.items| ==> forall k | 0 <= k < i :: !active[k]
      {
        ghost var was := values;
        if active[i] {
          var item := source.Next();
          if item.None? {
            CountTrueUpdate(active, i);
            numActive := numActive - 1;
            active := active[i := false];
            if numActive == 0 {
              CountTrueAll(active);
              return None;
            }
          }
          values := values + [item];
        } else {
          values := values + [None];
        }
        assert values[..i] == was;
        if i > 0 && start < |source.items| { CountTrueFrom(active, 0); }
      }
      CountTrueAll(active);
      row := Some(values);
    }
  }

  /** The loop of send_cloudwatch_metrics: the batches it sends. */
  method SendMetrics(counts: seq<QueueCount>) returns (batches: seq<seq<QueueCount>>)
    ensures Flatten(batches) == counts
    ensures forall batch | batch in batches :: 0 < |batch| <= 10
    ensures |batches| == (|counts| + 9) / 10
  {
    batches := [];
    var source := new SharedIterator(counts);
    var grouper := new Grouper(source, BATCH);
    var more := true;
    while more
      invariant fresh(source) && fresh(grouper)
      invariant grouper.source == source && grouper.n == BATCH && source.items == counts
      invariant grouper.Valid() && (more ==> !grouper.Finished())
      invariant Flatten(batches) == counts[..source.pos]
      invariant forall batch | batch in batches :: 0 < |batch| <= BATCH
      invariant source.pos == if |batches| * BATCH <= |counts| then |batches| * BATCH else |counts|
      invariant |batches| > 0 ==> (|batches| - 1) * BATCH < |counts|
      invariant !more ==> source.pos == |counts|
      decreases |counts| - source.pos, more
    {
      ghost var start := source.pos;
      var row := grouper.NextRow();
      if row.None? {
        more := false;
      } else {
        var queues := Present(row.value);
        if |queues| > 0 {
          batches := batches + [queues];
          assert batches[..|batches| - 1] + [queues] == batches;
          assert counts[..start] + counts[start..source.pos] == counts[..source.pos];
        }
      }
    }
    assert counts[..|counts|] == counts;
  }
}
