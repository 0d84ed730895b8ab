// Leases and lease keys over whole runs: how far apart the pulls of a row are,
// and which keys put_result accepts.
module Leases {
  import opened Collections
  import opened Timestamps
  import opened Submissions
  import opened Lifecycle

  // The pulls of a row in a run, as history.

  predicate PullsRow(st: Step, id: Id) {
    st.Pull? && st.choice == Some(id)
  }

  function Pulls(r: Run, id: Id): nat {
    match r
    case Start => 0
    case Then(before, st) => Pulls(before, id) + (if PullsRow(st, id) then 1 else 0)
  }

  function FirstPull(r: Run, id: Id): Option<Time> {
    match r
    case Start => None
    case Then(before, st) =>
      if PullsRow(st, id) && FirstPull(before, id).None? then Some(st.at) else FirstPull(before, id)
  }

  function LastPull(r: Run, id: Id): Option<Time> {
    match r
    case Start => None
    case Then(before, st) => if PullsRow(st, id) then Some(st.at) else LastPull(before, id)
  }

  /** The pulls of a run, as (row, time) pairs; each issued a key. */
  function Issued(r: Run): set<(Id, Time)> {
    match r
    case Start => {}
    case Then(before, st) =>
      Issued(before) + (if st.Pull? && st.choice.Some? then {(st.choice.value, st.at)} else {})
  }

  /** No two different seeds among those of the run's pulls have the same hash. */
  ghost predicate CollisionFree(cfg: Config, issued: set<(Id, Time)>) {
    forall e, f | e in issued && f in issued && cfg.hash(Seed(e.1, e.0)) == cfg.hash(Seed(f.1, f.0)) ::
      Seed(e.1, e.0) == Seed(f.1, f.0)
  }

  /** Only a pull of the row writes its pull time and key. */
  lemma PullColumns(cfg: Config, st: Step, id: Id, row: Row)
    ensures var row' := RowAfter(cfg, st, id, row);
            if PullsRow(st, id) then row'.pullTime == Some(st.at) && row'.pullkey == cfg.hash(Seed(st.at, id))
            else row'.pullTime == row.pullTime && row'.pullkey == row.pullkey
  {
  }

  /** The table remembers the last pull of each row, and holds the key that pull issued. */
  lemma {:induction false} TableHoldsLastPull(cfg: Config, r: Run, id: Id)
    requires Legal(cfg, INIT, r)
    ensures var s := After(cfg, INIT, r);
            && (id >= s.nextId ==> id !in s.rows && LastPull(r, id).None?)
            && (id in s.rows ==>
                  s.rows[id].pullTime == LastPull(r, id)
                  && s.rows[id].pullkey ==
                     (if LastPull(r, id).Some? then cfg.hash(Seed(LastPull(r, id).value, id)) else ""))
  {
    if r.Then? {
      TableHoldsLastPull(cfg, r.before, id);
      var s := After(cfg, INIT, r.before);
      if id in s.rows { PullColumns(cfg, r.step, id, s.rows[id]); }
    }
  }

  /** The time that k pulls of a row take at least. */
  ghost function Spacing(k: nat, delay: nat): nat {
    if k <= 1 then 0 else Spacing(k - 1, delay) + delay
  }

  lemma {:induction false} SpacingIsProduct(k: nat, delay: nat)
    ensures k > 0 ==> Spacing(k, delay) == (k - 1) * delay
  {
    if k > 1 {
      SpacingIsProduct(k - 1, delay);
      assert (k - 2) * delay + delay == (k - 1) * delay;
    }
  }

  lemma {:induction false} PullsAreSpaced(cfg: Config, r: Run, id: Id)
    requires Legal(cfg, INIT, r)
    ensures Pulls(r, id) == 0 <==> LastPull(r, id).None?
    ensures FirstPull(r, id).Some? <==> LastPull(r, id).Some?
    ensures LastPull(r, id).Some? ==>
              LastPull(r, id).value >= FirstPull(r, id).value + Spacing(Pulls(r, id), cfg.delay)
  {
    if r.Then? {
      PullsAreSpaced(cfg, r.before, id);
      if PullsRow(r.step, id) && LastPull(r.before, id).Some? { NextPullIsLater(cfg, r, id); }
    }
  }

  lemma NextPullIsLater(cfg: Config, r: Run, id: Id)
    requires Legal(cfg, INIT, r) && r.Then? && PullsRow(r.step, id) && LastPull(r.before, id).Some?
    ensures r.step.at >= LastPull(r.before, id).value + cfg.delay
  {
    TableHoldsLastPull(cfg, r.before, id);
  }

  /** The k-th pull of a row comes at least (k - 1) * delay after its first, in every run. */
  lemma LeaseSpacing(cfg: Config, r: Run, id: Id)
    requires Legal(cfg, INIT, r)
    ensures Pulls(r, id) == 0 <==> LastPull(r, id).None?
    ensures Pulls(r, id) > 0 ==>
              FirstPull(r, id).Some? && LastPull(r, id).Some?
              && LastPull(r, id).value >= FirstPull(r, id).value + (Pulls(r, id) - 1) * cfg.delay
  {
    PullsAreSpaced(cfg, r, id);
    SpacingIsProduct(Pulls(r, id), cfg.delay);
  }

  lemma {:induction false} LastPullIsIssued(r: Run, id: Id)
    ensures LastPull(r, id).Some? ==> (id, LastPull(r, id).value) in Issued(r)
  {
    if r.Then? { LastPullIsIssued(r.before, id); }
  }

  /** Every pull of a row was made no later than its last one, a whole delay earlier if it is another pull. */
  lemma {:induction false} EarlierPulls(cfg: Config, r: Run, e: (Id, Time))
    requires Legal(cfg, INIT, r)
    requires e in Issued(r)
    ensures LastPull(r, e.0).Some?
    ensures e.1 == LastPull(r, e.0).value || e.1 + cfg.delay <= LastPull(r, e.0).value
  {
    if e in Issued(r.before) { EarlierPulls(cfg, r.before, e); }
    TableHoldsLastPull(cfg, r.before, e.0);
  }

  function PairsOf(issued: set<(Id, Time)>, id: Id): set<(Id, Time)> {
    set e | e in issued && e.0 == id
  }

  lemma NextPairIsNew(cfg: Config, r: Run, id: Id)
    requires Legal(cfg, INIT, r) && cfg.delay > 0 && r.Then? && PullsRow(r.step, id)
    ensures (id, r.step.at) !in Issued(r.before)
  {
    var pair := (id, r.step.at);
    if pair in Issued(r.before) {
      EarlierPulls(cfg, r.before, pair);
      NextPullIsLater(cfg, r, id);
    }
  }

  /** With a positive delay the pairs tell the pulls apart: each row has as many pairs as pulls. */
  lemma {:induction false} PullsAreDistinctPairs(cfg: Config, r: Run, id: Id)
    requires Legal(cfg, INIT, r) && cfg.delay > 0
    ensures |PairsOf(Issued(r), id)| == Pulls(r, id)
  {
    if r.Then? {
      PullsAreDistinctPairs(cfg, r.before, id);
      PairsGrow(r, id);
      if PullsRow(r.step, id) { NextPairIsNew(cfg, r, id); }
    }
  }

  lemma PairsGrow(r: Run, id: Id)
    requires r.Then?
    ensures PairsOf(Issued(r), id)
            == PairsOf(Issued(r.before), id) + (if PullsRow(r.step, id) then {(id, r.step.at)} else {})
  {
  }

  /** Fencing: of all the keys issued in a run, put_result on a row accepts exactly the one issued by
      that row's latest pull. */
  lemma Fencing(cfg: Config, r: Run, id: Id, e: (Id, Time))
    requires ValidConfig(cfg) && Legal(cfg, INIT, r)
    requires id in After(cfg, INIT, r).rows
    requires e in Issued(r) && CollisionFree(cfg, Issued(r))
    ensures Accepts(After(cfg, INIT, r).rows[id], cfg.hash(Seed(e.1, e.0)))
            <==> e.0 == id && LastPull(r, id) == Some(e.1)
  {
    TableHoldsLastPull(cfg, r, id);
    LastPullIsIssued(r, id);
    if LastPull(r, id).Some? {
      var last := (id, LastPull(r, id).value);
      if cfg.hash(Seed(e.1, e.0)) == cfg.hash(Seed(last.1, last.0)) {
        SeedInjective(e.1, e.0, last.1, last.0);
      }
    }
  }

  /** Whatever the presented text is: it is accepted iff the row has been pulled and it is the last key. */
  lemma KeyCheck(cfg: Config, r: Run, id: Id, key: string)
    requires ValidConfig(cfg) && Legal(cfg, INIT, r)
    requires id in After(cfg, INIT, r).rows
    ensures Accepts(After(cfg, INIT, r).rows[id], key)
            <==> Pulls(r, id) > 0 && LastPull(r, id).Some? && key == cfg.hash(Seed(LastPull(r, id).value, id))
  {
    TableHoldsLastPull(cfg, r, id);
    LeaseSpacing(cfg, r, id);
  }
}
