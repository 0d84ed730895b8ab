// What overlapping handlers break, and when: a save can bring a row back from
// retirement and forget failures -- each exactly under a condition on what happened
// since the row was read -- and hand a leased row to a second grader, for handlers
// that save promptly exactly when the pull did not see the row's last pull.
module StaleSaves {
  import opened Collections
  import opened Timestamps
  import opened Submissions
  import opened Reporting
  import opened Lifecycle
  import opened Reopening
  import opened Interleaving

  /** The act saves a copy of the row. */
  predicate Saves(cfg: Config, s: SharedState, a: Act, id: Id) {
    a.Finish? && CanAct(cfg, s, a) && s.pending[a.pid].id == id
  }

  lemma RowsAreNumbered(cfg: Config, r: Schedule, id: Id)
    requires id in Shared(cfg, r).rows
    ensures id < Shared(cfg, r).nextId
  {
    EveryInterleavingKeepsIdentity(cfg, r, id);
    OriginIsFixed(cfg, r, id);
  }

  lemma CopiesAreNumbered(cfg: Config, r: Schedule, pid: nat)
    requires pid in Shared(cfg, r).pending
    ensures Shared(cfg, r).pending[pid].id < Shared(cfg, r).nextId
  {
    CopiesKeepIdentity(cfg, r, pid);
    OriginIsFixed(cfg, r, Shared(cfg, r).pending[pid].id);
  }

  // ------------------------------------------------------- supersession under overlap

  /** A save brings a retired row back exactly if the row was retired since it was read, and the handler
      is a pull, or a retirement the LMS did not acknowledge. */
  lemma StaleSaveReopens(cfg: Config, r: Schedule, pid: nat, st: Step)
    requires Possible(cfg, r) && CanAct(cfg, Shared(cfg, r), Finish(pid, st))
    requires Shared(cfg, r).pending[pid].id in Shared(cfg, r).rows
    ensures var s, id := Shared(cfg, r), Shared(cfg, r).pending[pid].id;
            (s.rows[id].retired && !Perform(cfg, s, Finish(pid, st)).rows[id].retired)
            <==> s.rows[id].retired && (st.Pull? || (st.RetireFailed? && !st.force && !Delivered(st.answers)))
  {
  }

  /** How an act brings a row with the key among the unretired ones: by inserting it, by a failing result for
      a retired row, or by saving an unretired copy of a row that was retired or deleted meanwhile. */
  datatype Entry = Insertion | Reopening | Revival

  /** Saves of these handlers leave the row unretired. */
  predicate LeavesUnretired(st: Step) {
    st.Pull? || (st.RetireFailed? && !st.force && !Delivered(st.answers))
  }

  function EntryOf(cfg: Config, s: SharedState, a: Act, key: string): Option<Entry> {
    if !CanAct(cfg, s, a) then None else
    match a
    case Insert(st) => if CallbackKey(st.callback) == key then Some(Insertion) else None
    case Locked(st) =>
      if st.id in s.rows && s.rows[st.id].callbackUrl == key && s.rows[st.id].retired
         && Accepts(s.rows[st.id], st.key) && !Delivered(st.answers) && s.rows[st.id].failures + 1 <= cfg.maxFailures
      then Some(Reopening) else None
    case Finish(pid, st) =>
      var p := s.pending[pid];
      if p.row.callbackUrl == key && LeavesUnretired(st) && p.id !in Live(s.rows, key) then Some(Revival) else None
    case _ => None
  }

  function Entrants(cfg: Config, s: SharedState, a: Act, key: string): set<Id> {
    match EntryOf(cfg, s, a, key)
    case None => {}
    case Some(Insertion) => {s.nextId}
    case Some(Reopening) => {a.step.id}
    case Some(Revival) => {s.pending[a.pid].id}
  }

  /** The act retires the row, if it is unretired, or removes it. */
  predicate Retires(cfg: Config, s: SharedState, a: Act, id: Id) {
    CanAct(cfg, s, a)
    && match a
       case Locked(st) =>
         st.id == id && id in s.rows && Accepts(s.rows[id], st.key)
         && (Delivered(st.answers) || s.rows[id].failures + 1 > cfg.maxFailures)
       case Finish(pid, st) => s.pending[pid].id == id && !LeavesUnretired(st)
       case Remove(ids) => id in ids
       case _ => false
  }

  function Leavers(cfg: Config, s: SharedState, a: Act, key: string): set<Id> {
    set id | id in Live(s.rows, key) && Retires(cfg, s, a, id)
  }

  predicate Invalidates(a: Act, key: string) {
    a.Invalidate? && CallbackKey(a.callback) == key
  }

  /** Rows below the counter, and copies with the callback of their row. */
  ghost predicate Numbered(s: SharedState) {
    && (forall id | id in s.rows :: id < s.nextId)
    && (forall pid | pid in s.pending && s.pending[pid].id in s.rows ::
          s.pending[pid].row.callbackUrl == s.rows[s.pending[pid].id].callbackUrl)
  }

  lemma SchedulesAreNumbered(cfg: Config, r: Schedule)
    ensures Numbered(Shared(cfg, r))
  {
    var s := Shared(cfg, r);
    forall id | id in s.rows ensures id < s.nextId { RowsAreNumbered(cfg, r, id); }
    forall pid | pid in s.pending && s.pending[pid].id in s.rows
      ensures s.pending[pid].row.callbackUrl == s.rows[s.pending[pid].id].callbackUrl
    {
      CopiesKeepIdentity(cfg, r, pid);
      EveryInterleavingKeepsIdentity(cfg, r, s.pending[pid].id);
    }
  }

  /** What one act does to the unretired rows of a key: nothing but these rows enter and leave, and never in
      the same act. */
  lemma LiveChange(cfg: Config, s: SharedState, a: Act, key: string)
    requires Numbered(s) && !Invalidates(a, key)
    ensures var live := Live(s.rows, key);
            && Live(Perform(cfg, s, a).rows, key) == live - Leavers(cfg, s, a, key) + Entrants(cfg, s, a, key)
            && Entrants(cfg, s, a, key) !! live
            && (EntryOf(cfg, s, a, key).Some? ==> Leavers(cfg, s, a, key) == {})
  {
    forall id: Id
      ensures id in Live(Perform(cfg, s, a).rows, key)
              <==> (id in Live(s.rows, key) && !Retires(cfg, s, a, id)) || id in Entrants(cfg, s, a, key)
    {
      LiveRow(cfg, s, a, key, id);
    }
  }

  lemma LiveRow(cfg: Config, s: SharedState, a: Act, key: string, id: Id)
    requires Numbered(s) && !Invalidates(a, key)
    ensures id in Live(Perform(cfg, s, a).rows, key)
            <==> (id in Live(s.rows, key) && !Retires(cfg, s, a, id)) || id in Entrants(cfg, s, a, key)
  {
    if a.Finish? {
      LiveSaved(cfg, s, a.pid, a.step, key, id);
    } else if a.Locked? {
      LiveLocked(cfg, s, a.step, key, id);
    }
  }

  lemma LiveSaved(cfg: Config, s: SharedState, pid: nat, st: Step, key: string, id: Id)
    requires Numbered(s)
    ensures var a := Finish(pid, st);
            id in Live(Perform(cfg, s, a).rows, key)
            <==> (id in Live(s.rows, key) && !Retires(cfg, s, a, id)) || id in Entrants(cfg, s, a, key)
  {
    if CanAct(cfg, s, Finish(pid, st)) {
      var p := s.pending[pid];
      SavedKeepsIdentity(cfg, st, p.id, p.row);
      assert Saved(cfg, st, p.id, p.row).retired <==> !LeavesUnretired(st);
    }
  }

  lemma LiveLocked(cfg: Config, s: SharedState, st: Step, key: string, id: Id)
    ensures var a := Locked(st);
            id in Live(Perform(cfg, s, a).rows, key)
            <==> (id in Live(s.rows, key) && !Retires(cfg, s, a, id)) || id in Entrants(cfg, s, a, key)
  {
  }

  lemma InvalidationEmpties(cfg: Config, s: SharedState, a: Act, key: string)
    requires Invalidates(a, key)
    ensures Live(Perform(cfg, s, a).rows, key) == {}
  {
  }

  /** Entries of a kind since the key was last invalidated. */
  function EntryCount(cfg: Config, r: Schedule, key: string, kind: Entry): nat {
    match r
    case Idle => 0
    case Next(before, a) =>
      if Invalidates(a, key) then 0
      else EntryCount(cfg, before, key, kind)
           + (if EntryOf(cfg, Shared(cfg, before), a, key) == Some(kind) then 1 else 0)
  }

  /** Retirements and removals since then. */
  function ExitCount(cfg: Config, r: Schedule, key: string): nat {
    match r
    case Idle => 0
    case Next(before, a) =>
      if Invalidates(a, key) then 0
      else ExitCount(cfg, before, key) + |Leavers(cfg, Shared(cfg, before), a, key)|
  }

  lemma LiveCount(cfg: Config, s: SharedState, a: Act, key: string)
    requires Numbered(s) && !Invalidates(a, key)
    ensures |Live(Perform(cfg, s, a).rows, key)| + |Leavers(cfg, s, a, key)|
            == |Live(s.rows, key)| + (if EntryOf(cfg, s, a, key).Some? then 1 else 0)
  {
    LiveChange(cfg, s, a, key);
    CountChange(Live(s.rows, key), Leavers(cfg, s, a, key), Entrants(cfg, s, a, key));
    EntrantCount(cfg, s, a, key);
  }

  lemma EntrantCount(cfg: Config, s: SharedState, a: Act, key: string)
    ensures |Entrants(cfg, s, a, key)| == if EntryOf(cfg, s, a, key).Some? then 1 else 0
  {
  }

  lemma CountChange<T>(all: set<T>, leavers: set<T>, entrants: set<T>)
    requires leavers <= all && entrants !! all
    ensures |all - leavers + entrants| + |leavers| == |all| + |entrants|
  {
    Partition(leavers, all, all - leavers);
    Partition(entrants, all - leavers + entrants, all - leavers);
  }

  /** Supersession under every interleaving, however stale the saves: since the key's last invalidation, the
      rows that entered and those that left account for exactly the unretired rows with the key.  So there are
      at most as many as insertions, reopening results and reviving saves together. */
  lemma {:induction false} SupersessionUnderOverlap(cfg: Config, r: Schedule, key: string)
    ensures |Live(Shared(cfg, r).rows, key)| + ExitCount(cfg, r, key)
            == EntryCount(cfg, r, key, Insertion) + EntryCount(cfg, r, key, Reopening)
               + EntryCount(cfg, r, key, Revival)
  {
    if r.Next? {
      var s := Shared(cfg, r.before);
      if Invalidates(r.act, key) {
        InvalidationEmpties(cfg, s, r.act, key);
      } else {
        SupersessionUnderOverlap(cfg, r.before, key);
        SchedulesAreNumbered(cfg, r.before);
        LiveCount(cfg, s, r.act, key);
      }
    }
  }

  /** In no state of the schedule are two rows with the key unretired. */
  ghost predicate NeverTwoLive(cfg: Config, r: Schedule, key: string) {
    |Live(Shared(cfg, r).rows, key)| <= 1 && (r.Next? ==> NeverTwoLive(cfg, r.before, key))
  }

  /** Whenever a row with the key is inserted, reopened or revived, no other one is unretired. */
  ghost predicate EntersAlone(cfg: Config, r: Schedule, key: string) {
    match r
    case Idle => true
    case Next(before, a) =>
      EntersAlone(cfg, before, key)
      && (EntryOf(cfg, Shared(cfg, before), a, key).Some? ==> Live(Shared(cfg, before).rows, key) == {})
  }

  /** At most one row with a key is ever unretired, exactly if every entry finds none. */
  lemma {:induction false} OneLiveUnderOverlap(cfg: Config, r: Schedule, key: string)
    ensures NeverTwoLive(cfg, r, key) <==> EntersAlone(cfg, r, key)
  {
    if r.Next? {
      OneLiveUnderOverlap(cfg, r.before, key);
      var s := Shared(cfg, r.before);
      SchedulesAreNumbered(cfg, r.before);
      if Invalidates(r.act, key) {
        InvalidationEmpties(cfg, s, r.act, key);
      } else {
        LiveCount(cfg, s, r.act, key);
        LiveChange(cfg, s, r.act, key);
      }
    }
  }

  // ----------------------------------------------------------- failures that are forgotten

  ghost function Length(r: Schedule): nat {
    match r
    case Idle => 0
    case Next(before, _) => Length(before) + 1
  }

  predicate Begins(cfg: Config, s: SharedState, a: Act, pid: nat) {
    a.Begin? && a.pid == pid && CanAct(cfg, s, a)
  }

  /** The schedule up to the moment the handler read its row. */
  ghost function ReadAt(cfg: Config, r: Schedule, pid: nat): (q: Schedule)
    ensures Length(q) <= Length(r)
  {
    match r
    case Idle => Idle
    case Next(before, a) => if Begins(cfg, Shared(cfg, before), a, pid) then before else ReadAt(cfg, before, pid)
  }

  lemma {:induction false} CopyWasRead(cfg: Config, r: Schedule, pid: nat)
    requires pid in Shared(cfg, r).pending
    ensures var p, s := Shared(cfg, r).pending[pid], Shared(cfg, ReadAt(cfg, r, pid));
            p.id in s.rows && p.row == s.rows[p.id]
  {
    if pid in Shared(cfg, r.before).pending { CopyWasRead(cfg, r.before, pid); }
  }

  /** A result accepted for the row, that the LMS did not take. */
  predicate Fails(cfg: Config, s: SharedState, a: Act, id: Id) {
    a.Locked? && CanAct(cfg, s, a) && a.step.id == id && id in s.rows
    && Accepts(s.rows[id], a.step.key) && !Delivered(a.step.answers)
  }

  /** The failure that a save itself counts: a push grader that could not be reached. */
  function Counted(st: Step): nat {
    if st.Deliver? && st.grading.Unreachable? then 1 else 0
  }

  /** The failures on the row's line of saves: the results that failed since its last save, what that save
      counted, and the same again from the moment the saved copy was read. */
  ghost function LineFailures(cfg: Config, r: Schedule, id: Id): nat
    decreases Length(r)
  {
    match r
    case Idle => 0
    case Next(before, a) =>
      var s := Shared(cfg, before);
      if Saves(cfg, s, a, id) then LineFailures(cfg, ReadAt(cfg, before, a.pid), id) + Counted(a.step)
      else LineFailures(cfg, before, id) + (if Fails(cfg, s, a, id) then 1 else 0)
  }

  /** The failures that ever happened to the row. */
  function Happened(cfg: Config, r: Schedule, id: Id): nat {
    match r
    case Idle => 0
    case Next(before, a) =>
      var s := Shared(cfg, before);
      Happened(cfg, before, id) + (if Saves(cfg, s, a, id) then Counted(a.step)
                                   else if Fails(cfg, s, a, id) then 1 else 0)
  }

  lemma FailuresStep(cfg: Config, s: SharedState, a: Act, id: Id)
    requires id in Perform(cfg, s, a).rows && (id in s.rows ==> id < s.nextId)
    ensures var failures := Perform(cfg, s, a).rows[id].failures;
            if Saves(cfg, s, a, id) then failures == s.pending[a.pid].row.failures + Counted(a.step)
            else if id in s.rows then failures == s.rows[id].failures + (if Fails(cfg, s, a, id) then 1 else 0)
            else id == s.nextId && failures == 0
  {
  }

  lemma {:induction false} NothingBeforeInsertion(cfg: Config, r: Schedule, id: Id)
    requires id >= Shared(cfg, r).nextId
    ensures LineFailures(cfg, r, id) == 0
  {
    if r.Next? {
      var s := Shared(cfg, r.before);
      NothingBeforeInsertion(cfg, r.before, id);
      if Saves(cfg, s, r.act, id) { CopiesAreNumbered(cfg, r.before, r.act.pid); }
      if id in s.rows { RowsAreNumbered(cfg, r.before, id); }
    }
  }

  /** The table's failure count is what the row's line of saves has on record. */
  lemma {:induction false} FailuresAreOnRecord(cfg: Config, r: Schedule, id: Id)
    requires id in Shared(cfg, r).rows
    ensures Shared(cfg, r).rows[id].failures == LineFailures(cfg, r, id)
    decreases Length(r)
  {
    var s, a := Shared(cfg, r.before), r.act;
    if id in s.rows { RowsAreNumbered(cfg, r.before, id); }
    FailuresStep(cfg, s, a, id);
    if Saves(cfg, s, a, id) {
      CopyWasRead(cfg, r.before, a.pid);
      FailuresAreOnRecord(cfg, ReadAt(cfg, r.before, a.pid), id);
    } else if id in s.rows {
      FailuresAreOnRecord(cfg, r.before, id);
    } else {
      NothingBeforeInsertion(cfg, r.before, id);
    }
  }

  /** The schedule up to and including the last save of the row. */
  function LastSave(cfg: Config, r: Schedule, id: Id): Schedule {
    match r
    case Idle => Idle
    case Next(before, a) => if Saves(cfg, Shared(cfg, before), a, id) then r else LastSave(cfg, before, id)
  }

  /** The results that failed for the row since then. */
  function FailedSinceSave(cfg: Config, r: Schedule, id: Id): nat {
    match r
    case Idle => 0
    case Next(before, a) =>
      var s := Shared(cfg, before);
      if Saves(cfg, s, a, id) then 0
      else FailedSinceSave(cfg, before, id) + (if Fails(cfg, s, a, id) then 1 else 0)
  }

  /** So it is the count in the last saver's copy, plus what that save counted, plus the results failed since. */
  lemma {:induction false} CountSinceLastSave(cfg: Config, r: Schedule, id: Id)
    requires id in Shared(cfg, r).rows && LastSave(cfg, r, id).Next?
    ensures var last := LastSave(cfg, r, id);
            && Saves(cfg, Shared(cfg, last.before), last.act, id)
            && Shared(cfg, r).rows[id].failures
               == Shared(cfg, last.before).pending[last.act.pid].row.failures + Counted(last.act.step)
                  + FailedSinceSave(cfg, r, id)
  {
    var s := Shared(cfg, r.before);
    if id in s.rows { RowsAreNumbered(cfg, r.before, id); }
    FailuresStep(cfg, s, r.act, id);
    if !Saves(cfg, s, r.act, id) {
      if id !in s.rows { NeverSavedBeforeInsertion(cfg, r.before, id); }
      CountSinceLastSave(cfg, r.before, id);
    }
  }

  lemma {:induction false} NeverSavedBeforeInsertion(cfg: Config, r: Schedule, id: Id)
    requires id >= Shared(cfg, r).nextId
    ensures LastSave(cfg, r, id) == Idle
  {
    if r.Next? {
      NeverSavedBeforeInsertion(cfg, r.before, id);
      if r.act.Finish? && r.act.pid in Shared(cfg, r.before).pending { CopiesAreNumbered(cfg, r.before, r.act.pid); }
    }
  }

  lemma {:induction false} HappenedGrows(cfg: Config, r: Schedule, pid: nat, id: Id)
    ensures Happened(cfg, ReadAt(cfg, r, pid), id) <= Happened(cfg, r, id)
  {
    if r.Next? { HappenedGrows(cfg, r.before, pid, id); }
  }

  /** Failures can be forgotten, but none is counted that did not happen. */
  lemma {:induction false} NoFailureIsMadeUp(cfg: Config, r: Schedule, id: Id)
    ensures LineFailures(cfg, r, id) <= Happened(cfg, r, id)
    decreases Length(r)
  {
    if r.Next? {
      NoFailureIsMadeUp(cfg, r.before, id);
      if r.act.Finish? {
        NoFailureIsMadeUp(cfg, ReadAt(cfg, r.before, r.act.pid), id);
        HappenedGrows(cfg, r.before, r.act.pid, id);
      }
    }
  }

  /** The results that failed for the row since the handler read it. */
  function FailedSince(cfg: Config, r: Schedule, pid: nat, id: Id): nat {
    match r
    case Idle => 0
    case Next(before, a) =>
      var s := Shared(cfg, before);
      if Begins(cfg, s, a, pid) then 0
      else FailedSince(cfg, before, pid, id) + (if Fails(cfg, s, a, id) then 1 else 0)
  }

  /** Another handler saved the row since. */
  predicate SavedSince(cfg: Config, r: Schedule, pid: nat, id: Id) {
    match r
    case Idle => false
    case Next(before, a) =>
      var s := Shared(cfg, before);
      !Begins(cfg, s, a, pid) && (SavedSince(cfg, before, pid, id) || Saves(cfg, s, a, id))
  }

  lemma {:induction false} CountSinceRead(cfg: Config, r: Schedule, pid: nat)
    requires pid in Shared(cfg, r).pending && Shared(cfg, r).pending[pid].id in Shared(cfg, r).rows
    requires !SavedSince(cfg, r, pid, Shared(cfg, r).pending[pid].id)
    ensures var p := Shared(cfg, r).pending[pid];
            Shared(cfg, r).rows[p.id].failures == p.row.failures + FailedSince(cfg, r, pid, p.id)
  {
    var s := Shared(cfg, r.before);
    if pid in s.pending {
      CopiesAreNumbered(cfg, r.before, pid);
      FailuresStep(cfg, s, r.act, s.pending[pid].id);
      CountSinceRead(cfg, r.before, pid);
    }
  }

  /** A save lowers a row's failure count exactly if the line of saves in the table has more failures on
      record than the line its own copy was read from, plus what it counts itself.  If nobody saved the row
      since it was read: exactly if more results failed since then than the save counts. */
  lemma StaleSaveForgetsFailures(cfg: Config, r: Schedule, pid: nat, st: Step)
    requires CanAct(cfg, Shared(cfg, r), Finish(pid, st))
    requires Shared(cfg, r).pending[pid].id in Shared(cfg, r).rows
    ensures var s, id := Shared(cfg, r), Shared(cfg, r).pending[pid].id;
            var lowers := Perform(cfg, s, Finish(pid, st)).rows[id].failures < s.rows[id].failures;
            && (lowers <==> LineFailures(cfg, ReadAt(cfg, r, pid), id) + Counted(st) < LineFailures(cfg, r, id))
            && (!SavedSince(cfg, r, pid, id) ==> (lowers <==> Counted(st) < FailedSince(cfg, r, pid, id)))
  {
    var id := Shared(cfg, r).pending[pid].id;
    CopyWasRead(cfg, r, pid);
    FailuresAreOnRecord(cfg, ReadAt(cfg, r, pid), id);
    FailuresAreOnRecord(cfg, r, id);
    if !SavedSince(cfg, r, pid, id) { CountSinceRead(cfg, r, pid); }
  }

  // ------------------------------------------------------------------ leases under overlap

  /** The times of the saved pulls of the row. */
  function SharedPulls(cfg: Config, r: Schedule, id: Id): seq<Time> {
    match r
    case Idle => []
    case Next(before, a) =>
      SharedPulls(cfg, before, id)
      + (if Saves(cfg, Shared(cfg, before), a, id) && a.step.Pull? then [a.step.at] else [])
  }

  function LastOf(times: seq<Time>): Option<Time> {
    if times == [] then None else Some(times[|times| - 1])
  }

  /** A pull whose copy shows the row's current pull time is at least one delay later than it. */
  lemma NextSharedPullIsLater(cfg: Config, s: SharedState, pid: nat, pull: Step)
    requires CanAct(cfg, s, Finish(pid, pull)) && pull.Pull? && s.pending[pid].id in s.rows
    requires s.pending[pid].row.pullTime == s.rows[s.pending[pid].id].pullTime
    ensures var last := s.rows[s.pending[pid].id].pullTime; last.Some? ==> pull.at >= last.value + cfg.delay
  {
  }

  predicate Spaced(times: seq<Time>, delay: nat) {
    forall i | 0 < i < |times| :: times[i] >= times[i - 1] + delay
  }

  /** Every saved pull of the row is of a copy that shows the pull saved last. */
  ghost predicate PullsSeen(cfg: Config, r: Schedule, id: Id) {
    match r
    case Idle => true
    case Next(before, a) =>
      var s := Shared(cfg, before);
      PullsSeen(cfg, before, id)
      && (Saves(cfg, s, a, id) && a.step.Pull? ==>
            s.pending[a.pid].row.pullTime == LastOf(SharedPulls(cfg, before, id)))
  }

  /** That is enough for the pulls to keep their distance, whatever else is saved, and however late. */
  lemma {:induction false} PullsSeenAreSpaced(cfg: Config, r: Schedule, id: Id)
    requires PullsSeen(cfg, r, id)
    ensures Spaced(SharedPulls(cfg, r, id), cfg.delay)
  {
    if r.Next? { PullsSeenAreSpaced(cfg, r.before, id); }
  }

  lemma {:induction false} SpacedApart(times: seq<Time>, delay: nat, i: nat, j: nat)
    requires Spaced(times, delay) && i <= j < |times|
    ensures times[j] >= times[i] + (j - i) * delay
  {
    if i < j {
      SpacedApart(times, delay, i, j - 1);
      assert (j - i) * delay == (j - 1 - i) * delay + delay;
    }
  }

  /** So the i-th and the j-th of them are j - i delays apart. */
  lemma LeaseSpacingUnderOverlap(cfg: Config, r: Schedule, id: Id, i: nat, j: nat)
    requires PullsSeen(cfg, r, id) && i <= j < |SharedPulls(cfg, r, id)|
    ensures SharedPulls(cfg, r, id)[j] >= SharedPulls(cfg, r, id)[i] + (j - i) * cfg.delay
  {
    PullsSeenAreSpaced(cfg, r, id);
    SpacedApart(SharedPulls(cfg, r, id), cfg.delay, i, j);
  }

  /** Every saved pull of the row is dated and saved within `d` of its query. */
  ghost predicate Prompt(cfg: Config, r: Schedule, id: Id, d: nat) {
    match r
    case Idle => true
    case Next(before, a) =>
      var s := Shared(cfg, before);
      Prompt(cfg, before, id, d)
      && (Saves(cfg, s, a, id) && a.step.Pull? ==>
            s.now <= s.pending[a.pid].asked + d && a.step.at <= s.pending[a.pid].asked + d)
  }

  /** When a pull that is saved was read, the table showed the pull saved last before that. */
  ghost predicate ReadsShowLastPull(cfg: Config, r: Schedule, id: Id) {
    match r
    case Idle => true
    case Next(before, a) =>
      var s := Shared(cfg, before);
      ReadsShowLastPull(cfg, before, id)
      && (Saves(cfg, s, a, id) && a.step.Pull? ==>
            s.pending[a.pid].row.pullTime == LastOf(SharedPulls(cfg, ReadAt(cfg, before, a.pid), id)))
  }

  lemma {:induction false} AskedByNow(cfg: Config, r: Schedule, pid: nat)
    requires pid in Shared(cfg, r).pending
    ensures Shared(cfg, r).pending[pid].asked <= Shared(cfg, r).now
  {
    if pid in Shared(cfg, r.before).pending { AskedByNow(cfg, r.before, pid); }
  }

  /** A copy in flight was read after the last saved pull, or asked for at most `d` later than it. */
  lemma {:induction false} AskedBeforeLastPull(cfg: Config, r: Schedule, id: Id, pid: nat, d: nat)
    requires pid in Shared(cfg, r).pending && Prompt(cfg, r, id, d)
    ensures SharedPulls(cfg, r, id) == SharedPulls(cfg, ReadAt(cfg, r, pid), id)
            || (SharedPulls(cfg, r, id) != []
                && Shared(cfg, r).pending[pid].asked <= LastOf(SharedPulls(cfg, r, id)).value + d)
  {
    if pid in Shared(cfg, r.before).pending {
      AskedBeforeLastPull(cfg, r.before, id, pid, d);
      if SharedPulls(cfg, r, id) != SharedPulls(cfg, r.before, id) { AskedBeforeNewPull(cfg, r, id, pid, d); }
    }
  }

  lemma AskedBeforeNewPull(cfg: Config, r: Schedule, id: Id, pid: nat, d: nat)
    requires r.Next? && Prompt(cfg, r, id, d) && pid in Shared(cfg, r.before).pending
    requires SharedPulls(cfg, r, id) != SharedPulls(cfg, r.before, id)
    ensures Shared(cfg, r.before).pending[pid].asked <= LastOf(SharedPulls(cfg, r, id)).value + d
  {
    AskedByNow(cfg, r.before, pid);
  }

  /** For handlers that save well within a lease, and whose reads show the last pull, this is exact: the pulls of
      a row keep their distance if and only if each of them saw, when it was saved, the row's last pull. */
  lemma {:induction false} LeaseIsKeptExactly(cfg: Config, r: Schedule, id: Id, d: nat)
    requires 2 * d < cfg.delay && Prompt(cfg, r, id, d) && ReadsShowLastPull(cfg, r, id)
    ensures Spaced(SharedPulls(cfg, r, id), cfg.delay) <==> PullsSeen(cfg, r, id)
  {
    if PullsSeen(cfg, r, id) {
      PullsSeenAreSpaced(cfg, r, id);
    } else {
      LeaseIsKeptExactly(cfg, r.before, id, d);
      if PullsSeen(cfg, r.before, id) {
        UnseenPullIsTooEarly(cfg, r, id, d);
      } else if Spaced(SharedPulls(cfg, r, id), cfg.delay) {
        EarlierPullsSpaced(cfg, r, id);
      }
    }
  }

  /** A pull that did not see the row's last pull comes less than two `d` after it. */
  lemma UnseenPullIsTooEarly(cfg: Config, r: Schedule, id: Id, d: nat)
    requires r.Next? && 2 * d < cfg.delay && Prompt(cfg, r, id, d) && ReadsShowLastPull(cfg, r, id)
    requires PullsSeen(cfg, r.before, id) && !PullsSeen(cfg, r, id)
    ensures !Spaced(SharedPulls(cfg, r, id), cfg.delay)
  {
    AskedBeforeLastPull(cfg, r.before, id, r.act.pid, d);
    var earlier, all := SharedPulls(cfg, r.before, id), SharedPulls(cfg, r, id);
    assert all[|earlier|] < all[|earlier| - 1] + cfg.delay;
  }

  lemma EarlierPullsSpaced(cfg: Config, r: Schedule, id: Id)
    requires r.Next? && Spaced(SharedPulls(cfg, r, id), cfg.delay)
    ensures Spaced(SharedPulls(cfg, r.before, id), cfg.delay)
  {
    var earlier, all := SharedPulls(cfg, r.before, id), SharedPulls(cfg, r, id);
    forall i | 0 < i < |earlier| ensures earlier[i] >= earlier[i - 1] + cfg.delay {
      assert all[i] == earlier[i] && all[i - 1] == earlier[i - 1];
    }
  }

  /** The handlers other than pulls save copies that show the pull saved last. */
  ghost predicate OthersSeen(cfg: Config, r: Schedule, id: Id) {
    match r
    case Idle => true
    case Next(before, a) =>
      var s := Shared(cfg, before);
      OthersSeen(cfg, before, id)
      && (Saves(cfg, s, a, id) && !a.step.Pull? ==>
            s.pending[a.pid].row.pullTime == LastOf(SharedPulls(cfg, before, id)))
  }

  lemma PullTimeStep(cfg: Config, s: SharedState, a: Act, id: Id)
    requires id in Perform(cfg, s, a).rows && (id in s.rows ==> id < s.nextId)
    ensures var last := Perform(cfg, s, a).rows[id].pullTime;
            if Saves(cfg, s, a, id) then last == if a.step.Pull? then Some(a.step.at) else s.pending[a.pid].row.pullTime
            else if id in s.rows then last == s.rows[id].pullTime
            else id == s.nextId && last == None
  {
  }

  lemma {:induction false} TableShowsLastPull(cfg: Config, r: Schedule, id: Id)
    requires OthersSeen(cfg, r, id)
    ensures id >= Shared(cfg, r).nextId ==> SharedPulls(cfg, r, id) == []
    ensures id in Shared(cfg, r).rows ==> Shared(cfg, r).rows[id].pullTime == LastOf(SharedPulls(cfg, r, id))
  {
    if r.Next? {
      TableShowsLastPull(cfg, r.before, id);
      var s := Shared(cfg, r.before);
      if Saves(cfg, s, r.act, id) { CopiesAreNumbered(cfg, r.before, r.act.pid); }
      if id in s.rows { RowsAreNumbered(cfg, r.before, id); }
      if id in Shared(cfg, r).rows { PullTimeStep(cfg, s, r.act, id); }
    }
  }

  lemma {:induction false} ReadsAreEarlier(cfg: Config, r: Schedule, id: Id, pid: nat)
    requires OthersSeen(cfg, r, id)
    ensures OthersSeen(cfg, ReadAt(cfg, r, pid), id)
  {
    if r.Next? { ReadsAreEarlier(cfg, r.before, id, pid); }
  }

  /** Reads show the last pull as long as no other handler saves an older one over it. */
  lemma {:induction false} OthersSeenIsEnough(cfg: Config, r: Schedule, id: Id)
    requires OthersSeen(cfg, r, id)
    ensures ReadsShowLastPull(cfg, r, id)
  {
    if r.Next? {
      OthersSeenIsEnough(cfg, r.before, id);
      if Saves(cfg, Shared(cfg, r.before), r.act, id) {
        CopyWasRead(cfg, r.before, r.act.pid);
        ReadsAreEarlier(cfg, r.before, id, r.act.pid);
        TableShowsLastPull(cfg, ReadAt(cfg, r.before, r.act.pid), id);
      }
    }
  }

  // ------------------------------------------------- schedules in which this happens

  /** A newer submission supersedes the row of a pull in flight, and then the pull is saved. */
  function SupersedeInFlight(r: Schedule, pid: nat, pull: Step, submit: Step): Schedule
    requires submit.Submit?
  {
    Next(Next(Next(r, Invalidate(submit.callback)), Insert(submit)), Finish(pid, pull))
  }

  /** Whenever a pull is in flight, that undoes the supersession: two rows with the key are unretired,
      with no result posted in between. */
  lemma StalePullUndoesSupersession(cfg: Config, r: Schedule, pid: nat, pull: Step, submit: Step)
    requires Possible(cfg, r) && CanAct(cfg, Shared(cfg, r), Finish(pid, pull)) && pull.Pull?
    requires submit.Submit? && submit.queue in cfg.queues
    requires Shared(cfg, r).pending[pid].row.callbackUrl == CallbackKey(submit.callback)
    ensures var r' := SupersedeInFlight(r, pid, pull, submit);
            Possible(cfg, r') && {Shared(cfg, r).pending[pid].id, Shared(cfg, r).nextId}
                                 <= Live(Shared(cfg, r').rows, CallbackKey(submit.callback))
  {
    CopiesAreNumbered(cfg, r, pid);
    StalePullOnState(cfg, Shared(cfg, r), pid, pull, submit);
  }

  lemma StalePullOnState(cfg: Config, s: SharedState, pid: nat, pull: Step, submit: Step)
    requires CanAct(cfg, s, Finish(pid, pull)) && pull.Pull?
    requires submit.Submit? && submit.queue in cfg.queues && s.pending[pid].id < s.nextId
    requires s.pending[pid].row.callbackUrl == CallbackKey(submit.callback)
    ensures var s1 := Perform(cfg, s, Invalidate(submit.callback));
            var s2 := Perform(cfg, s1, Insert(submit));
            && CanAct(cfg, s2, Finish(pid, pull))
            && {s.pending[pid].id, s.nextId}
               <= Live(Perform(cfg, s2, Finish(pid, pull)).rows, CallbackKey(submit.callback))
  {
    var s1 := Perform(cfg, s, Invalidate(submit.callback));
    assert s1.pending == s.pending && s1.nextId == s.nextId;
    var s2 := Perform(cfg, s1, Insert(submit));
    assert s2.pending == s.pending && s2.rows[s.nextId] == NewRow(submit);
    var id := s.pending[pid].id;
    assert Perform(cfg, s2, Finish(pid, pull)).rows
           == s2.rows[id := Pulled(cfg, s.pending[pid].row, id, pull.grader, pull.at)];
  }

  /** Whenever two graders' pulls of one row are in flight, both are saved: the lease does not keep the
      second grader out. */
  lemma StalePullsShareALease(cfg: Config, r: Schedule, pid: nat, other: nat, pull: Step, again: Step)
    requires Possible(cfg, r) && pid != other
    requires CanAct(cfg, Shared(cfg, r), Finish(pid, pull)) && pull.Pull?
    requires CanAct(cfg, Shared(cfg, r), Finish(other, again)) && again.Pull? && pull.choice == again.choice
    ensures var r', id := Next(Next(r, Finish(pid, pull)), Finish(other, again)), pull.choice.value;
            && Possible(cfg, r') && Shared(cfg, r').rows[id].graderId == again.grader
            && SharedPulls(cfg, r', id) == SharedPulls(cfg, r, id) + [pull.at, again.at]
            && (again.at < pull.at + cfg.delay ==> !Spaced(SharedPulls(cfg, r', id), cfg.delay))
  {
    var s := Shared(cfg, r);
    var s1 := Perform(cfg, s, Finish(pid, pull));
    assert s1.pending == s.pending - {pid};
    LastTwo(SharedPulls(cfg, r, pull.choice.value), pull.at, again.at, cfg.delay);
  }

  lemma LastTwo(times: seq<Time>, a: Time, b: Time, delay: nat)
    ensures times + [a] + [b] == times + [a, b]
    ensures b < a + delay ==> !Spaced(times + [a, b], delay)
  {
    var all := times + [a, b];
    assert all[|times| + 1] == b && all[|times|] == a;
  }

  /** Such schedules exist from the empty table on: one submission, and two requests for work. */
  function TwoRequests(queue: string, t: Time): Schedule {
    Next(Next(Next(Idle, Insert(Submit(t, "lms", "c", queue, "h", "b", "{}", "{}"))), Begin(0, 1, t)), Begin(1, 1, t))
  }

  lemma BothAnomaliesOccur(cfg: Config, queue: string, t: Time)
    requires queue in cfg.queues
    ensures var r, first, second := TwoRequests(queue, t), Pull(queue, "first", t, t, Some(1)),
                                    Pull(queue, "second", t, t, Some(1));
            var submit := Submit(t, "lms", "c", queue, "h", "b", "{}", "{}");
            && {1, 2} <= Live(Shared(cfg, SupersedeInFlight(r, 0, first, submit)).rows, "c")
            && Possible(cfg, SupersedeInFlight(r, 0, first, submit))
            && Possible(cfg, Next(Next(r, Finish(0, first)), Finish(1, second)))
            && (cfg.delay > 0 ==>
                  !Spaced(SharedPulls(cfg, Next(Next(r, Finish(0, first)), Finish(1, second)), 1), cfg.delay))
  {
    var r, first, second := TwoRequests(queue, t), Pull(queue, "first", t, t, Some(1)),
                            Pull(queue, "second", t, t, Some(1));
    TwoRequestsState(cfg, queue, t);
    StalePullUndoesSupersession(cfg, r, 0, first, Submit(t, "lms", "c", queue, "h", "b", "{}", "{}"));
    StalePullsShareALease(cfg, r, 0, 1, first, second);
  }

  lemma TwoRequestsState(cfg: Config, queue: string, t: Time)
    requires queue in cfg.queues
    ensures var r, row := TwoRequests(queue, t), OneRow(queue, t);
            Possible(cfg, r) && Shared(cfg, r).nextId == 2
            && Shared(cfg, r).pending == map[0 := Pending(1, row, t), 1 := Pending(1, row, t)]
  {
    var r, row := TwoRequests(queue, t), OneRow(queue, t);
    assert Possible(cfg, Idle) && Possible(cfg, r.before.before) && Possible(cfg, r.before);
    assert Shared(cfg, r.before.before) == SharedState(map[1 := row], 2, t, [], map[]);
    assert Shared(cfg, r.before) == SharedState(map[1 := row], 2, t, [], map[0 := Pending(1, row, t)]);
  }

  function OneRow(queue: string, t: Time): Row {
    NewRow(Submit(t, "lms", "c", queue, "h", "b", "{}", "{}"))
  }

  function OnePull(queue: string, t: Time): Schedule {
    Next(Next(Next(Idle, Insert(Submit(t, "lms", "c", queue, "h", "b", "{}", "{}"))), Begin(0, 1, t)),
         Finish(0, Pull(queue, "first", t, t, Some(1))))
  }

  /** Whenever a result fails for a row while a pull of it is in flight, saving the pull forgets the failure. */
  lemma StalePullForgetsFailure(cfg: Config, s: SharedState, pid: nat, pull: Step, result: Step)
    requires CanAct(cfg, s, Finish(pid, pull)) && pull.Pull? && s.pending[pid].id in s.rows
    requires s.rows[s.pending[pid].id] == s.pending[pid].row
    requires Fails(cfg, s, Locked(result), s.pending[pid].id)
    ensures var s1, id := Perform(cfg, s, Locked(result)), s.pending[pid].id;
            && CanAct(cfg, s1, Finish(pid, pull))
            && id in s1.rows && s1.rows[id].failures == s.rows[id].failures + 1
            && Perform(cfg, s1, Finish(pid, pull)).rows[id].failures == s.rows[id].failures
  {
    assert Perform(cfg, s, Locked(result)).pending == s.pending;
  }

  /** A submission is pulled, and pulled again after its lease; while the second pull is in flight, the first
      grader's result fails to reach the LMS, and saving the pull forgets that. */
  lemma FailureForgotten(cfg: Config, queue: string, t: Time, later: Time, unanswered: Attempts)
    requires ValidConfig(cfg) && queue in cfg.queues && t + cfg.delay <= later && !Delivered(unanswered)
    ensures var r := Next(OnePull(queue, t), Begin(1, 1, later));
            var r1 := Next(r, Locked(PutResult(1, cfg.hash(Seed(t, 1)), "grade", later, unanswered)));
            var r2 := Next(r1, Finish(1, Pull(queue, "second", later, later, Some(1))));
            && Possible(cfg, r2) && 1 in Shared(cfg, r1).rows && 1 in Shared(cfg, r2).rows
            && Shared(cfg, r2).rows[1].failures < Shared(cfg, r1).rows[1].failures
  {
    OnePullState(cfg, queue, t);
    var r := Next(OnePull(queue, t), Begin(1, 1, later));
    assert Possible(cfg, r);
    StalePullForgetsFailure(cfg, Shared(cfg, r), 1, Pull(queue, "second", later, later, Some(1)),
                            PutResult(1, cfg.hash(Seed(t, 1)), "grade", later, unanswered));
  }

  lemma OnePullState(cfg: Config, queue: string, t: Time)
    requires queue in cfg.queues
    ensures Possible(cfg, OnePull(queue, t))
    ensures Shared(cfg, OnePull(queue, t))
            == SharedState(map[1 := Pulled(cfg, OneRow(queue, t), 1, "first", t)], 2, t, [], map[])
  {
    var r, row := OnePull(queue, t), OneRow(queue, t);
    assert Possible(cfg, Idle) && Possible(cfg, r.before.before) && Possible(cfg, r.before);
    assert Shared(cfg, r.before.before) == SharedState(map[1 := row], 2, t, [], map[]);
    assert Shared(cfg, r.before) == SharedState(map[1 := row], 2, t, [], map[0 := Pending(1, row, t)]);
  }
}
