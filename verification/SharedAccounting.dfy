// What overlapping handlers still account for: posts, deliveries to push graders,
// reasons for retirement, and rows that a stale save brings back from deletion.
module SharedAccounting {
  import opened Collections
  import opened Timestamps
  import opened Submissions
  import opened Reporting
  import opened Lifecycle
  import opened Reopening
  import opened Interleaving
  import opened StaleSaves
  import Accounting
  import DeleteOld

  // ---------------------------------------------------------------------- delivery budget

  predicate ActReports(cfg: Config, s: SharedState, a: Act) {
    match RowRead(cfg, s, a)
    case None => false
    case Some((_, row)) => MakesReport(a.step, row)
  }

  function SharedReports(cfg: Config, r: Schedule): nat {
    match r
    case Idle => 0
    case Next(before, a) => SharedReports(cfg, before) + (if ActReports(cfg, Shared(cfg, before), a) then 1 else 0)
  }

  function ActPosts(cfg: Config, s: SharedState, a: Act): seq<Post> {
    match RowRead(cfg, s, a)
    case None => []
    case Some((_, row)) => RowPosts(a.step, row)
  }

  lemma PerformLog(cfg: Config, s: SharedState, a: Act)
    ensures Perform(cfg, s, a).log == s.log + ActPosts(cfg, s, a)
  {
  }

  /** However handlers overlap: at most five posts per report, and at most one successful one. */
  lemma {:induction false} SharedDeliveryBudget(cfg: Config, r: Schedule)
    ensures |Shared(cfg, r).log| <= 5 * SharedReports(cfg, r)
    ensures Successes(Shared(cfg, r).log) <= SharedReports(cfg, r)
  {
    if r.Next? {
      SharedDeliveryBudget(cfg, r.before);
      var s := Shared(cfg, r.before);
      PerformLog(cfg, s, r.act);
      SuccessesAppend(s.log, ActPosts(cfg, s, r.act));
      var read := RowRead(cfg, s, r.act);
      if read.Some? { RowPostsBudget(r.act.step, read.value.1); }
    }
  }

  // ------------------------------------------------------------------- push gets one chance

  predicate SavesDelivery(cfg: Config, s: SharedState, a: Act, id: Id) {
    Saves(cfg, s, a, id) && a.step.Deliver?
  }

  function SharedDeliveries(cfg: Config, r: Schedule, id: Id): nat {
    match r
    case Idle => 0
    case Next(before, a) =>
      SharedDeliveries(cfg, before, id) + (if SavesDelivery(cfg, Shared(cfg, before), a, id) then 1 else 0)
  }

  /** No delivery of the row was saved while another one was in flight. */
  ghost predicate DeliveredAlone(cfg: Config, r: Schedule, id: Id) {
    match r
    case Idle => true
    case Next(before, a) =>
      DeliveredAlone(cfg, before, id)
      && (SavesDelivery(cfg, Shared(cfg, before), a, id) ==>
            SharedDeliveries(cfg, ReadAt(cfg, before, a.pid), id) == SharedDeliveries(cfg, before, id))
  }

  lemma {:induction false} NoPullsBefore(cfg: Config, r: Schedule, id: Id, pid: nat)
    requires SharedPulls(cfg, r, id) == []
    ensures SharedPulls(cfg, ReadAt(cfg, r, pid), id) == []
  {
    if r.Next? { NoPullsBefore(cfg, r.before, id, pid); }
  }

  lemma {:induction false} NoDeliveryBeforeInsertion(cfg: Config, r: Schedule, id: Id)
    requires id >= Shared(cfg, r).nextId
    ensures SharedDeliveries(cfg, r, id) == 0
  {
    if r.Next? {
      NoDeliveryBeforeInsertion(cfg, r.before, id);
      if SavesDelivery(cfg, Shared(cfg, r.before), r.act, id) { CopiesAreNumbered(cfg, r.before, r.act.pid); }
    }
  }

  /** A row that was never pulled: no key, no failure while it is unretired, and retired by a delivery. */
  predicate Unpulled(row: Row, deliveries: nat) {
    row.pullkey == "" && (!row.retired ==> row.failures == 0 && deliveries == 0)
  }

  lemma UnpulledStep(cfg: Config, s: SharedState, a: Act, id: Id, deliveries: nat)
    requires id in Perform(cfg, s, a).rows && !(Saves(cfg, s, a, id) && a.step.Pull?)
    requires if id in s.rows then id < s.nextId && Unpulled(s.rows[id], deliveries)
             else id == s.nextId ==> deliveries == 0
    requires Saves(cfg, s, a, id) ==> Unpulled(s.pending[a.pid].row, 0)
    ensures Unpulled(Perform(cfg, s, a).rows[id], deliveries + (if SavesDelivery(cfg, s, a, id) then 1 else 0))
  {
  }

  lemma {:induction false} NeverPulled(cfg: Config, r: Schedule, id: Id)
    requires id in Shared(cfg, r).rows && SharedPulls(cfg, r, id) == []
    ensures Unpulled(Shared(cfg, r).rows[id], SharedDeliveries(cfg, r, id))
    decreases Length(r)
  {
    var s, a := Shared(cfg, r.before), r.act;
    if id in s.rows {
      NeverPulled(cfg, r.before, id);
      RowsAreNumbered(cfg, r.before, id);
    } else if id >= s.nextId {
      NoDeliveryBeforeInsertion(cfg, r.before, id);
    }
    if Saves(cfg, s, a, id) {
      CopyWasRead(cfg, r.before, a.pid);
      NoPullsBefore(cfg, r.before, id, a.pid);
      NeverPulled(cfg, ReadAt(cfg, r.before, a.pid), id);
    }
    UnpulledStep(cfg, s, a, id, SharedDeliveries(cfg, r.before, id));
  }

  /** A submission that was never pulled is delivered to its push grader at most once, exactly if no two
      deliveries of it overlap. */
  lemma {:induction false} PushGetsOneChanceUnderOverlap(cfg: Config, r: Schedule, id: Id)
    requires SharedPulls(cfg, r, id) == []
    ensures SharedDeliveries(cfg, r, id) <= 1 <==> DeliveredAlone(cfg, r, id)
  {
    if r.Next? {
      PushGetsOneChanceUnderOverlap(cfg, r.before, id);
      if SavesDelivery(cfg, Shared(cfg, r.before), r.act, id) {
        CopyWasRead(cfg, r.before, r.act.pid);
        NoPullsBefore(cfg, r.before, id, r.act.pid);
        NeverPulled(cfg, ReadAt(cfg, r.before, r.act.pid), id);
      }
    }
  }

  // ------------------------------------------------------- nothing retires unaccounted for

  predicate SaveGives(st: Step, reason: Accounting.Reason) {
    (st.Deliver? && reason == Accounting.Push) || (st.RetireOld? && reason == Accounting.Age)
  }

  /** The result reopens the row. */
  predicate LockedReopens(cfg: Config, s: SharedState, a: Act, id: Id) {
    Fails(cfg, s, a, id) && s.rows[id].retired && s.rows[id].failures + 1 <= cfg.maxFailures
  }

  /** The reason was given on the row's line of saves, since the row last reopened. */
  ghost function ReasonOnLine(cfg: Config, r: Schedule, id: Id, reason: Accounting.Reason): bool
    decreases Length(r)
  {
    match r
    case Idle => false
    case Next(before, a) =>
      var s := Shared(cfg, before);
      if Saves(cfg, s, a, id) then
        SaveGives(a.step, reason) || ReasonOnLine(cfg, ReadAt(cfg, before, a.pid), id, reason)
      else
        (a.Invalidate? && reason == Accounting.Supersession && id in Live(s.rows, CallbackKey(a.callback)))
        || (ReasonOnLine(cfg, before, id, reason) && !LockedReopens(cfg, s, a, id))
  }

  lemma {:induction false} NoReasonBeforeInsertion(cfg: Config, r: Schedule, id: Id, reason: Accounting.Reason)
    requires id >= Shared(cfg, r).nextId
    ensures !ReasonOnLine(cfg, r, id, reason)
  {
    if r.Next? {
      var s := Shared(cfg, r.before);
      NoReasonBeforeInsertion(cfg, r.before, id, reason);
      if Saves(cfg, s, r.act, id) { CopiesAreNumbered(cfg, r.before, r.act.pid); }
      if id in s.rows { RowsAreNumbered(cfg, r.before, id); }
    }
  }

  ghost predicate HasReason(cfg: Config, r: Schedule, id: Id) {
    exists reason :: ReasonOnLine(cfg, r, id, reason)
  }

  /** Retired with an acknowledgement, used-up failures or a reason; and with a reason, retired. */
  predicate AccountedFor(cfg: Config, row: Row, reasons: bool) {
    && (row.retired ==> row.lmsAck || row.failures >= cfg.maxFailures || reasons)
    && (reasons ==> row.retired)
  }

  lemma SavedAccounted(cfg: Config, st: Step, id: Id, row: Row)
    requires Guard(cfg, st, row)
    requires st.Pull? || st.Deliver? || st.RetireFailed? || st.RetireOld?
    ensures AccountedFor(cfg, Saved(cfg, st, id, row), st.Deliver? || st.RetireOld?)
  {
  }

  lemma KeptAccounted(cfg: Config, s: SharedState, a: Act, id: Id, reasons: bool)
    requires id in s.rows && id < s.nextId && id in Perform(cfg, s, a).rows && !Saves(cfg, s, a, id)
    requires AccountedFor(cfg, s.rows[id], reasons)
    ensures var supersedes := a.Invalidate? && id in Live(s.rows, CallbackKey(a.callback));
            AccountedFor(cfg, Perform(cfg, s, a).rows[id],
                         supersedes || (reasons && !LockedReopens(cfg, s, a, id)))
  {
  }

  /** The reasons on a row's line after an act are those before it, and what the act adds or takes. */
  lemma ReasonsAfterKept(cfg: Config, r: Schedule, id: Id)
    requires r.Next? && !Saves(cfg, Shared(cfg, r.before), r.act, id)
    ensures var s, a := Shared(cfg, r.before), r.act;
            HasReason(cfg, r, id)
            <==> (a.Invalidate? && id in Live(s.rows, CallbackKey(a.callback)))
                 || (HasReason(cfg, r.before, id) && !LockedReopens(cfg, s, a, id))
  {
    var s, a := Shared(cfg, r.before), r.act;
    if a.Invalidate? && id in Live(s.rows, CallbackKey(a.callback)) {
      assert ReasonOnLine(cfg, r, id, Accounting.Supersession);
    }
    if HasReason(cfg, r.before, id) && !LockedReopens(cfg, s, a, id) {
      var reason :| ReasonOnLine(cfg, r.before, id, reason);
      assert ReasonOnLine(cfg, r, id, reason);
    }
    if HasReason(cfg, r, id) {
      var reason :| ReasonOnLine(cfg, r, id, reason);
      assert ReasonOnLine(cfg, r.before, id, reason) || a.Invalidate?;
    }
  }

  lemma ReasonsAfterSave(cfg: Config, r: Schedule, id: Id)
    requires r.Next? && Saves(cfg, Shared(cfg, r.before), r.act, id)
    requires !HasReason(cfg, ReadAt(cfg, r.before, r.act.pid), id)
    ensures HasReason(cfg, r, id) <==> r.act.step.Deliver? || r.act.step.RetireOld?
  {
    if HasReason(cfg, r, id) {
      var reason :| ReasonOnLine(cfg, r, id, reason);
      assert !ReasonOnLine(cfg, ReadAt(cfg, r.before, r.act.pid), id, reason);
    }
    if r.act.step.Deliver? { assert ReasonOnLine(cfg, r, id, Accounting.Push); }
    if r.act.step.RetireOld? { assert ReasonOnLine(cfg, r, id, Accounting.Age); }
  }

  /** However handlers overlap: a retired row was acknowledged, or used up its failures, or on its line of saves
      was superseded, pushed or aged out since it last reopened; and a row with such a reason is retired. */
  lemma {:induction false} NothingRetiresUnaccountedUnderOverlap(cfg: Config, r: Schedule, id: Id)
    requires id in Shared(cfg, r).rows
    ensures AccountedFor(cfg, Shared(cfg, r).rows[id], HasReason(cfg, r, id))
    decreases Length(r)
  {
    var s, a := Shared(cfg, r.before), r.act;
    if Saves(cfg, s, a, id) {
      CopyWasRead(cfg, r.before, a.pid);
      NothingRetiresUnaccountedUnderOverlap(cfg, ReadAt(cfg, r.before, a.pid), id);
      ReasonsAfterSave(cfg, r, id);
      SavedAccounted(cfg, a.step, id, s.pending[a.pid].row);
    } else {
      ReasonsAfterKept(cfg, r, id);
      if id in s.rows {
        RowsAreNumbered(cfg, r.before, id);
        NothingRetiresUnaccountedUnderOverlap(cfg, r.before, id);
        KeptAccounted(cfg, s, a, id, HasReason(cfg, r.before, id));
      } else {
        FirstInserted(cfg, r, id);
      }
    }
  }

  lemma FirstInserted(cfg: Config, r: Schedule, id: Id)
    requires r.Next? && id in Shared(cfg, r).rows && id !in Shared(cfg, r.before).rows
    requires !Saves(cfg, Shared(cfg, r.before), r.act, id)
    ensures !HasReason(cfg, r.before, id) && !Shared(cfg, r).rows[id].retired
  {
    forall reason ensures !ReasonOnLine(cfg, r.before, id, reason) {
      NoReasonBeforeInsertion(cfg, r.before, id, reason);
    }
  }

  // ------------------------------------------------------------- old rows that come back

  /** From `base` on, submissions arrive after the cut-off. */
  ghost predicate Continues(r: Schedule, base: Schedule, cutoff: int) {
    r == base
    || (r.Next? && Continues(r.before, base, cutoff)
        && (r.act.Insert? && r.act.step.Submit? ==> r.act.step.at > cutoff))
  }

  function OldRemovedBy(cfg: Config, s: SharedState, a: Act, cutoff: int): set<Id> {
    if a.Remove? then DeleteOld.OldRows(s.rows, cutoff) * a.ids else {}
  }

  /** A save of an old row that was removed since it was read. */
  function OldReinsertedBy(cfg: Config, s: SharedState, a: Act, cutoff: int): set<Id> {
    if a.Finish? && CanAct(cfg, s, a) && s.pending[a.pid].id !in s.rows && s.pending[a.pid].row.arrival <= cutoff
    then {s.pending[a.pid].id} else {}
  }

  function OldRemoved(cfg: Config, r: Schedule, base: Schedule, cutoff: int): nat {
    if r == base || r.Idle? then 0
    else OldRemoved(cfg, r.before, base, cutoff) + |OldRemovedBy(cfg, Shared(cfg, r.before), r.act, cutoff)|
  }

  function OldReinserted(cfg: Config, r: Schedule, base: Schedule, cutoff: int): nat {
    if r == base || r.Idle? then 0
    else OldReinserted(cfg, r.before, base, cutoff) + |OldReinsertedBy(cfg, Shared(cfg, r.before), r.act, cutoff)|
  }

  lemma OldRowsChange(cfg: Config, r: Schedule, cutoff: int)
    requires r.Next? && (r.act.Insert? && r.act.step.Submit? ==> r.act.step.at > cutoff)
    ensures var s := Shared(cfg, r.before);
            var old_, removed := DeleteOld.OldRows(s.rows, cutoff), OldRemovedBy(cfg, s, r.act, cutoff);
            && DeleteOld.OldRows(Shared(cfg, r).rows, cutoff) == old_ - removed + OldReinsertedBy(cfg, s, r.act, cutoff)
            && removed <= old_ && OldReinsertedBy(cfg, s, r.act, cutoff) !! old_
  {
    var s := Shared(cfg, r.before);
    forall id: Id
      ensures id in DeleteOld.OldRows(Shared(cfg, r).rows, cutoff)
              <==> (id in DeleteOld.OldRows(s.rows, cutoff) && id !in OldRemovedBy(cfg, s, r.act, cutoff))
                   || id in OldReinsertedBy(cfg, s, r.act, cutoff)
    {
      if id in s.rows && id in Shared(cfg, r).rows { ArrivalStays(cfg, r, id); }
      OldRowAfter(cfg, s, r.act, cutoff, id);
    }
  }

  lemma ArrivalStays(cfg: Config, r: Schedule, id: Id)
    requires r.Next? && id in Shared(cfg, r.before).rows && id in Shared(cfg, r).rows
    ensures Shared(cfg, r).rows[id].arrival == Shared(cfg, r.before).rows[id].arrival
  {
    EveryInterleavingKeepsIdentity(cfg, r.before, id);
    EveryInterleavingKeepsIdentity(cfg, r, id);
    OriginIsFixed(cfg, r, id);
  }

  lemma OldRowAfter(cfg: Config, s: SharedState, a: Act, cutoff: int, id: Id)
    requires a.Insert? && a.step.Submit? ==> a.step.at > cutoff
    requires id in s.rows && id in Perform(cfg, s, a).rows ==> Perform(cfg, s, a).rows[id].arrival == s.rows[id].arrival
    ensures id in DeleteOld.OldRows(Perform(cfg, s, a).rows, cutoff)
            <==> (id in DeleteOld.OldRows(s.rows, cutoff) && id !in OldRemovedBy(cfg, s, a, cutoff))
                 || id in OldReinsertedBy(cfg, s, a, cutoff)
  {
  }

  /** While the deletion of old rows runs: those it removes are the ones there at the start, and again those that
      stale saves bring back.  So when none is left, the total is their number at the start plus theirs. */
  lemma {:induction false} ReinsertedRowsAreDeletedToo(cfg: Config, r: Schedule, base: Schedule, cutoff: int)
    requires Continues(r, base, cutoff)
    ensures |DeleteOld.OldRows(Shared(cfg, r).rows, cutoff)| + OldRemoved(cfg, r, base, cutoff)
            == |DeleteOld.OldRows(Shared(cfg, base).rows, cutoff)| + OldReinserted(cfg, r, base, cutoff)
  {
    if r != base {
      ReinsertedRowsAreDeletedToo(cfg, r.before, base, cutoff);
      OldRowsChange(cfg, r, cutoff);
      var s := Shared(cfg, r.before);
      CountChange(DeleteOld.OldRows(s.rows, cutoff), OldRemovedBy(cfg, s, r.act, cutoff),
                  OldReinsertedBy(cfg, s, r.act, cutoff));
    }
  }

  // ---------------------------------------------------------------- every queue its own rows

  /** Every pull and every delivery that is saved is of a row submitted to the queue it was made for, and a delivery
      leaves in the row the URL that the settings have for that queue. */
  predicate SharedHandoutsGoHome(cfg: Config, r: Schedule) {
    match r
    case Idle => true
    case Next(before, a) =>
      && SharedHandoutsGoHome(cfg, before)
      && (a.Finish? && CanAct(cfg, Shared(cfg, before), a) && (a.step.Pull? || a.step.Deliver?) ==>
            var id := Shared(cfg, before).pending[a.pid].id;
            && SharedSubmission(cfg, before, id).Some?
            && SharedSubmission(cfg, before, id).value.queue == a.step.queue
            && id in Shared(cfg, r).rows
            && (a.step.Deliver? ==>
                  a.step.queue in cfg.queues && cfg.queues[a.step.queue] == Some(Shared(cfg, r).rows[id].graderId)))
  }

  lemma {:induction false} EverySharedHandoutGoesHome(cfg: Config, r: Schedule)
    ensures SharedHandoutsGoHome(cfg, r)
  {
    if r.Next? {
      EverySharedHandoutGoesHome(cfg, r.before);
      if r.act.Finish? && CanAct(cfg, Shared(cfg, r.before), r.act) { CopiesKeepIdentity(cfg, r.before, r.act.pid); }
    }
  }
}
