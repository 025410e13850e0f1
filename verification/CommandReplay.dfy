/**
 * Idempotency over whole runs: a Create or a Record that once took effect is found again by
 * its key in every later state, and no second Command or Result ever takes the same key.
 */
module CommandReplay {
  import opened Prelude
  import opened Lifecycle
  import opened CommandRows
  import opened CommandTransactions
  import opened CommandInvariant
  import opened CommandHistory
  import opened CommandSystem

  /** sameResult: what a repeated report has to agree with; the two instants are not compared. */
  predicate SameResult(stored: CommandResult, owner: CommandId, id: CommandId, report: ResultReport)
  {
    && owner == id && stored.source == report.source && stored.outcome == report.outcome
    && stored.confirmation == ReportedConfirmation(report.outcome) && stored.evidence.Verified?
    && stored.attempt == report.attempt && stored.payload == report.payload
  }

  /** A repeated report agrees exactly if it would store the same row, its two instants and lateness aside. */
  lemma SameResultMeaning(stored: CommandResult, owner: CommandId, id: CommandId, report: ResultReport)
    ensures SameResult(stored, owner, id, report) <==>
              owner == id
              && stored == CommandResult(report.attempt, report.source, report.outcome,
                                         if report.outcome == AckReported then DeviceAcked else DeviceFinal, Verified,
                                         stored.deduplicationKey, stored.reportedAt, stored.observedAt, stored.late,
                                         report.payload)
  {
  }

  predicate Stored(cells: map<CommandId, Cell>, id: CommandId, i: nat)
  {
    id in cells && i < |cells[id].results|
  }

  predicate SameKeys(r: CommandResult, r': CommandResult)
  {
    r.source == r'.source && r.deduplicationKey == r'.deduplicationKey
  }

  /** No two stored Results share a source and deduplication key. */
  ghost predicate ResultKeysOk(cells: map<CommandId, Cell>)
  {
    forall id, i: nat, id', i': nat ::
      Stored(cells, id, i) && Stored(cells, id', i') && SameKeys(cells[id].results[i], cells[id'].results[i'])
      ==> id == id' && i == i'
  }

  lemma OnlyRecordStores(c: Cell, op: CellOp)
    requires RowsOk(c)
    ensures !op.DoRecord? ==> Step(c, op).results == c.results
    ensures op.DoRecord? ==>
              || Step(c, op).results == c.results
              || Step(c, op).results == c.results + [ResultOf(c, op.report, op.now)]
  {
    match op
    case DoPersist(attempt, token, result, now) =>
      if PersistResult(c, attempt, token, result, now).Commit? {
        PersistClosedForm(c, attempt, token, result, now);
      }
    case DoFailBefore(attempt, token, reason, now) =>
      if FailBeforeDispatch(c, attempt, token, reason, now).Commit? {
        FailClaimedClosedForm(c, attempt, token, InvalidRequest, reason, now);
      }
    case DoCommitDispatch(attempt, token, online, lease, now) =>
      if FailClaimed(c, attempt, token, NotDispatched, DeviceNotOnline, now).Commit? {
        FailClaimedClosedForm(c, attempt, token, NotDispatched, DeviceNotOnline, now);
      }
    case _ =>
  }

  /** The results of `cells'` are those of `cells`, perhaps with one added to Command `id` under an unused key. */
  ghost predicate ResultStep(cells: map<CommandId, Cell>, cells': map<CommandId, Cell>, id: CommandId)
  {
    && (forall other :: other in cells' && other != id ==>
          cells'[other].results == if other in cells then cells[other].results else [])
    && (id in cells' ==>
          || (id !in cells && cells'[id].results == [])
          || (id in cells && cells'[id].results == cells[id].results)
          || (id in cells && |cells'[id].results| == |cells[id].results| + 1 && cells[id].results < cells'[id].results
              && !ResultKeyTaken(cells, cells'[id].results[|cells[id].results|].source,
                                 cells'[id].results[|cells[id].results|].deduplicationKey)))
  }

  lemma ApplyIsResultStep(s: Sys, a: Action)
    requires forall id :: id in s.cells ==> RowsOk(s.cells[id])
    ensures exists id :: ResultStep(s.cells, CellsAfter(s, a), id)
  {
    if a.Create? {
      assert ResultStep(s.cells, CellsAfter(s, a), a.id);
    } else if OpOf(s, a).Some? {
      var (id, op) := OpOf(s, a).value;
      OnlyRecordStores(s.cells[id], op);
      assert ResultStep(s.cells, CellsAfter(s, a), id);
    } else {
      assert ResultStep(s.cells, CellsAfter(s, a), 0);
    }
  }

  lemma ResultStepKeeps(cells: map<CommandId, Cell>, cells': map<CommandId, Cell>, id: CommandId)
    requires ResultKeysOk(cells) && ResultStep(cells, cells', id)
    ensures ResultKeysOk(cells')
  {
    forall k, i: nat, k', i': nat | Stored(cells', k, i) && Stored(cells', k', i')
                                    && SameKeys(cells'[k].results[i], cells'[k'].results[i'])
      ensures k == k' && i == i'
    {
      if Stored(cells, k, i) && Stored(cells, k', i') {
        assert cells'[k].results[i] == cells[k].results[i] && cells'[k'].results[i'] == cells[k'].results[i'];
      } else if Stored(cells, k, i) {
        assert ResultAt(cells, k, i, cells'[k].results[i].source, cells'[k].results[i].deduplicationKey);
      } else if Stored(cells, k', i') {
        assert ResultAt(cells, k', i', cells'[k'].results[i'].source, cells'[k'].results[i'].deduplicationKey);
      }
    }
  }

  /** In every run no two stored Results share a source and deduplication key. */
  lemma {:induction false} ResultKeysNeverRepeat(actions: seq<Action>)
    ensures ResultKeysOk(Execute(actions).cells)
    decreases |actions|
  {
    if actions == [] {
    } else {
      var before, a := Execute(actions[..|actions| - 1]), actions[|actions| - 1];
      ResultKeysNeverRepeat(actions[..|actions| - 1]);
      ExecuteKeepsSysOk(actions[..|actions| - 1]);
      assert forall id :: id in before.cells ==> CellOk(before.cells[id]);
      ApplyIsResultStep(before, a);
      var id :| ResultStep(before.cells, CellsAfter(before, a), id);
      ResultStepKeeps(before.cells, CellsAfter(before, a), id);
    }
  }

  lemma RecordStores(s: Sys, id: CommandId, report: ResultReport, now: int)
    requires id in s.cells && RecordNew(s.cells[id], report, now).Commit?
    requires !ResultKeyTaken(s.cells, report.source, report.deduplicationKey)
    ensures var cells := Apply(s, Unattended(id, DoRecord(report, now))).cells;
            id in cells && cells[id].results == s.cells[id].results + [ResultOf(s.cells[id], report, now)]
  {
    assert OpOf(s, Unattended(id, DoRecord(report, now))) == Some((id, DoRecord(report, now)));
  }

  /**
   * A recorded Result is found again by its key in every later state, it agrees with the same
   * report made again, and it is the only Result with that key.
   */
  lemma RecordedResultIsFoundAgain(earlier: seq<Action>, id: CommandId, report: ResultReport, now: int,
                                   later: seq<Action>)
    requires id in Execute(earlier).cells
    requires !ResultKeyTaken(Execute(earlier).cells, report.source, report.deduplicationKey)
    requires RecordNew(Execute(earlier).cells[id], report, now).Commit?
    ensures var i := |Execute(earlier).cells[id].results|;
            var cells := Execute(earlier + [Unattended(id, DoRecord(report, now))] + later).cells;
            && Stored(cells, id, i)
            && ResultAt(cells, id, i, report.source, report.deduplicationKey)
            && SameResult(cells[id].results[i], id, id, report)
            && forall id', i': nat :: Stored(cells, id', i')
                 && ResultAt(cells, id', i', report.source, report.deduplicationKey)
                 ==> id' == id && i' == i
  {
    var record := Unattended(id, DoRecord(report, now));
    var s, after, last := Execute(earlier), Execute(earlier + [record]), Execute(earlier + [record] + later);
    ExecuteOneMore(earlier, record);
    RecordStores(s, id, report, now);
    var i := |s.cells[id].results|;
    assert after.cells[id].results[i] == ResultOf(s.cells[id], report, now);
    RunsAdvance(earlier + [record], later);
    assert Advances(after.cells[id], last.cells[id]);
    ResultKeysNeverRepeat(earlier + [record] + later);
  }

  /**
   * A created Command is found again by its Project and idempotency key in every later state,
   * with the request and policy it was created with, and it is the only Command with that key.
   */
  lemma CreatedCommandIsFoundAgain(earlier: seq<Action>, create: Action, later: seq<Action>)
    requires create.Create? && create.id !in Execute(earlier).cells
    requires !IdempotencyKeyTaken(Execute(earlier).cells, create.project, create.key)
    ensures var cells := Execute(earlier + [create] + later).cells;
            && create.id in cells
            && cells[create.id].command.project == create.project
            && cells[create.id].command.idempotencyKey == create.key
            && cells[create.id].command.request == create.request
            && cells[create.id].command.policy == create.policy
            && forall id :: id in cells && SameKey(cells[id].command, cells[create.id].command) ==> id == create.id
  {
    ExecuteOneMore(earlier, create);
    RunsAdvance(earlier + [create], later);
    assert Advances(Execute(earlier + [create]).cells[create.id], Execute(earlier + [create] + later).cells[create.id]);
    ExecuteKeepsSysOk(earlier + [create] + later);
  }
}
