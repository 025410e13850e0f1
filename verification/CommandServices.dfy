/** The callers' side of the Command tables: commandservice Create and Cancel, commandresultservice Record. */
module CommandServices {
  import opened Prelude
  import opened Lifecycle
  import opened CommandRows
  import opened CommandStore
  import opened CommandReplay
  import opened CommandAdmission
  import T = CommandTransactions
  import System = CommandSystem

  datatype CreateResult =
    | Created(id: CommandId)
    | Replayed(id: CommandId)
    | IdempotencyKeyConflict
    | NotCreated(error: AdmissionError)

  datatype RecordResult =
    | Recorded(index: nat)
    | ResultReplayed(index: nat)
    | ResultConflict
    | CommandMissing
    | ResultRefused(error: T.TxError)

  class Services {
    const tables: Tables

    constructor (tables: Tables)
      ensures this.tables == tables
    {
      this.tables := tables;
    }

    predicate HasKey(id: CommandId, project: nat, key: string)
      requires tables.Valid() && id in tables.commands
      reads tables
      ensures HasKey(id, project, key) <==>
                tables.cells[id].command.project == project && tables.cells[id].command.idempotencyKey == key
    {
      tables.CellOf(id).command.project == project && tables.CellOf(id).command.idempotencyKey == key
    }

    method FindByKey(project: nat, key: string) returns (found: Option<CommandId>)
      requires tables.Valid()
      ensures found.Some? ==> found.value in tables.commands && HasKey(found.value, project, key)
      ensures found.None? <==> !System.IdempotencyKeyTaken(tables.cells, project, key)
    {
      for k := 0 to |tables.ids|
        invariant forall j :: 0 <= j < k ==> !HasKey(tables.ids[j], project, key)
      {
        if HasKey(tables.ids[k], project, key) {
          return Some(tables.ids[k]);
        }
      }
      return None;
    }

    /**
     * Create. Once the caller is known to see the Project, a replay is answered before any check
     * on the Device, so it succeeds whatever became of that.
     */
    method Create(newId: CommandId, scope: Scope, requested: Option<nat>, key: string, request: Request,
                  catalogue: Catalogue, now: int) returns (r: CreateResult)
      requires tables.Valid() && newId !in tables.cells
      modifies tables
      ensures tables.Valid()
      ensures !r.Created? ==> tables.cells == old(tables.cells)
      ensures ProjectFor(scope, requested).None? || !(1 <= |key| <= 128) ==> r == NotCreated(MalformedRequest)
      ensures ProjectFor(scope, requested).Some? && 1 <= |key| <= 128 ==>
                var project := ProjectFor(scope, requested).value;
                var admission := Admit(catalogue, project, request);
                if !Visible(scope, project, catalogue) then r == NotCreated(ProjectNotFound)
                else
                  match r
                  case Created(id) =>
                    && id == newId && !System.IdempotencyKeyTaken(old(tables.cells), project, key)
                    && admission.Admitted?
                    && tables.cells
                       == old(tables.cells)[newId :=
                            T.NewCell(project, key, request, admission.provider, admission.policy, now)]
                  case Replayed(id) =>
                    id in tables.commands && HasKey(id, project, key) && tables.commands[id].request == request
                  case IdempotencyKeyConflict =>
                    exists id :: id in tables.commands && HasKey(id, project, key)
                      && tables.commands[id].request != request
                  case NotCreated(error) =>
                    !System.IdempotencyKeyTaken(old(tables.cells), project, key) && admission == Refused(error)
      ensures (forall project: nat :: !Addressed(scope, requested, project)) || !(1 <= |key| <= 128) ==>
                r == NotCreated(MalformedRequest)
      ensures forall project: nat :: Addressed(scope, requested, project) && 1 <= |key| <= 128 ==>
                if !MaySee(scope, project, catalogue) then r == NotCreated(ProjectNotFound)
                else
                  && (r.Created? ==> tables.Valid() && newId in tables.cells
                                     && IsAdmitted(tables.cells[newId], catalogue, project, key, request, now))
                  && (r.NotCreated? ==> FirstFailing(catalogue, project, request, r.error))
                  && (r.Replayed? || r.IdempotencyKeyConflict? ==>
                        System.IdempotencyKeyTaken(old(tables.cells), project, key))
    {
      ScopeMeaning(scope, requested, catalogue);
      var target := ProjectFor(scope, requested);
      if target.None? || |key| < 1 || |key| > 128 {
        return NotCreated(MalformedRequest);
      }
      var project := target.value;
      if !Visible(scope, project, catalogue) {
        return NotCreated(ProjectNotFound);
      }
      var existing := FindByKey(project, key);
      if existing.Some? {
        if tables.commands[existing.value].request != request {
          return IdempotencyKeyConflict;
        }
        return Replayed(existing.value);
      }
      var admission := Admit(catalogue, project, request);
      AdmitMeaning(catalogue, project, request);
      if admission.Refused? {
        return NotCreated(admission.error);
      }
      tables.Insert(newId, T.NewCell(project, key, request, admission.provider, admission.policy, now));
      return Created(newId);
    }

    /** A Command whose Project the caller may not see is not found; a visible one is cancelled or not cancellable. */
    method Cancel(id: CommandId, scope: Scope, catalogue: Catalogue, now: int) returns (found: bool, cancelled: bool)
      requires tables.Valid()
      modifies tables
      ensures found == (id in old(tables.cells) && Visible(scope, old(tables.cells)[id].command.project, catalogue))
      ensures cancelled == (found && T.Cancel(old(tables.cells)[id], now).Commit?)
      ensures if cancelled then tables.Wrote(id, T.Cancel(old(tables.cells)[id], now).cell)
              else tables.Valid() && tables.cells == old(tables.cells)
    {
      if id !in tables.commands || !Visible(scope, tables.commands[id].project, catalogue) {
        return false, false;
      }
      var from := tables.commands[id].status;
      var saved := tables.Begin();
      cancelled := tables.FinishQueued(id, Cancelled, CancelledByRequest, false, now);
      if cancelled {
        tables.AppendEvent(id, T.StatusEvent(tables.CellOf(id), from));
      } else {
        tables.RollBack(saved, old(tables.cells));
      }
      return true, cancelled;
    }

    /** The position of the stored Result with that source and key, among all Commands. */
    method FindResult(source: EventSource, key: string) returns (found: Option<(CommandId, nat)>)
      requires tables.Valid()
      ensures found.Some? ==>
                Stored(tables.cells, found.value.0, found.value.1)
                && System.ResultAt(tables.cells, found.value.0, found.value.1, source, key)
      ensures found.None? <==> !System.ResultKeyTaken(tables.cells, source, key)
    {
      for k := 0 to |tables.ids|
        invariant forall j, i: nat :: 0 <= j < k && i < |tables.cells[tables.ids[j]].results| ==>
                    !System.ResultAt(tables.cells, tables.ids[j], i, source, key)
      {
        var id := tables.ids[k];
        var rows := tables.CellOf(id).results;
        for i := 0 to |rows|
          invariant forall j: nat :: j < i ==> !System.ResultAt(tables.cells, id, j, source, key)
        {
          if rows[i].source == source && rows[i].deduplicationKey == key {
            assert System.ResultAt(tables.cells, id, i, source, key);
            return Some((id, i));
          }
        }
      }
      return None;
    }

    method Record(id: CommandId, report: T.ResultReport, clock: int) returns (r: RecordResult)
      requires tables.Valid()
      modifies tables
      ensures tables.Valid()
      ensures !r.Recorded? ==> tables.cells == old(tables.cells)
      ensures !T.ReportValid(report, clock) ==> r == ResultRefused(T.RequestInvalid)
      ensures T.ReportValid(report, clock) ==>
                match r
                case CommandMissing => id !in old(tables.cells)
                case Recorded(index) =>
                  && id in old(tables.cells) && index == |old(tables.cells)[id].results|
                  && !System.ResultKeyTaken(old(tables.cells), report.source, report.deduplicationKey)
                  && T.RecordNew(old(tables.cells)[id], report, clock).Commit?
                  && tables.Wrote(id, T.RecordNew(old(tables.cells)[id], report, clock).cell)
                case ResultReplayed(index) =>
                  && id in tables.cells && index < |tables.cells[id].results|
                  && System.ResultAt(tables.cells, id, index, report.source, report.deduplicationKey)
                  && SameResult(tables.cells[id].results[index], id, id, report)
                case ResultConflict =>
                  exists owner, i: nat :: Conflicting(tables.cells, owner, i, id, report)
                case ResultRefused(e) =>
                  && id in tables.cells && !System.ResultKeyTaken(tables.cells, report.source, report.deduplicationKey)
                  && T.RecordNew(tables.cells[id], report, clock) == T.Rollback(e)
    {
      if !T.ReportValid(report, clock) {
        return ResultRefused(T.RequestInvalid);
      }
      if id !in tables.commands {
        return CommandMissing;
      }
      var existing := FindResult(report.source, report.deduplicationKey);
      if existing.Some? {
        var (owner, i) := existing.value;
        if !SameResult(tables.CellOf(owner).results[i], owner, id, report) {
          assert Conflicting(tables.cells, owner, i, id, report);
          return ResultConflict;
        }
        return ResultReplayed(i);
      }
      r := RecordFresh(id, report, clock);
    }

    /** The part of Record after the deduplication lookup found nothing. */
    method RecordFresh(id: CommandId, report: T.ResultReport, clock: int) returns (r: RecordResult)
      requires tables.Valid() && id in tables.commands && T.ReportValid(report, clock)
      modifies tables
      ensures tables.Valid()
      ensures match T.RecordNew(old(tables.cells)[id], report, clock)
              case Commit(c, _) => r == Recorded(|old(tables.cells)[id].results|) && tables.Wrote(id, c)
              case Rollback(e) => r == ResultRefused(e) && tables.cells == old(tables.cells)
    {
      var saved := tables.Begin();
      var index := |tables.results[id]|;
      var result := T.ResultOf(tables.CellOf(id), report, clock);
      tables.SetResults(id, tables.results[id] + [result]);
      var applied := tables.ApplyResult(id, result);
      if !applied {
        tables.RollBack(saved, old(tables.cells));
        return ResultRefused(T.RequestInvalid);
      }
      tables.AppendEvent(id, ResultRecorded(tables.commands[id].status, index, result.outcome, result.late));
      return Recorded(index);
    }
  }

  /** A Command that was just created: it waits, with nothing confirmed, for as long as its policy lets it. */
  predicate NewRow(c: Cell, project: nat, key: string, request: Request, now: int)
  {
    var policy := c.command.policy;
    c == Cell(Command(project, key, request, c.command.provider, policy, Queued, None, Unconfirmed, NoEvidence, now,
                      now + policy.dispatchDeadline, None, None, None, now),
              [], [], [CommandCreated(Queued)])
  }

  ghost predicate IsAdmitted(c: Cell, catalogue: Catalogue, project: nat, key: string, request: Request, now: int)
  {
    && NewRow(c, project, key, request, now)
    && Admissible(catalogue, project, request, c.command.provider, c.command.policy)
  }

  ghost predicate Conflicting(cells: map<CommandId, Cell>, owner: CommandId, i: nat, id: CommandId,
                              report: T.ResultReport)
  {
    && Stored(cells, owner, i)
    && System.ResultAt(cells, owner, i, report.source, report.deduplicationKey)
    && !SameResult(cells[owner].results[i], owner, id, report)
  }
}
