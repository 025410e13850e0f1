/**
 * The installation and recovery procedures as they run: durable state changed one write at a
 * time, each write meeting its fate. Each method is proved against the function of Install it names.
 */
module InstallProcedure {
  import opened Prelude
  import opened Install

  /** How a procedure ended: an error is reported to the caller, a crash ends the process. */
  datatype Status = Success | Error | Crashed

  function StatusOf(fate: Fate): Status
  {
    match fate
    case Done => Success
    case CrashBefore => Crashed
    case CrashAfter => Crashed
    case _ => Error
  }

  class Machine {
    var config: Option<Content>
    var backups: map<Id, Content>
    var journal: Option<Journal>
    var marker: Option<Id>
    var users: map<Url, set<UserId>>

    constructor (h: Host)
      ensures State() == h
    {
      config, backups, journal, marker, users := h.config, h.backups, h.journal, h.marker, h.users;
    }

    function State(): Host
      reads this
    {
      Host(config, backups, journal, marker, users)
    }

    // ------------------------------------------------------------- durable writes

    method SetConfig(content: Option<Content>, fate: Fate) returns (status: Status)
      modifies this
      ensures State() == Written(old(State()), old(State()).(config := content), fate) && status == StatusOf(fate)
    {
      if Effective(fate) {
        config := content;
      }
      status := StatusOf(fate);
    }

    method SetJournal(j: Option<Journal>, fate: Fate) returns (status: Status)
      modifies this
      ensures State() == Written(old(State()), old(State()).(journal := j), fate) && status == StatusOf(fate)
    {
      if Effective(fate) {
        journal := j;
      }
      status := StatusOf(fate);
    }

    method SetBackups(contents: map<Id, Content>, fate: Fate) returns (status: Status)
      modifies this
      ensures State() == Written(old(State()), old(State()).(backups := contents), fate) && status == StatusOf(fate)
    {
      if Effective(fate) {
        backups := contents;
      }
      status := StatusOf(fate);
    }

    method SetMarker(installId: Id, fate: Fate) returns (status: Status)
      modifies this
      ensures State() == Written(old(State()), old(State()).(marker := Some(installId)), fate)
              && status == StatusOf(fate)
    {
      if Effective(fate) {
        marker := Some(installId);
      }
      status := StatusOf(fate);
    }

    method SetUsers(url: Url, ids: set<UserId>, fate: Fate) returns (status: Status)
      modifies this
      ensures State() == Written(old(State()), old(State()).(users := old(users)[url := ids]), fate)
              && status == StatusOf(fate)
    {
      if Effective(fate) {
        users := users[url := ids];
      }
      status := StatusOf(fate);
    }

    /** Changes the phase in memory first, then on disk. */
    method AdvanceJournal(j: Journal, phase: Phase, fate: Fate) returns (j': Journal, status: Status)
      modifies this
      ensures j' == j.(phase := phase) && status == StatusOf(fate)
      ensures State() == Written(old(State()), Advanced(old(State()), j, phase), fate)
    {
      j' := j.(phase := phase);
      status := SetJournal(Some(j'), fate);
    }

    // ------------------------------------------------------------------ recovery

    method CleanupArtifacts(j: Journal, f: RecoveryFates) returns (status: Status)
      modifies this
      ensures Outcome(State(), status.Success?) == Cleanup(old(State()), j, f)
    {
      status := SetBackups(backups - {j.installId}, f.removeBackup);
      if !status.Success? {
        return;
      }
      status := SetJournal(None, f.removeJournal);
    }

    method RestoreRuntimeConfig(j: Journal, fate: Fate) returns (status: Status)
      modifies this
      ensures match Restored(old(State()), j)
              case None => State() == old(State()) && status.Error?
              case Some(restored) => State() == Written(old(State()), restored, fate) && status == StatusOf(fate)
    {
      if j.installId !in backups || DigestOf(backups[j.installId]) != j.backupDigest {
        return Error;
      }
      status := SetConfig(if j.priorExists then Some(backups[j.installId]) else None, fate);
    }

    method RestoreFrom(j: Journal, f: RecoveryFates) returns (status: Status)
      modifies this
      ensures Outcome(State(), status.Success?) == RestoreConfig(old(State()), j, f)
    {
      status := RestoreRuntimeConfig(j, f.restore);
      if !status.Success? {
        return;
      }
      var j';
      j', status := AdvanceJournal(j, ConfigReverted, f.configReverted);
      if !status.Success? {
        return;
      }
      status := CleanupArtifacts(j', f);
    }

    method RevertAdminFrom(j: Journal, url: Url, f: RecoveryFates) returns (status: Status)
      modifies this
      ensures Outcome(State(), status.Success?) == RevertAdmin(old(State()), j, url, f)
    {
      status := SetUsers(url, UsersAt(users, url) - {j.adminId}, f.deleteAdmin);
      if !status.Success? {
        return;
      }
      var j';
      j', status := AdvanceJournal(j, AdminReverted, f.adminReverted);
      if !status.Success? {
        return;
      }
      status := RestoreFrom(j', f);
    }

    /** recoverInstallationLocked. */
    method RecoverInstallation(f: RecoveryFates) returns (status: Status)
      modifies this
      ensures Outcome(State(), status.Success?) == Recover(old(State()), f)
    {
      if journal.None? {
        return Success;
      }
      var j := journal.value;
      if marker.Some? {
        status := CleanupArtifacts(j, f);
        return;
      }
      match j.phase {
        case AdminPending =>
          if config.None? || config.value.databaseUrl.None? {
            return Error;
          }
          status := RevertAdminFrom(j, config.value.databaseUrl.value, f);
        case ConfigReverted =>
          status := CleanupArtifacts(j, f);
        case _ =>
          status := RestoreFrom(j, f);
      }
    }

    /** rollbackInstallBeforeMarker, on the journal as it stands in memory. */
    method RollBackBeforeMarker(j: Journal, url: Url, f: RecoveryFates) returns (status: Status)
      modifies this
      ensures Outcome(State(), status.Success?) == Rewind(old(State()), j, Some(url), f)
    {
      match j.phase {
        case AdminPending => status := RevertAdminFrom(j, url, f);
        case ConfigReverted => status := CleanupArtifacts(j, f);
        case _ => status := RestoreFrom(j, f);
      }
    }

    // -------------------------------------------------------------- installation

    /** failBeforeMarker: a failure rolls back, a crash cannot. */
    method FailBeforeMarker(cause: Status, j: Journal, url: Url, f: RecoveryFates) returns (status: Status)
      requires !cause.Success?
      modifies this
      ensures State() == (if cause.Crashed? then old(State()) else Rewind(old(State()), j, Some(url), f).host)
      ensures !status.Success?
    {
      if cause.Crashed? {
        return Crashed;
      }
      var rolledBack := RollBackBeforeMarker(j, url, f);
      return if rolledBack.Crashed? then Crashed else Error;
    }

    /** performInstall. */
    method InstallPlatform(setup: Setup, f: InstallFates) returns (status: Status)
      modifies this
      ensures Outcome(State(), status.Success?) == Perform(old(State()), setup, f)
    {
      status := RecoverInstallation(f.recovery);
      if !status.Success? {
        return;
      }
      if marker.Some? || !f.ready || UsersAt(users, setup.url) != {} {
        return Error;
      }
      var prior := if config.Some? then config.value else NO_CONTENT;
      var j := Journal(setup.installId, Prepared, setup.adminId, config.Some?, DigestOf(prior));
      status := SetBackups(backups[setup.installId := prior], f.backup);
      if !status.Success? {
        return;
      }
      status := SetJournal(Some(j), f.journal);
      if !status.Success? {
        if status.Error? {
          var dropped := SetBackups(backups - {setup.installId}, f.dropBackup);
        }
        return;
      }
      status := InstallUnderJournal(j, setup, f);
    }

    method InstallUnderJournal(j: Journal, setup: Setup, f: InstallFates) returns (status: Status)
      modifies this
      ensures Outcome(State(), status.Success?) == WriteConfig(old(State()), j, setup, f)
    {
      status := SetConfig(Some(NewConfig(setup)), f.config);
      if !status.Success? {
        status := FailBeforeMarker(status, j, setup.url, f.rollback);
        return;
      }
      var announced;
      announced, status := AdvanceJournal(j, AdminPending, f.adminPending);
      if !status.Success? {
        status := FailBeforeMarker(status, announced, setup.url, f.rollback);
        return;
      }
      if UsersAt(users, setup.url) != {} {
        status := FailBeforeMarker(Error, announced, setup.url, f.rollback);
        return;
      }
      status := SetUsers(setup.url, {setup.adminId}, f.admin);
      if !status.Success? {
        status := FailBeforeMarker(status, announced, setup.url, f.rollback);
        return;
      }
      if !f.locksHeld {
        status := FailBeforeMarker(Error, announced, setup.url, f.rollback);
        return;
      }
      status := SetMarker(setup.installId, f.marker);
      if !status.Success? {
        status := FailBeforeMarker(status, announced, setup.url, f.rollback);
        return;
      }
      status := CleanupArtifacts(announced, f.rollback);
    }
  }
}
