/** When installation is all-or-nothing, over any installations and recoveries that fail, tear or crash anywhere. */
module InstallSafety {
  import opened Prelude
  import opened Install

  /** The configuration and the users before anything was installed. */
  datatype Base = Base(config: Option<Content>, users: map<Url, set<UserId>>)

  ghost predicate SameUsers(users: map<Url, set<UserId>>, users': map<Url, set<UserId>>)
  {
    forall url :: UsersAt(users, url) == UsersAt(users', url)
  }

  ghost predicate Untouched(h: Host, base: Base)
  {
    h.config == base.config && SameUsers(h.users, base.users)
  }

  function BaseContent(base: Base): Content
  {
    if base.config.Some? then base.config.value else NO_CONTENT
  }

  /** The backup that the journal names still holds the prior configuration. */
  predicate BackupIntact(h: Host, j: Journal, base: Base)
  {
    && j.priorExists == base.config.Some? && j.backupDigest == DigestOf(BaseContent(base))
    && j.installId in h.backups && h.backups[j.installId] == BaseContent(base)
  }

  /** No marker: the prior state holds, or the journal says how to get back to it. */
  ghost predicate Pending(h: Host, base: Base)
  {
    && h.marker.None?
    && match h.journal
       case None => Untouched(h, base)
       case Some(j) =>
         match j.phase
         case AdminPending =>
           && BackupIntact(h, j, base) && ConfiguredUrl(h).Some?
           && SameUsers(AdminDeleted(h, ConfiguredUrl(h).value, j.adminId).users, base.users)
         case ConfigReverted => Untouched(h, base)
         case _ => BackupIntact(h, j, base) && SameUsers(h.users, base.users)
  }

  /** Marker, administrator and new configuration all hold, and the configuration names the administrator's database. */
  ghost predicate Committed(h: Host, base: Base, setup: Setup)
  {
    && h.marker.Some?
    && h.config == Some(NewConfig(setup)) && ReadsBack(setup)
    && UsersAt(base.users, setup.url) == {}
    && UsersAt(h.users, setup.url) == {setup.adminId}
    && forall other :: other != setup.url ==> UsersAt(h.users, other) == UsersAt(base.users, other)
  }

  ghost predicate Sound(h: Host, base: Base, setups: set<Setup>)
  {
    Pending(h, base) || exists setup :: setup in setups && Committed(h, base, setup)
  }

  // ------------------------------------------------------------------ recovery

  lemma CleanupKeeps(h: Host, j: Journal, base: Base, f: RecoveryFates)
    requires h.marker.None? ==>
               Pending(h, base) && Untouched(h, base) && h.journal == Some(j) && j.phase.ConfigReverted?
    ensures var r := Cleanup(h, j, f);
            && (h.marker.None? ==> Pending(r.host, base))
            && r.host.marker == h.marker && r.host.config == h.config && r.host.users == h.users
            && (r.ok ==> r.host.journal.None?)
            && (f == NO_FAULTS ==> r.ok)
  {
  }

  lemma RestoreConfigKeeps(h: Host, j: Journal, base: Base, f: RecoveryFates)
    requires Pending(h, base) && h.journal == Some(j) && (j.phase.Prepared? || j.phase.AdminReverted?)
    ensures var r := RestoreConfig(h, j, f);
            Pending(r.host, base) && (r.ok ==> r.host.journal.None?) && (f == NO_FAULTS ==> r.ok)
  {
    var h1 := Written(h, Restored(h, j).value, f.restore);
    if f.restore.Done? {
      assert Untouched(h1, base);
      if f.configReverted.Done? {
        CleanupKeeps(Advanced(h1, j, ConfigReverted), j.(phase := ConfigReverted), base, f);
      }
    }
  }

  lemma RevertAdminKeeps(h: Host, j: Journal, url: Url, base: Base, f: RecoveryFates)
    requires Pending(h, base) && h.journal == Some(j) && j.phase.AdminPending? && ConfiguredUrl(h) == Some(url)
    ensures var r := RevertAdmin(h, j, url, f);
            Pending(r.host, base) && (r.ok ==> r.host.journal.None?) && (f == NO_FAULTS ==> r.ok)
  {
    var h1 := Written(h, AdminDeleted(h, url, j.adminId), f.deleteAdmin);
    assert Pending(h1, base);
    if f.deleteAdmin.Done? {
      assert SameUsers(h1.users, base.users);
      var h2 := Written(h1, Advanced(h1, j, AdminReverted), f.adminReverted);
      if f.adminReverted.Done? {
        RestoreConfigKeeps(h2, j.(phase := AdminReverted), base, f);
      }
    }
  }

  lemma RecoverKeeps(h: Host, base: Base, setups: set<Setup>, f: RecoveryFates)
    requires Sound(h, base, setups)
    ensures Sound(Recover(h, f).host, base, setups)
    ensures Recover(h, f).ok ==> Recover(h, f).host.journal.None?
    ensures f == NO_FAULTS ==> Recover(h, f).ok
    ensures Recover(h, f).host.marker == h.marker
  {
    if h.journal.Some? {
      var j := h.journal.value;
      if h.marker.Some? {
        CleanupKeeps(h, j, base, f);
        var setup :| setup in setups && Committed(h, base, setup);
        assert Committed(Recover(h, f).host, base, setup);
      } else {
        match j.phase
        case AdminPending => RevertAdminKeeps(h, j, ConfiguredUrl(h).value, base, f);
        case ConfigReverted => CleanupKeeps(h, j, base, f);
        case _ => RestoreConfigKeeps(h, j, base, f);
      }
    }
  }

  // ----------------------------------------------- what going back may change at all

  lemma CleanupEffect(h: Host, j: Journal, f: RecoveryFates)
    ensures var h' := Cleanup(h, j, f).host;
            && h'.users == h.users && h'.marker == h.marker && h'.config == h.config
            && (h'.journal.None? || h'.journal == h.journal)
  {
  }

  lemma RestoreConfigEffect(h: Host, j: Journal, f: RecoveryFates)
    ensures var h' := RestoreConfig(h, j, f).host;
            && h'.users == h.users && h'.marker == h.marker
            && (h'.journal.None? || h'.journal == h.journal || h'.journal == Some(j.(phase := ConfigReverted)))
  {
    if Restored(h, j).Some? {
      var h1 := Written(h, Restored(h, j).value, f.restore);
      var h2 := Written(h1, Advanced(h1, j, ConfigReverted), f.configReverted);
      CleanupEffect(h2, j.(phase := ConfigReverted), f);
    }
  }

  lemma RewindEffect(h: Host, j: Journal, url: Option<Url>, f: RecoveryFates)
    ensures var h' := Rewind(h, j, url, f).host;
            && h'.marker == h.marker
            && h'.users == (if j.phase.AdminPending? && url.Some? && Effective(f.deleteAdmin) then
                              AdminDeleted(h, url.value, j.adminId).users else h.users)
            && (|| h'.journal.None? || h'.journal == h.journal
                || (h'.journal.value.adminId == j.adminId && !h'.journal.value.phase.AdminPending?))
            && (h'.journal == h.journal == Some(j) && j.phase.AdminPending? ==> h'.config == h.config)
  {
    match j.phase
    case ConfigReverted => CleanupEffect(h, j, f);
    case AdminPending =>
      if url.Some? && f.deleteAdmin.Done? {
        var h1 := AdminDeleted(h, url.value, j.adminId);
        var h2 := Written(h1, Advanced(h1, j, AdminReverted), f.adminReverted);
        RestoreConfigEffect(h2, j.(phase := AdminReverted), f);
      }
    case _ => RestoreConfigEffect(h, j, f);
  }

  // -------------------------------------------------------------- installation

  /** An installation gets past its checks and starts writing. */
  predicate Starts(h: Host, setup: Setup, f: InstallFates)
  {
    var recovered := Recover(h, f.recovery);
    recovered.ok && recovered.host.marker.None? && f.ready && UsersAt(recovered.host.users, setup.url) == {}
  }

  /** ... and gets as far as the new configuration. */
  predicate Configures(h: Host, setup: Setup, f: InstallFates)
  {
    Starts(h, setup, f) && f.backup.Done? && f.journal.Done? && f.config.Done?
  }

  /** The marker is written, whatever is reported of it. */
  predicate ReachesMarker(f: InstallFates)
  {
    f.adminPending.Done? && f.admin.Done? && f.locksHeld && Effective(f.marker)
  }

  predicate IsCrash(fate: Fate)
  {
    fate.CrashBefore? || fate.CrashAfter?
  }

  /** What ended the installation after it had written its configuration. */
  function StoppedBy(f: InstallFates): Fate
  {
    if !f.adminPending.Done? then f.adminPending
    else if !f.admin.Done? then f.admin
    else if !f.locksHeld then Failed else f.marker
  }

  /** The rollback ends before it has recorded that the administrator is gone. */
  predicate RollbackStops(f: InstallFates)
  {
    !(f.rollback.deleteAdmin.Done? && Effective(f.rollback.adminReverted))
  }

  /** Without a marker, the journal on disk still announces the administrator. */
  predicate LeavesAnnounced(f: InstallFates)
  {
    Effective(f.adminPending) && (IsCrash(StoppedBy(f)) || RollbackStops(f))
  }

  predicate LeavesAdmin(f: InstallFates)
  {
    f.adminPending.Done? && Effective(f.admin) && (IsCrash(StoppedBy(f)) || !Effective(f.rollback.deleteAdmin))
  }

  /** The first journal write took effect although it reported an error, and its backup was then dropped. */
  predicate LosesBackup(h: Host, setup: Setup, f: InstallFates)
  {
    Starts(h, setup, f) && f.backup.Done? && f.journal.Torn? && Effective(f.dropBackup)
  }

  /** The marker write took effect although it reported an error, and the rollback then deleted the administrator. */
  predicate TearsMarker(h: Host, setup: Setup, f: InstallFates)
  {
    Configures(h, setup, f) && ReachesMarker(f) && f.marker.Torn? && Effective(f.rollback.deleteAdmin)
  }

  /**
   * Recovery under a misread configuration still ends well: it names a database, and there is nothing
   * to delete anywhere.
   */
  predicate NothingToRevert(users: map<Url, set<UserId>>, setup: Setup, f: InstallFates)
  {
    var named := NewConfig(setup).databaseUrl;
    named.Some? && !LeavesAdmin(f) && setup.adminId !in UsersAt(users, named.value)
  }

  /** The written configuration does not name the installed database, and something depended on it. */
  predicate Misreads(h: Host, setup: Setup, f: InstallFates)
  {
    && Configures(h, setup, f) && !ReadsBack(setup)
    && (ReachesMarker(f)
        || (LeavesAnnounced(f) && !NothingToRevert(Recover(h, f.recovery).host.users, setup, f)))
  }

  predicate Breaks(h: Host, setup: Setup, f: InstallFates)
  {
    LosesBackup(h, setup, f) || TearsMarker(h, setup, f) || Misreads(h, setup, f)
  }

  /** The new configuration is written, and `j` is the journal in memory that announces its administrator. */
  ghost predicate Announced(h: Host, j: Journal, setup: Setup, base: Base)
  {
    && h.marker.None? && h.config == Some(NewConfig(setup))
    && j.phase.AdminPending? && j.adminId == setup.adminId && BackupIntact(h, j, base)
    && UsersAt(base.users, setup.url) == {} && UsersAt(h.users, setup.url) <= {setup.adminId}
    && forall other :: other != setup.url ==> UsersAt(h.users, other) == UsersAt(base.users, other)
  }

  /** An announced host is sound exactly if its configuration leads recovery to what it must undo. */
  lemma AnnouncedIsSoundIff(h: Host, j: Journal, setup: Setup, base: Base, setups: set<Setup>)
    requires Announced(h, j, setup, base) && h.journal == Some(j)
    ensures var named := NewConfig(setup).databaseUrl;
            Sound(h, base, setups)
            <==> ReadsBack(setup)
                 || (named.Some? && UsersAt(h.users, setup.url) == {}
                     && setup.adminId !in UsersAt(base.users, named.value))
  {
    var named := NewConfig(setup).databaseUrl;
    if named.Some? {
      var after := AdminDeleted(h, named.value, setup.adminId).users;
      assert ReadsBack(setup) ==> SameUsers(after, base.users);
      if SameUsers(after, base.users) && !ReadsBack(setup) {
        assert UsersAt(after, setup.url) == UsersAt(base.users, setup.url);
        assert UsersAt(after, named.value) == UsersAt(base.users, named.value);
      }
    }
  }

  /** The rollback of an announced installation, when the announcement is on disk. */
  lemma RewindAnnounced(h: Host, j: Journal, setup: Setup, base: Base, f: InstallFates)
    requires Announced(h, j, setup, base) && h.journal == Some(j)
    ensures var h' := Rewind(h, j, Some(setup.url), f.rollback).host;
            if RollbackStops(f) then
              && Announced(h', j, setup, base) && h'.journal == Some(j)
              && UsersAt(h'.users, setup.url) == if Effective(f.rollback.deleteAdmin) then {}
                   else UsersAt(h.users, setup.url)
            else Pending(h', base)
  {
    var h1 := AdminDeleted(h, setup.url, j.adminId);
    assert UsersAt(h1.users, setup.url) == {};
    assert SameUsers(h1.users, base.users);
    if !RollbackStops(f) {
      var h2 := Advanced(h1, j, AdminReverted);
      assert Pending(h2, base);
      RestoreConfigKeeps(h2, j.(phase := AdminReverted), base, f.rollback);
    }
  }

  /** ... and when it is not. */
  lemma RewindUnannounced(h: Host, j: Journal, setup: Setup, base: Base, f: InstallFates)
    requires Announced(h, j, setup, base) && h.journal == Some(j.(phase := Prepared))
             && UsersAt(h.users, setup.url) == {}
    ensures Pending(Rewind(h, j, Some(setup.url), f.rollback).host, base)
  {
    var h1 := AdminDeleted(h, setup.url, j.adminId);
    assert SameUsers(h.users, base.users) && SameUsers(h1.users, base.users);
    assert Pending(h1, base) && Pending(h, base);
    if !RollbackStops(f) {
      RestoreConfigKeeps(Advanced(h1, j, AdminReverted), j.(phase := AdminReverted), base, f.rollback);
    }
  }

  /** How an installation ends that fails or crashes under its announcement. */
  ghost predicate Stopped(h': Host, j: Journal, setup: Setup, base: Base, announced: bool, adminLeft: bool)
  {
    if announced then
      Announced(h', j, setup, base) && h'.journal == Some(j) && (UsersAt(h'.users, setup.url) != {} <==> adminLeft)
    else Pending(h', base)
  }

  lemma FailAnnounced(h: Host, j: Journal, setup: Setup, base: Base, fate: Fate, f: InstallFates)
    requires Announced(h, j, setup, base) && h.journal == Some(j)
    ensures Stopped(Fail(h, j, setup, fate, f).host, j, setup, base, IsCrash(fate) || RollbackStops(f),
                    UsersAt(h.users, setup.url) != {} && (IsCrash(fate) || !Effective(f.rollback.deleteAdmin)))
  {
    RewindAnnounced(h, j, setup, base, f);
  }

  /** Under a marker, the state is sound exactly if the configuration names the database and the administrator stays. */
  lemma UnderMarker(h: Host, setup: Setup, base: Base, setups: set<Setup>)
    requires h.marker.Some? && h.config == Some(NewConfig(setup)) && setup in setups
    requires UsersAt(base.users, setup.url) == {} && UsersAt(h.users, setup.url) == {setup.adminId}
    requires forall other :: other != setup.url ==> UsersAt(h.users, other) == UsersAt(base.users, other)
    ensures Sound(h, base, setups) <==> ReadsBack(setup)
    ensures ReadsBack(setup) ==> Committed(h, base, setup)
  {
    assert UsersAt(h.users, setup.url) != UsersAt(base.users, setup.url);
    assert forall s :: s in setups && Committed(h, base, s) ==> s.url == setup.url;
  }

  lemma NobodyUnderMarker(h: Host, base: Base, setups: set<Setup>)
    requires h.marker.Some? && SameUsers(h.users, base.users)
    ensures !Sound(h, base, setups)
  {
    forall s | s in setups
      ensures !Committed(h, base, s)
    {
      assert UsersAt(h.users, s.url) == UsersAt(base.users, s.url);
    }
  }

  lemma RollbackUnderMarker(h: Host, j: Journal, setup: Setup, base: Base, setups: set<Setup>, f: InstallFates)
    requires Announced(h.(marker := None), j, setup, base) && h.marker.Some? && setup in setups
    requires UsersAt(h.users, setup.url) == {setup.adminId}
    ensures var h' := Rewind(h, j, Some(setup.url), f.rollback).host;
            && h'.marker == h.marker
            && (Sound(h', base, setups) <==> ReadsBack(setup) && !Effective(f.rollback.deleteAdmin))
  {
    var h' := Rewind(h, j, Some(setup.url), f.rollback).host;
    RewindEffect(h, j, Some(setup.url), f.rollback);
    if Effective(f.rollback.deleteAdmin) {
      assert SameUsers(AdminDeleted(h, setup.url, j.adminId).users, base.users);
      NobodyUnderMarker(h', base, setups);
    } else {
      assert h'.config == h.config;
      UnderMarker(h', setup, base, setups);
    }
  }

  /** The two ends of an installation under its configuration: with a marker, or stopped before it. */
  ghost predicate EndsAsExpected(h': Host, j: Journal, setup: Setup, base: Base, setups: set<Setup>, f: InstallFates)
  {
    if ReachesMarker(f) then
      && h'.marker.Some?
      && (Sound(h', base, setups) <==>
            ReadsBack(setup) && !(f.marker.Torn? && Effective(f.rollback.deleteAdmin)))
    else Stopped(h', j, setup, base, LeavesAnnounced(f), LeavesAdmin(f))
  }

  lemma CommitMarkerKeeps(h: Host, j: Journal, setup: Setup, base: Base, setups: set<Setup>, f: InstallFates)
    requires Announced(h, j, setup, base) && h.journal == Some(j) && UsersAt(h.users, setup.url) == {setup.adminId}
    requires setup in setups && f.adminPending.Done? && f.admin.Done?
    ensures EndsAsExpected(CommitMarker(h, j, setup, f).host, j, setup, base, setups, f)
    ensures ReachesMarker(f) && f.marker.Done? && ReadsBack(setup) ==>
              Committed(CommitMarker(h, j, setup, f).host, base, setup)
  {
    var h1 := WithMarker(h, setup);
    if !ReachesMarker(f) {
      FailAnnounced(h, j, setup, base, StoppedBy(f), f);
    } else if f.marker.Torn? {
      assert h1.(marker := None) == h;
      RollbackUnderMarker(h1, j, setup, base, setups, f);
    } else {
      UnderMarker(CommitMarker(h, j, setup, f).host, setup, base, setups);
    }
  }

  lemma CreateAdminKeeps(h: Host, j: Journal, setup: Setup, base: Base, setups: set<Setup>, f: InstallFates)
    requires Announced(h, j, setup, base) && h.journal == Some(j) && UsersAt(h.users, setup.url) == {}
    requires setup in setups && f.adminPending.Done?
    ensures EndsAsExpected(CreateAdmin(h, j, setup, f).host, j, setup, base, setups, f)
    ensures ReachesMarker(f) && f.marker.Done? && ReadsBack(setup) ==>
              Committed(CreateAdmin(h, j, setup, f).host, base, setup)
  {
    var h1 := Written(h, AdminCreated(h, setup), f.admin);
    assert Announced(h1, j, setup, base);
    if f.admin.Done? {
      CommitMarkerKeeps(h1, j, setup, base, setups, f);
    } else {
      FailAnnounced(h1, j, setup, base, f.admin, f);
    }
  }

  lemma AnnounceAdminKeeps(h: Host, j: Journal, setup: Setup, base: Base, setups: set<Setup>, f: InstallFates)
    requires Announced(h, j.(phase := AdminPending), setup, base) && h.journal == Some(j) && j.phase.Prepared?
    requires UsersAt(h.users, setup.url) == {} && setup in setups
    ensures EndsAsExpected(AnnounceAdmin(h, j, setup, f).host, j.(phase := AdminPending), setup, base, setups, f)
    ensures ReachesMarker(f) && f.marker.Done? && ReadsBack(setup) ==>
              Committed(AnnounceAdmin(h, j, setup, f).host, base, setup)
  {
    var j1 := j.(phase := AdminPending);
    var h1 := Written(h, Advanced(h, j, AdminPending), f.adminPending);
    if f.adminPending.Done? {
      CreateAdminKeeps(h1, j1, setup, base, setups, f);
    } else if Effective(f.adminPending) {
      FailAnnounced(h1, j1, setup, base, f.adminPending, f);
    } else {
      assert j1.(phase := Prepared) == j;
      assert Pending(h, base);
      RewindUnannounced(h, j1, setup, base, f);
    }
  }

  /** An installation that gets as far as its configuration, classified. */
  lemma WriteConfigKeeps(h: Host, j: Journal, setup: Setup, base: Base, setups: set<Setup>, f: InstallFates)
    requires Pending(h, base) && h.journal == Some(j) && j.phase.Prepared? && j.adminId == setup.adminId
    requires UsersAt(h.users, setup.url) == {} && setup in setups
    ensures !f.config.Done? ==> Pending(WriteConfig(h, j, setup, f).host, base)
    ensures f.config.Done? ==>
              EndsAsExpected(WriteConfig(h, j, setup, f).host, j.(phase := AdminPending), setup, base, setups, f)
    ensures f.config.Done? && ReachesMarker(f) && f.marker.Done? && ReadsBack(setup) ==>
              Committed(WriteConfig(h, j, setup, f).host, base, setup)
  {
    var h1 := Written(h, h.(config := Some(NewConfig(setup))), f.config);
    assert Pending(h1, base);
    if f.config.Done? {
      AnnounceAdminKeeps(h1, j, setup, base, setups, f);
    } else {
      RestoreConfigKeeps(h1, j, base, f.rollback);
    }
  }

  /** The host with the backup and the journal on disk. */
  function Journaled(h: Host, setup: Setup): Host
  {
    h.(backups := h.backups[setup.installId := PriorContent(h)], journal := Some(NewJournal(h, setup)))
  }

  /** Performing an installation, by how far it gets. */
  lemma PerformByStage(h: Host, setup: Setup, base: Base, setups: set<Setup>, f: InstallFates)
    requires Sound(h, base, setups) && setup in setups
    ensures var h0, h' := Recover(h, f.recovery).host, Perform(h, setup, f).host;
            if !Starts(h, setup, f) then h' == h0 && Sound(h', base, setups)
            else
              && h0.marker.None? && SameUsers(h0.users, base.users)
              && if Configures(h, setup, f) then
                   h' == WriteConfig(Journaled(h0, setup), NewJournal(h0, setup), setup, f).host
                 else if LosesBackup(h, setup, f) then
                   h'.marker.None? && h'.journal == Some(NewJournal(h0, setup)) && setup.installId !in h'.backups
                 else Pending(h', base)
    ensures Starts(h, setup, f) ==>
              var h0 := Recover(h, f.recovery).host;
              Pending(Journaled(h0, setup), base) && UsersAt(Journaled(h0, setup).users, setup.url) == {}
  {
    RecoverKeeps(h, base, setups, f.recovery);
    if Starts(h, setup, f) {
      var h0 := Recover(h, f.recovery).host;
      var h1, j := Journaled(h0, setup), NewJournal(h0, setup);
      assert Pending(h0, base) && Untouched(h0, base);
      if f.backup.Done? && f.journal.Done? && !f.config.Done? {
        WriteConfigKeeps(h1, j, setup, base, setups, f);
      }
    }
  }

  /**
   * One installation keeps the host sound unless one of two writes tears at its worst moment or
   * a misread configuration matters, and then it does not.
   */
  lemma PerformIsSafeIff(h: Host, setup: Setup, base: Base, setups: set<Setup>, f: InstallFates)
    requires Sound(h, base, setups) && setup in setups
    ensures Sound(Perform(h, setup, f).host, base, setups) <==> !Breaks(h, setup, f)
  {
    PerformByStage(h, setup, base, setups, f);
    if Configures(h, setup, f) {
      var h0 := Recover(h, f.recovery).host;
      var j := NewJournal(h0, setup);
      WriteConfigKeeps(Journaled(h0, setup), j, setup, base, setups, f);
      if !ReachesMarker(f) && LeavesAnnounced(f) {
        AnnouncedIsSoundIff(Perform(h, setup, f).host, j.(phase := AdminPending), setup, base, setups);
      }
    }
  }

  /** With no fault before the marker, an installation commits exactly if its configuration names its database. */
  lemma PerformCommits(h: Host, setup: Setup, base: Base, f: InstallFates)
    requires Pending(h, base) && Starts(h, setup, f)
    requires f.backup.Done? && f.journal.Done? && f.config.Done? && f.adminPending.Done? && f.admin.Done?
    requires f.locksHeld && f.marker.Done?
    ensures Committed(Perform(h, setup, f).host, base, setup) <==> ReadsBack(setup)
    ensures f.rollback == NO_FAULTS ==> Perform(h, setup, f).ok && Perform(h, setup, f).host.journal.None?
  {
    PerformByStage(h, setup, base, {setup}, f);
    var h0 := Recover(h, f.recovery).host;
    WriteConfigKeeps(Journaled(h0, setup), NewJournal(h0, setup), setup, base, {setup}, f);
  }

  // ---------------------------------------------------------------------- runs

  datatype Run = Installation(setup: Setup, fates: InstallFates) | Recovery(recovery: RecoveryFates)

  function RunOnce(h: Host, run: Run): Host
  {
    match run
    case Installation(setup, f) => Perform(h, setup, f).host
    case Recovery(f) => Recover(h, f).host
  }

  function RunAll(h: Host, runs: seq<Run>): Host
    decreases |runs|
  {
    if runs == [] then h else RunOnce(RunAll(h, runs[..|runs| - 1]), runs[|runs| - 1])
  }

  ghost function SetupsOf(runs: seq<Run>): set<Setup>
  {
    set i | 0 <= i < |runs| && runs[i].Installation? :: runs[i].setup
  }

  /** No installation of the sequence met one of the three faults. */
  predicate NeverBreaks(h: Host, runs: seq<Run>)
    decreases |runs|
  {
    runs == [] ||
    (var init, last := runs[..|runs| - 1], runs[|runs| - 1];
     NeverBreaks(h, init) && (last.Installation? ==> !Breaks(RunAll(h, init), last.setup, last.fates)))
  }

  lemma SetupsOfInit(runs: seq<Run>)
    requires runs != []
    ensures SetupsOf(runs[..|runs| - 1]) <= SetupsOf(runs)
    ensures runs[|runs| - 1].Installation? ==> runs[|runs| - 1].setup in SetupsOf(runs)
  {
    var init := runs[..|runs| - 1];
    forall setup | setup in SetupsOf(init)
      ensures setup in SetupsOf(runs)
    {
      var i :| 0 <= i < |init| && init[i].Installation? && init[i].setup == setup;
      assert runs[i].setup == setup;
    }
  }

  lemma {:induction false} RunsStaySound(h: Host, runs: seq<Run>, setups: set<Setup>)
    requires h.journal.None? && h.marker.None? && NeverBreaks(h, runs) && SetupsOf(runs) <= setups
    ensures Sound(RunAll(h, runs), Base(h.config, h.users), setups)
    decreases |runs|
  {
    if runs == [] {
    } else {
      var init, last := runs[..|runs| - 1], runs[|runs| - 1];
      SetupsOfInit(runs);
      RunsStaySound(h, init, setups);
      var base, before := Base(h.config, h.users), RunAll(h, init);
      match last
      case Installation(setup, f) => PerformIsSafeIff(before, setup, base, setups, f);
      case Recovery(f) => RecoverKeeps(before, base, setups, f);
    }
  }

  /**
   * All or nothing: after any installations and recoveries, each failing, tearing or crashing
   * at any write, once a recovery completes the journal is gone, and either one installation's
   * marker, administrator and configuration all hold, or nothing changed. A recovery that
   * meets no fault does complete.
   */
  lemma AllOrNothing(h: Host, runs: seq<Run>, f: RecoveryFates)
    requires h.journal.None? && h.marker.None? && NeverBreaks(h, runs)
    ensures var last, base := Recover(RunAll(h, runs), f), Base(h.config, h.users);
            && (f == NO_FAULTS ==> last.ok)
            && (last.ok ==>
                  && last.host.journal.None?
                  && (|| (last.host.marker.None? && Untouched(last.host, base))
                      || (exists setup :: setup in SetupsOf(runs) && Committed(last.host, base, setup))))
  {
    RunsStaySound(h, runs, SetupsOf(runs));
    RecoverKeeps(RunAll(h, runs), Base(h.config, h.users), SetupsOf(runs), f);
  }

  // -------------------------------------------------------- what is broken stays so

  ghost predicate LostBackup(h: Host)
  {
    h.marker.None? && h.journal.Some? && h.journal.value.phase.Prepared? && h.journal.value.installId !in h.backups
  }

  /** An administrator is announced, and nothing says in which database. */
  ghost predicate Unreadable(h: Host)
  {
    h.marker.None? && h.journal.Some? && h.journal.value.phase.AdminPending? && ConfiguredUrl(h).None?
  }

  /** An administrator whom no recovery will delete. */
  ghost predicate Orphan(h: Host, base: Base, s: Setup)
  {
    && !ReadsBack(s) && s.adminId in UsersAt(h.users, s.url) && s.adminId !in UsersAt(base.users, s.url)
    && (h.journal.Some? && h.journal.value.phase.AdminPending? && h.journal.value.adminId == s.adminId ==>
          ConfiguredUrl(h) != Some(s.url))
  }

  /** Broken for good, by one of the setups `past`; `all` are those that ever ran or will. */
  ghost predicate Ruined(h: Host, base: Base, past: set<Setup>, all: set<Setup>)
  {
    if h.marker.Some? then !Sound(h, base, all)
    else LostBackup(h) || Unreadable(h) || exists s :: s in past && Orphan(h, base, s)
  }

  ghost predicate DistinctAdmins(setups: set<Setup>)
  {
    forall s, t :: s in setups && t in setups && s.adminId == t.adminId ==> s == t
  }

  lemma DeletingKeeps(h: Host, url: Url, id: UserId, at: Url, other: UserId)
    requires other in UsersAt(h.users, at) && (url != at || id != other)
    ensures other in UsersAt(AdminDeleted(h, url, id).users, at)
  {
  }

  lemma OrphanIsNotPending(h: Host, base: Base, s: Setup)
    requires Orphan(h, base, s)
    ensures !Pending(h, base)
  {
    if h.journal.Some? && h.journal.value.phase.AdminPending? && ConfiguredUrl(h).Some? {
      DeletingKeeps(h, ConfiguredUrl(h).value, h.journal.value.adminId, s.url, s.adminId);
    }
  }

  lemma RuinedIsUnsound(h: Host, base: Base, past: set<Setup>, all: set<Setup>)
    requires Ruined(h, base, past, all)
    ensures !Sound(h, base, all)
  {
    if h.marker.None? && !LostBackup(h) && !Unreadable(h) {
      var s :| s in past && Orphan(h, base, s);
      OrphanIsNotPending(h, base, s);
    }
  }

  /** Recovery leaves an orphan. */
  lemma OrphanSurvivesRecovery(h: Host, base: Base, s: Setup, f: RecoveryFates)
    requires Orphan(h, base, s)
    ensures Orphan(Recover(h, f).host, base, s)
  {
    if h.journal.Some? {
      var j := h.journal.value;
      if h.marker.Some? {
        CleanupEffect(h, j, f);
      } else {
        RewindEffect(h, j, ConfiguredUrl(h), f);
        if j.phase.AdminPending? && ConfiguredUrl(h).Some? {
          DeletingKeeps(h, ConfiguredUrl(h).value, j.adminId, s.url, s.adminId);
        }
      }
    }
  }

  /** ... and so does the rollback of another installation. */
  lemma OrphanSurvivesFailure(h: Host, base: Base, s: Setup, j: Journal, setup: Setup, fate: Fate, f: InstallFates)
    requires Orphan(h, base, s) && j.adminId == setup.adminId != s.adminId
    requires h.journal.Some? && h.journal.value.adminId == setup.adminId
    ensures Orphan(Fail(h, j, setup, fate, f).host, base, s)
  {
    RewindEffect(h, j, Some(setup.url), f.rollback);
    DeletingKeeps(h, setup.url, j.adminId, s.url, s.adminId);
  }

  lemma OrphanSurvivesCreation(h: Host, base: Base, s: Setup, j: Journal, setup: Setup, f: InstallFates)
    requires Orphan(h, base, s) && j.adminId == setup.adminId != s.adminId
    requires h.journal.Some? && h.journal.value.adminId == setup.adminId
    ensures Orphan(CreateAdmin(h, j, setup, f).host, base, s)
  {
    if UsersAt(h.users, setup.url) == {} {
      var h1 := Written(h, AdminCreated(h, setup), f.admin);
      assert Orphan(h1, base, s);
      if !f.admin.Done? {
        OrphanSurvivesFailure(h1, base, s, j, setup, f.admin, f);
      } else if !f.locksHeld {
        OrphanSurvivesFailure(h1, base, s, j, setup, Failed, f);
      } else {
        var h2 := Written(h1, WithMarker(h1, setup), f.marker);
        OrphanSurvivesFailure(h2, base, s, j, setup, f.marker, f);
      }
    } else {
      OrphanSurvivesFailure(h, base, s, j, setup, Failed, f);
    }
  }

  lemma OrphanSurvivesConfig(h: Host, base: Base, s: Setup, j: Journal, setup: Setup, f: InstallFates)
    requires Orphan(h, base, s) && j.adminId == setup.adminId != s.adminId && h.journal == Some(j)
    ensures Orphan(WriteConfig(h, j, setup, f).host, base, s)
  {
    var h1 := Written(h, h.(config := Some(NewConfig(setup))), f.config);
    if !f.config.Done? {
      OrphanSurvivesFailure(h1, base, s, j, setup, f.config, f);
    } else {
      var j1 := j.(phase := AdminPending);
      var h2 := Written(h1, Advanced(h1, j, AdminPending), f.adminPending);
      if !f.adminPending.Done? {
        OrphanSurvivesFailure(h2, base, s, j1, setup, f.adminPending, f);
      } else {
        OrphanSurvivesCreation(h2, base, s, j1, setup, f);
      }
    }
  }

  lemma OrphanSurvivesInstallation(h: Host, base: Base, s: Setup, setup: Setup, f: InstallFates)
    requires Orphan(h, base, s) && setup.adminId != s.adminId
    ensures Orphan(Perform(h, setup, f).host, base, s)
  {
    OrphanSurvivesRecovery(h, base, s, f.recovery);
    if Starts(h, setup, f) && f.backup.Done? {
      var h0 := Recover(h, f.recovery).host;
      if f.journal.Done? {
        OrphanSurvivesConfig(Journaled(h0, setup), base, s, NewJournal(h0, setup), setup, f);
      }
    }
  }

  /** No installation is sound while somebody else's orphan is there. */
  lemma OrphanIsUnsoundUnderMarker(h: Host, base: Base, s: Setup, all: set<Setup>)
    requires Orphan(h, base, s) && h.marker.Some? && s in all && DistinctAdmins(all)
    ensures !Sound(h, base, all)
  {
    forall t | t in all
      ensures !Committed(h, base, t)
    {
      assert UsersAt(h.users, s.url) != UsersAt(base.users, s.url);
      assert t.url == s.url && t.adminId == s.adminId ==> t == s;
    }
  }

  /** Under a marker soundness does not depend on what is left of the journal and the backups. */
  lemma SoundUnderMarker(h: Host, h': Host, base: Base, all: set<Setup>)
    requires h.marker.Some? && h'.marker == h.marker && h'.config == h.config && h'.users == h.users
    requires !Sound(h, base, all)
    ensures !Sound(h', base, all)
  {
    forall s | s in all
      ensures !Committed(h', base, s)
    {
      assert !Committed(h, base, s);
    }
  }

  lemma RuinedByRecovery(h: Host, base: Base, past: set<Setup>, all: set<Setup>, f: RecoveryFates)
    requires Ruined(h, base, past, all)
    ensures Ruined(Recover(h, f).host, base, past, all)
  {
    var h' := Recover(h, f).host;
    if h.marker.Some? {
      if h.journal.Some? {
        CleanupEffect(h, h.journal.value, f);
      }
      SoundUnderMarker(h, h', base, all);
    } else {
      if h.journal.Some? {
        RewindEffect(h, h.journal.value, ConfiguredUrl(h), f);
      }
      if !LostBackup(h) && !Unreadable(h) {
        var s :| s in past && Orphan(h, base, s);
        OrphanSurvivesRecovery(h, base, s, f);
      } else {
        assert h' == h;
      }
    }
  }

  lemma RuinedByInstallation(h: Host, base: Base, past: set<Setup>, all: set<Setup>, setup: Setup, f: InstallFates)
    requires Ruined(h, base, past, all) && past <= all && DistinctAdmins(all)
    requires forall s :: s in past ==> s.adminId != setup.adminId
    ensures Ruined(Perform(h, setup, f).host, base, past, all)
  {
    var h' := Perform(h, setup, f).host;
    if h.marker.Some? {
      MarkerIsForever(h, setup, f);
      SoundUnderMarker(h, h', base, all);
    } else if LostBackup(h) {
      LostBackupIsForever(h, setup, f);
    } else if Unreadable(h) {
      UnreadableIsForever(h, setup, f);
    } else {
      var s :| s in past && Orphan(h, base, s);
      OrphanSurvivesInstallation(h, base, s, setup, f);
      if h'.marker.Some? {
        OrphanIsUnsoundUnderMarker(h', base, s, all);
      }
    }
  }

  /** An installation that breaks a sound host ruins it. */
  lemma BreakingRuins(h: Host, setup: Setup, base: Base, past: set<Setup>, all: set<Setup>, f: InstallFates)
    requires Sound(h, base, all) && setup in past && past <= all && Breaks(h, setup, f)
    requires forall url :: setup.adminId !in UsersAt(base.users, url)
    ensures Ruined(Perform(h, setup, f).host, base, past, all)
  {
    var h' := Perform(h, setup, f).host;
    PerformIsSafeIff(h, setup, base, all, f);
    PerformByStage(h, setup, base, all, f);
    if h'.marker.None? && Configures(h, setup, f) {
      var h0 := Recover(h, f.recovery).host;
      WriteConfigKeeps(Journaled(h0, setup), NewJournal(h0, setup), setup, base, all, f);
      var named := NewConfig(setup).databaseUrl;
      assert named.Some? ==> setup.adminId !in UsersAt(base.users, named.value);
      assert named.Some? ==> Orphan(h', base, setup);
    }
  }

  /** The identifiers of administrators are fresh: no user has one, and no two installations draw the same. */
  ghost predicate FreshAdmins(h: Host, runs: seq<Run>)
  {
    && (forall i, url :: 0 <= i < |runs| && runs[i].Installation? ==> runs[i].setup.adminId !in UsersAt(h.users, url))
    && (forall i, j :: 0 <= i < j < |runs| && runs[i].Installation? && runs[j].Installation? ==>
          runs[i].setup.adminId != runs[j].setup.adminId)
  }

  lemma {:induction false} RunsAreSoundIff(h: Host, runs: seq<Run>, all: set<Setup>)
    requires h.journal.None? && h.marker.None? && FreshAdmins(h, runs) && SetupsOf(runs) <= all && DistinctAdmins(all)
    ensures var base := Base(h.config, h.users);
            if NeverBreaks(h, runs) then Sound(RunAll(h, runs), base, all)
            else Ruined(RunAll(h, runs), base, SetupsOf(runs), all)
    decreases |runs|
  {
    if runs == [] {
    } else {
      var init, last := runs[..|runs| - 1], runs[|runs| - 1];
      var base, before := Base(h.config, h.users), RunAll(h, init);
      SetupsOfInit(runs);
      RunsAreSoundIff(h, init, all);
      if !NeverBreaks(h, init) {
        RuinedByMore(before, base, SetupsOf(init), SetupsOf(runs), all);
        match last
        case Recovery(f) => RuinedByRecovery(before, base, SetupsOf(runs), all, f);
        case Installation(setup, f) =>
          RuinedByInstallation(before, base, SetupsOf(init), all, setup, f);
          RuinedByMore(Perform(before, setup, f).host, base, SetupsOf(init), SetupsOf(runs), all);
      } else {
        match last
        case Recovery(f) => RecoverKeeps(before, base, all, f);
        case Installation(setup, f) =>
          PerformIsSafeIff(before, setup, base, all, f);
          if Breaks(before, setup, f) {
            BreakingRuins(before, setup, base, SetupsOf(runs), all, f);
          }
      }
    }
  }

  lemma RuinedByMore(h: Host, base: Base, past: set<Setup>, more: set<Setup>, all: set<Setup>)
    requires Ruined(h, base, past, all) && past <= more
    ensures Ruined(h, base, more, all)
  {
  }

  /** A faultless recovery ends with all of one installation or none of any. */
  ghost predicate Settles(h: Host, base: Base, setups: set<Setup>)
  {
    var last := Recover(h, NO_FAULTS);
    && last.ok && last.host.journal.None?
    && (|| (last.host.marker.None? && Untouched(last.host, base))
        || (exists setup :: setup in setups && Committed(last.host, base, setup)))
  }

  lemma SettledIsSound(h: Host, base: Base, setups: set<Setup>)
    requires Settles(h, base, setups)
    ensures Sound(Recover(h, NO_FAULTS).host, base, setups)
  {
  }

  /**
   * All or nothing, exactly: whatever failed, tore or crashed in a sequence of installations and
   * recoveries, a faultless recovery after it settles the host if and only if no installation of
   * the sequence met one of the three faults. What one of them broke, nothing mends.
   */
  lemma AllOrNothingIff(h: Host, runs: seq<Run>)
    requires h.journal.None? && h.marker.None? && FreshAdmins(h, runs)
    ensures Settles(RunAll(h, runs), Base(h.config, h.users), SetupsOf(runs)) <==> NeverBreaks(h, runs)
  {
    var base, all, last := Base(h.config, h.users), SetupsOf(runs), RunAll(h, runs);
    forall s, t | s in all && t in all && s.adminId == t.adminId
      ensures s == t
    {
      var i :| 0 <= i < |runs| && runs[i].Installation? && runs[i].setup == s;
      var k :| 0 <= k < |runs| && runs[k].Installation? && runs[k].setup == t;
    }
    RunsAreSoundIff(h, runs, all);
    if NeverBreaks(h, runs) {
      AllOrNothing(h, runs, NO_FAULTS);
    } else {
      RuinedByRecovery(last, base, all, all, NO_FAULTS);
      RuinedIsUnsound(Recover(last, NO_FAULTS).host, base, all, all);
      if Settles(last, base, all) {
        SettledIsSound(last, base, all);
      }
    }
  }

  // --------------------------------------------------------------- convergence

  lemma CleanupConverges(h: Host, j: Journal, f: RecoveryFates)
    requires h.journal == Some(j)
    ensures var r := Cleanup(h, j, f).host;
            (if r.journal.None? then Outcome(r, true) else Cleanup(r, j, NO_FAULTS)) == Cleanup(h, j, NO_FAULTS)
    ensures Cleanup(h, j, f).host.journal.Some? ==> Cleanup(h, j, f).host.journal == Some(j)
    ensures Cleanup(h, j, f).host.marker == h.marker
  {
    assert (h.backups - {j.installId}) - {j.installId} == h.backups - {j.installId};
  }

  lemma RestoreConfigConverges(h: Host, j: Journal, f: RecoveryFates)
    requires h.marker.None? && h.journal == Some(j) && (j.phase.Prepared? || j.phase.AdminReverted?)
    ensures Recover(RestoreConfig(h, j, f).host, NO_FAULTS) == RestoreConfig(h, j, NO_FAULTS)
  {
    if Restored(h, j).Some? {
      var h1 := Written(h, Restored(h, j).value, f.restore);
      assert Restored(h1, j) == Restored(h, j);
      assert RestoreConfig(h1, j, NO_FAULTS) == RestoreConfig(h, j, NO_FAULTS);
      if f.restore.Done? && Effective(f.configReverted) {
        var h2 := Advanced(h1, j, ConfigReverted);
        CleanupConverges(h2, j.(phase := ConfigReverted), f);
      }
    }
  }

  lemma RevertAdminConverges(h: Host, j: Journal, url: Url, f: RecoveryFates)
    requires h.marker.None? && h.journal == Some(j) && j.phase.AdminPending? && ConfiguredUrl(h) == Some(url)
    ensures Recover(RevertAdmin(h, j, url, f).host, NO_FAULTS) == RevertAdmin(h, j, url, NO_FAULTS)
  {
    var deleted := AdminDeleted(h, url, j.adminId);
    assert AdminDeleted(deleted, url, j.adminId) == deleted by {
      var left := UsersAt(h.users, url) - {j.adminId};
      assert left - {j.adminId} == left && UsersAt(deleted.users, url) == left;
      assert deleted.users[url := left] == deleted.users;
    }
    if f.deleteAdmin.Done? && f.adminReverted.Done? {
      RestoreConfigConverges(Advanced(deleted, j, AdminReverted), j.(phase := AdminReverted), f);
    }
  }

  /**
   * A recovery that failed or crashed anywhere, followed by one without faults, ends where the latter
   * alone would have.
   */
  lemma RecoveryConverges(h: Host, f: RecoveryFates)
    ensures Recover(Recover(h, f).host, NO_FAULTS) == Recover(h, NO_FAULTS)
  {
    if h.journal.Some? {
      var j := h.journal.value;
      if h.marker.Some? || j.phase.ConfigReverted? {
        CleanupConverges(h, j, f);
      } else if j.phase.AdminPending? {
        if ConfiguredUrl(h).Some? {
          RevertAdminConverges(h, j, ConfiguredUrl(h).value, f);
        }
      } else {
        RestoreConfigConverges(h, j, f);
      }
    }
  }

  function PhaseRank(h: Host): nat
  {
    if h.journal.None? then 4
    else
      match h.journal.value.phase
      case Prepared => 0
      case AdminPending => 1
      case AdminReverted => 2
      case ConfigReverted => 3
  }

  /** No recovery ever takes the journal a phase back, whatever fails. */
  lemma PhasesOnlyAdvance(h: Host, f: RecoveryFates)
    ensures PhaseRank(h) <= PhaseRank(Recover(h, f).host)
  {
  }

  /** Success is reported only of an installation that is there: every write done, marked, and its journal gone. */
  lemma SuccessMeansInstalled(h: Host, setup: Setup, f: InstallFates)
    requires Perform(h, setup, f).ok
    ensures Configures(h, setup, f) && f.adminPending.Done? && f.admin.Done? && f.locksHeld && f.marker.Done?
    ensures var h' := Perform(h, setup, f).host;
            && h'.marker == Some(setup.installId) && h'.config == Some(NewConfig(setup)) && h'.journal.None?
            && UsersAt(h'.users, setup.url) == {setup.adminId}
  {
  }

  // ------------------------------------------------------- what the two tears do

  /** A journal without its backup can never be recovered from, and blocks every further installation. */
  lemma LostBackupIsForever(h: Host, setup: Setup, f: InstallFates)
    requires h.marker.None? && h.journal.Some?
    requires h.journal.value.phase.Prepared? && h.journal.value.installId !in h.backups
    ensures Recover(h, f.recovery) == Outcome(h, false)
    ensures Perform(h, setup, f) == Outcome(h, false)
  {
  }

  lemma LosingTheBackup(h: Host, setup: Setup, f: InstallFates)
    requires LosesBackup(h, setup, f)
    ensures var h' := Perform(h, setup, f).host;
            && h'.marker.None? && h'.journal.Some? && h'.journal.value.phase.Prepared?
            && h'.journal.value.installId !in h'.backups
  {
  }

  /** A marker, once present, freezes marker, configuration and users, in whatever combination they are. */
  lemma MarkerIsForever(h: Host, setup: Setup, f: InstallFates)
    requires h.marker.Some?
    ensures var h' := Perform(h, setup, f).host; h'.marker == h.marker && h'.config == h.config && h'.users == h.users
    ensures var h' := Recover(h, f.recovery).host; h'.marker == h.marker && h'.config == h.config && h'.users == h.users
  {
  }

  lemma ConfiguredInstallation(h: Host, setup: Setup, f: InstallFates)
    requires Configures(h, setup, f)
    ensures var h0 := Recover(h, f.recovery).host;
            Perform(h, setup, f) == WriteConfig(Journaled(h0, setup), NewJournal(h0, setup), setup, f)
  {
  }

  /** Where an installation stands before it writes its marker. */
  function BeforeMarker(h: Host, j: Journal, setup: Setup): Host
  {
    AdminCreated(Advanced(h.(config := Some(NewConfig(setup))), j, AdminPending), setup)
  }

  lemma MarkedInstallation(h: Host, j: Journal, setup: Setup, f: InstallFates)
    requires f.config.Done? && ReachesMarker(f) && UsersAt(h.users, setup.url) == {}
    ensures WriteConfig(h, j, setup, f) == CommitMarker(BeforeMarker(h, j, setup), j.(phase := AdminPending), setup, f)
  {
  }

  /** A rollback without faults under the marker takes back all but the marker. */
  lemma RewindWithoutFaults(h: Host, j: Journal, url: Url)
    requires j.phase.AdminPending? && Restored(h, j).Some?
    ensures var h' := Rewind(h, j, Some(url), NO_FAULTS).host;
            h'.journal.None? && h'.config == Restored(h, j).value.config
  {
    var h2 := Advanced(AdminDeleted(h, url, j.adminId), j, AdminReverted);
    assert Restored(h2, j.(phase := AdminReverted)).Some?;
  }

  /** The torn marker leaves a marker whose administrator does not exist, and no configuration if nothing else fails. */
  lemma TearingTheMarker(h: Host, setup: Setup, f: InstallFates)
    requires TearsMarker(h, setup, f)
    ensures var h0, h' := Recover(h, f.recovery).host, Perform(h, setup, f).host;
            && h'.marker == Some(setup.installId) && UsersAt(h'.users, setup.url) == {}
            && (f.rollback == NO_FAULTS ==> h'.journal.None? && h'.config == h0.config)
  {
    var h0 := Recover(h, f.recovery).host;
    var h1, j := Journaled(h0, setup), NewJournal(h0, setup);
    ConfiguredInstallation(h, setup, f);
    MarkedInstallation(h1, j, setup, f);
    var h2, j1 := WithMarker(BeforeMarker(h1, j, setup), setup), j.(phase := AdminPending);
    RewindEffect(h2, j1, Some(setup.url), f.rollback);
    RewindWithoutFaults(h2, j1, setup.url);
  }

  /** A configuration that names no database blocks recovery and installation under an announced administrator. */
  lemma UnreadableIsForever(h: Host, setup: Setup, f: InstallFates)
    requires h.marker.None? && h.journal.Some? && h.journal.value.phase.AdminPending? && ConfiguredUrl(h).None?
    ensures Recover(h, f.recovery) == Outcome(h, false)
    ensures Perform(h, setup, f) == Outcome(h, false)
  {
  }

  /** With such a configuration a fault under the announcement leaves just that. */
  lemma MisreadingBlocks(h: Host, setup: Setup, f: InstallFates, base: Base, setups: set<Setup>)
    requires Sound(h, base, setups) && setup in setups
    requires Configures(h, setup, f) && NewConfig(setup).databaseUrl.None? && !ReachesMarker(f) && LeavesAnnounced(f)
    ensures var h' := Perform(h, setup, f).host;
            h'.marker.None? && h'.journal.Some? && h'.journal.value.phase.AdminPending? && ConfiguredUrl(h').None?
  {
    PerformByStage(h, setup, base, setups, f);
    var h0 := Recover(h, f.recovery).host;
    WriteConfigKeeps(Journaled(h0, setup), NewJournal(h0, setup), setup, base, setups, f);
  }

  const EXAMPLE_HOST: Host := Host(Some(Content("prior", None)), map[], None, None, map[])

  const EXAMPLE_SETUP: Setup := Setup(7, "postgres://h/db", None, "", 1, 2)

  /** A single quote is legal in the password of a URL; what the file gives back for it is no URL. */
  const QUOTED_SETUP: Setup := Setup(7, "postgres://u:pa'ss@h/db", None, "", 1, 2)

  const NO_FAULTS_BUT_MARKER: InstallFates :=
    InstallFates(NO_FAULTS, true, Done, Done, Done, Done, Done, Done, true, Torn, NO_FAULTS)

  const NO_FAULTS_BUT_JOURNAL: InstallFates :=
    InstallFates(NO_FAULTS, true, Done, Torn, Done, Done, Done, Done, true, Done, NO_FAULTS)

  const CRASH_AFTER_ADMIN: InstallFates :=
    InstallFates(NO_FAULTS, true, Done, Done, Done, Done, Done, CrashAfter, true, Done, NO_FAULTS)

  /**
   * With every other write a success, a torn marker write ends with marker and prior configuration but
   * no administrator.
   */
  lemma TornMarkerExample()
    ensures var h := Perform(EXAMPLE_HOST, EXAMPLE_SETUP, NO_FAULTS_BUT_MARKER).host;
            TearsMarker(EXAMPLE_HOST, EXAMPLE_SETUP, NO_FAULTS_BUT_MARKER)
            && h.marker == Some(1) && UsersAt(h.users, 7) == {} && h.config == EXAMPLE_HOST.config && h.journal.None?
  {
    TearingTheMarker(EXAMPLE_HOST, EXAMPLE_SETUP, NO_FAULTS_BUT_MARKER);
  }

  /** With every other write a success, a torn first journal write leaves a journal nothing can recover from. */
  lemma TornJournalExample()
    ensures var h := Perform(EXAMPLE_HOST, EXAMPLE_SETUP, NO_FAULTS_BUT_JOURNAL).host;
            LosesBackup(EXAMPLE_HOST, EXAMPLE_SETUP, NO_FAULTS_BUT_JOURNAL) && !Recover(h, NO_FAULTS).ok
              && h.journal.Some?
  {
    LosingTheBackup(EXAMPLE_HOST, EXAMPLE_SETUP, NO_FAULTS_BUT_JOURNAL);
  }

  /** No write tears: the process just crashes after it inserted the administrator, and no recovery can ever finish. */
  lemma QuotedAddressExample()
    ensures !ReadsBack(QUOTED_SETUP)
    ensures var h := Perform(EXAMPLE_HOST, QUOTED_SETUP, CRASH_AFTER_ADMIN).host;
            && Misreads(EXAMPLE_HOST, QUOTED_SETUP, CRASH_AFTER_ADMIN)
            && UsersAt(h.users, 7) == {2} && Recover(h, NO_FAULTS) == Outcome(h, false)
  {
    assert QUOTED_SETUP.address[15] == '\'';
    SurvivingAddressReadsBack(QUOTED_SETUP);
    var base := Base(EXAMPLE_HOST.config, EXAMPLE_HOST.users);
    MisreadingBlocks(EXAMPLE_HOST, QUOTED_SETUP, CRASH_AFTER_ADMIN, base, {QUOTED_SETUP});
  }
}
