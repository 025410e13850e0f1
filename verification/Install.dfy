/**
 * Crash-safe installation (cmd/server/setup.go, setup_recovery.go): what an installation and a
 * recovery leave on disk and in the database, when every durable write may fail, tear or crash.
 */
module Install {
  import opened Prelude
  import opened EnvFile

  type Id = nat
  type Url = nat
  type UserId = nat

  /** A configuration file, with the database it names, if it names a valid one. */
  datatype Content = Content(text: string, databaseUrl: Option<Url>)

  const NO_CONTENT: Content := Content("", None)

  /** SHA-256, taken as injective. */
  datatype Digest = DigestOf(content: Content)

  datatype Phase = Prepared | AdminPending | AdminReverted | ConfigReverted

  datatype Journal = Journal(installId: Id, phase: Phase, adminId: UserId, priorExists: bool, backupDigest: Digest)

  /** Everything that survives a crash. */
  datatype Host = Host(
    config: Option<Content>,
    backups: map<Id, Content>,
    journal: Option<Journal>,
    marker: Option<Id>,
    users: map<Url, set<UserId>>)

  /** What becomes of one durable write: Torn took effect although it reported an error. */
  datatype Fate = Done | Failed | Torn | CrashBefore | CrashAfter

  predicate Effective(fate: Fate)
  {
    fate.Done? || fate.Torn? || fate.CrashAfter?
  }

  /** The host after a write that would turn `h` into `h'`. */
  function Written(h: Host, h': Host, fate: Fate): Host
  {
    if Effective(fate) then h' else h
  }

  function UsersAt(users: map<Url, set<UserId>>, url: Url): set<UserId>
  {
    if url in users then users[url] else {}
  }

  // ------------------------------------------------------------------ recovery

  datatype RecoveryFates = RecoveryFates(
    deleteAdmin: Fate, adminReverted: Fate, restore: Fate, configReverted: Fate, removeBackup: Fate,
    removeJournal: Fate)

  const NO_FAULTS: RecoveryFates := RecoveryFates(Done, Done, Done, Done, Done, Done)

  /** The host afterwards, and whether the procedure reported success. */
  datatype Outcome = Outcome(host: Host, ok: bool)

  function RemoveJournal(h: Host, fate: Fate): Outcome
  {
    Outcome(Written(h, h.(journal := None), fate), fate.Done?)
  }

  function Cleanup(h: Host, j: Journal, f: RecoveryFates): Outcome
  {
    var h1 := Written(h, h.(backups := h.backups - {j.installId}), f.removeBackup);
    if !f.removeBackup.Done? then Outcome(h1, false) else RemoveJournal(h1, f.removeJournal)
  }

  function Advanced(h: Host, j: Journal, phase: Phase): Host
  {
    h.(journal := Some(j.(phase := phase)))
  }

  /** The prior configuration, or None when the backup is missing or damaged. */
  function Restored(h: Host, j: Journal): Option<Host>
  {
    if j.installId !in h.backups || DigestOf(h.backups[j.installId]) != j.backupDigest then None
    else Some(h.(config := if j.priorExists then Some(h.backups[j.installId]) else None))
  }

  /** From phase prepared or admin_reverted of the journal `j` on. */
  function RestoreConfig(h: Host, j: Journal, f: RecoveryFates): Outcome
  {
    match Restored(h, j)
    case None => Outcome(h, false)
    case Some(restored) =>
      var h1 := Written(h, restored, f.restore);
      if !f.restore.Done? then Outcome(h1, false)
      else
        var h2 := Written(h1, Advanced(h1, j, ConfigReverted), f.configReverted);
        if !f.configReverted.Done? then Outcome(h2, false) else Cleanup(h2, j.(phase := ConfigReverted), f)
  }

  function AdminDeleted(h: Host, url: Url, admin: UserId): Host
  {
    h.(users := h.users[url := UsersAt(h.users, url) - {admin}])
  }

  /** From phase admin_pending of the journal `j` on, with the administrator in database `url`. */
  function RevertAdmin(h: Host, j: Journal, url: Url, f: RecoveryFates): Outcome
  {
    var h1 := Written(h, AdminDeleted(h, url, j.adminId), f.deleteAdmin);
    if !f.deleteAdmin.Done? then Outcome(h1, false)
    else
      var h2 := Written(h1, Advanced(h1, j, AdminReverted), f.adminReverted);
      if !f.adminReverted.Done? then Outcome(h2, false) else RestoreConfig(h2, j.(phase := AdminReverted), f)
  }

  /** The steps back from whatever phase `j` says; `url` is the database the administrator went to. */
  function Rewind(h: Host, j: Journal, url: Option<Url>, f: RecoveryFates): Outcome
  {
    match j.phase
    case AdminPending => if url.None? then Outcome(h, false) else RevertAdmin(h, j, url.value, f)
    case ConfigReverted => Cleanup(h, j, f)
    case _ => RestoreConfig(h, j, f)
  }

  function ConfiguredUrl(h: Host): Option<Url>
  {
    if h.config.Some? then h.config.value.databaseUrl else None
  }

  function Recover(h: Host, f: RecoveryFates): Outcome
  {
    if h.journal.None? then Outcome(h, true)
    else if h.marker.Some? then Cleanup(h, h.journal.value, f)
    else Rewind(h, h.journal.value, ConfiguredUrl(h), f)
  }

  // -------------------------------------------------------------- installation

  /**
   * What the installer was asked for and the fresh identifiers it drew: the database `url` by its
   * `address`, and the `rest` of the configuration. If the address is not read back from the file
   * as it was written, `misread` is the database that what is read instead names, if it names one.
   */
  datatype Setup = Setup(url: Url, address: string, misread: Option<Url>, rest: string, installId: Id, adminId: UserId)

  function NewConfig(setup: Setup): Content
  {
    var text := FileText(setup.address, setup.rest);
    Content(text, if DatabaseAddress(text) == Some(setup.address) then Some(setup.url) else setup.misread)
  }

  /** The written configuration names the database that was installed. */
  predicate ReadsBack(setup: Setup)
  {
    NewConfig(setup).databaseUrl == Some(setup.url)
  }

  /** The condition on the request under which it does, whatever a misread address would name. */
  lemma SurvivingAddressReadsBack(setup: Setup)
    ensures Survives(setup.address) && AllFit(Lines(FileText(setup.address, setup.rest))) ==> ReadsBack(setup)
    ensures !(Survives(setup.address) && AllFit(Lines(FileText(setup.address, setup.rest)))) ==>
              NewConfig(setup).databaseUrl == setup.misread
  {
    RoundTripIff(setup.address, setup.rest);
  }

  /** `ready` stands for every check between the recovery and the first write that is not modelled. */
  datatype InstallFates = InstallFates(
    recovery: RecoveryFates, ready: bool,
    backup: Fate, journal: Fate, dropBackup: Fate, config: Fate, adminPending: Fate, admin: Fate,
    locksHeld: bool, marker: Fate, rollback: RecoveryFates)

  function PriorContent(h: Host): Content
  {
    if h.config.Some? then h.config.value else NO_CONTENT
  }

  function NewJournal(h: Host, setup: Setup): Journal
  {
    Journal(setup.installId, Prepared, setup.adminId, h.config.Some?, DigestOf(PriorContent(h)))
  }

  /** An error before the marker runs the rollback in the same process; a crash runs nothing. */
  function Fail(h: Host, j: Journal, setup: Setup, fate: Fate, f: InstallFates): Outcome
  {
    if fate.CrashBefore? || fate.CrashAfter? then Outcome(h, false)
    else Outcome(Rewind(h, j, Some(setup.url), f.rollback).host, false)
  }

  function WithMarker(h: Host, setup: Setup): Host
  {
    h.(marker := Some(setup.installId))
  }

  function CommitMarker(h: Host, j: Journal, setup: Setup, f: InstallFates): Outcome
  {
    if !f.locksHeld then Fail(h, j, setup, Failed, f)
    else
      var h1 := Written(h, WithMarker(h, setup), f.marker);
      if !f.marker.Done? then Fail(h1, j, setup, f.marker, f) else Cleanup(h1, j, f.rollback)
  }

  function AdminCreated(h: Host, setup: Setup): Host
  {
    h.(users := h.users[setup.url := {setup.adminId}])
  }

  function CreateAdmin(h: Host, j: Journal, setup: Setup, f: InstallFates): Outcome
  {
    if UsersAt(h.users, setup.url) != {} then Fail(h, j, setup, Failed, f)
    else
      var h1 := Written(h, AdminCreated(h, setup), f.admin);
      if !f.admin.Done? then Fail(h1, j, setup, f.admin, f) else CommitMarker(h1, j, setup, f)
  }

  /** advanceInstallJournal changes the journal in memory before it writes it. */
  function AnnounceAdmin(h: Host, j: Journal, setup: Setup, f: InstallFates): Outcome
  {
    var h1 := Written(h, Advanced(h, j, AdminPending), f.adminPending);
    var j1 := j.(phase := AdminPending);
    if !f.adminPending.Done? then Fail(h1, j1, setup, f.adminPending, f) else CreateAdmin(h1, j1, setup, f)
  }

  function WriteConfig(h: Host, j: Journal, setup: Setup, f: InstallFates): Outcome
  {
    var h1 := Written(h, h.(config := Some(NewConfig(setup))), f.config);
    if !f.config.Done? then Fail(h1, j, setup, f.config, f) else AnnounceAdmin(h1, j, setup, f)
  }

  /** A journal that could not be written drops its backup, whatever really happened to it. */
  function WriteJournal(h: Host, setup: Setup, j: Journal, f: InstallFates): Outcome
  {
    var h1 := Written(h, h.(journal := Some(j)), f.journal);
    if f.journal.Done? then WriteConfig(h1, j, setup, f)
    else if f.journal.CrashBefore? || f.journal.CrashAfter? then Outcome(h1, false)
    else Outcome(Written(h1, h1.(backups := h1.backups - {setup.installId}), f.dropBackup), false)
  }

  function WriteBackup(h: Host, setup: Setup, f: InstallFates): Outcome
  {
    var h1 := Written(h, h.(backups := h.backups[setup.installId := PriorContent(h)]), f.backup);
    if !f.backup.Done? then Outcome(h1, false) else WriteJournal(h1, setup, NewJournal(h, setup), f)
  }

  function Perform(h: Host, setup: Setup, f: InstallFates): Outcome
  {
    var recovered := Recover(h, f.recovery);
    if !recovered.ok || recovered.host.marker.Some? || !f.ready || UsersAt(recovered.host.users, setup.url) != {} then
      Outcome(recovered.host, false)
    else WriteBackup(recovered.host, setup, f)
  }
}
