/**
 * Every Project's manager is an active user (projectservice, userservice): the three
 * transactions Create, Transfer and UpdateStatus, interleaved statement by statement, where
 * each statement sees what is committed and a row lock is held until its transaction ends.
 */
module ProjectManagers {
  import opened Prelude

  type UserId = nat
  type ProjectId = nat
  type TxId = nat

  datatype User = User(active: bool, superAdmin: bool)

  /** A transaction, with the rows it read under its locks. */
  datatype Tx =
    | Creating(project: ProjectId, manager: UserId, row: Option<User>)
    | Transferring(project: ProjectId, observed: UserId, target: UserId, locked: set<UserId>, row: Option<User>,
                   current: Option<UserId>)
    | Updating(user: UserId, active: bool, row: Option<User>, unmanaged: bool)

  datatype Sys = Sys(users: map<UserId, User>, projects: map<ProjectId, UserId>, txs: map<TxId, Tx>)

  datatype Action =
    | AddUser(user: UserId)
    | Begin(t: TxId, tx: Tx)
    | LockUser(t: TxId)
    | LockProject(t: TxId)
    | CountManaged(t: TxId)
    | Commit(t: TxId)
    | Abort(t: TxId)

  predicate HoldsUser(tx: Tx, u: UserId)
  {
    match tx
    case Creating(_, manager, row) => row.Some? && u == manager
    case Transferring(_, _, _, locked, _, _) => u in locked
    case Updating(user, _, row, _) => row.Some? && u == user
  }

  predicate HoldsProject(tx: Tx, p: ProjectId)
  {
    tx.Transferring? && tx.current.Some? && tx.project == p
  }

  /** The user row a transaction locks next: a transfer takes its two in ascending order. */
  function NextUser(tx: Tx): Option<UserId>
  {
    match tx
    case Creating(_, manager, row) => if row.None? then Some(manager) else None
    case Updating(user, _, row, _) => if row.None? then Some(user) else None
    case Transferring(_, observed, target, locked, _, _) =>
      var first, second := Min(observed, target), Max(observed, target);
      if first !in locked then Some(first) else if second !in locked then Some(second) else None
  }

  /** After its users, a transfer locks its Project. */
  function NextProject(tx: Tx): Option<ProjectId>
  {
    if tx.Transferring? && NextUser(tx).None? && tx.current.None? then Some(tx.project) else None
  }

  function Fresh(tx: Tx): Tx
  {
    match tx
    case Creating(project, manager, _) => Creating(project, manager, None)
    case Transferring(project, observed, target, _, _, _) => Transferring(project, observed, target, {}, None, None)
    case Updating(user, active, _, _) => Updating(user, active, None, false)
  }

  ghost predicate UserFree(s: Sys, u: UserId)
  {
    forall t :: t in s.txs ==> !HoldsUser(s.txs[t], u)
  }

  ghost predicate ProjectFree(s: Sys, p: ProjectId)
  {
    forall t :: t in s.txs ==> !HoldsProject(s.txs[t], p)
  }

  function End(s: Sys, t: TxId): Sys
  {
    s.(txs := s.txs - {t})
  }

  function WithUser(tx: Tx, u: UserId, row: User): Tx
  {
    match tx
    case Creating(project, manager, _) => Creating(project, manager, Some(row))
    case Updating(user, active, _, unmanaged) => Updating(user, active, Some(row), unmanaged)
    case Transferring(project, observed, target, locked, known, current) =>
      Transferring(project, observed, target, locked + {u}, if u == target then Some(row) else known, current)
  }

  /** Whether the transaction body gets to its write, given what it read. */
  predicate MayWrite(tx: Tx, projects: map<ProjectId, UserId>)
  {
    match tx
    case Creating(project, _, row) => row.Some? && row.value.active && project !in projects
    case Transferring(_, observed, target, _, row, current) =>
      row.Some? && current == Some(observed) && row.value.active && observed != target
    case Updating(_, active, row, unmanaged) =>
      row.Some? && row.value.active != active && !row.value.superAdmin && (active || unmanaged)
  }

  function Written(s: Sys, tx: Tx): Sys
  {
    match tx
    case Creating(project, manager, _) => s.(projects := s.projects[project := manager])
    case Transferring(project, _, target, _, _, _) => s.(projects := s.projects[project := target])
    case Updating(user, active, row, _) =>
      if row.Some? then s.(users := s.users[user := row.value.(active := active)]) else s
  }

  /** A step that would wait for a lock leaves everything as it is; a missing row ends the transaction. */
  ghost function Apply(s: Sys, a: Action): Sys
  {
    match a
    case AddUser(user) => if user in s.users then s else s.(users := s.users[user := User(true, false)])
    case Begin(t, tx) => if t in s.txs then s else s.(txs := s.txs[t := Fresh(tx)])
    case LockUser(t) =>
      if t !in s.txs || NextUser(s.txs[t]).None? then s
      else
        var u := NextUser(s.txs[t]).value;
        if !UserFree(s, u) then s
        else if u !in s.users then End(s, t)
        else s.(txs := s.txs[t := WithUser(s.txs[t], u, s.users[u])])
    case LockProject(t) =>
      if t !in s.txs || NextProject(s.txs[t]).None? || !ProjectFree(s, s.txs[t].project) then s
      else if s.txs[t].project !in s.projects then End(s, t)
      else s.(txs := s.txs[t := s.txs[t].(current := Some(s.projects[s.txs[t].project]))])
    case CountManaged(t) =>
      if t !in s.txs || !s.txs[t].Updating? || s.txs[t].row.None? then s
      else if exists p :: p in s.projects && s.projects[p] == s.txs[t].user then End(s, t)
      else s.(txs := s.txs[t := s.txs[t].(unmanaged := true)])
    case Commit(t) =>
      if t !in s.txs then s
      else End(if MayWrite(s.txs[t], s.projects) then Written(s, s.txs[t]) else s, t)
    case Abort(t) => End(s, t)
  }

  ghost function Execute(users: map<UserId, User>, actions: seq<Action>): Sys
    decreases |actions|
  {
    if actions == [] then Sys(users, map[], map[])
    else Apply(Execute(users, actions[..|actions| - 1]), actions[|actions| - 1])
  }

  // ---------------------------------------------------------------- the invariant

  ghost predicate ManagersActive(users: map<UserId, User>, projects: map<ProjectId, UserId>)
  {
    forall p :: p in projects ==> projects[p] in users && users[projects[p]].active
  }

  ghost predicate NoneManagedBy(projects: map<ProjectId, UserId>, u: UserId)
  {
    forall p :: p in projects ==> projects[p] != u
  }

  /** What a transaction read under its locks is still what is committed. */
  ghost predicate TxOk(tx: Tx, users: map<UserId, User>, projects: map<ProjectId, UserId>)
  {
    match tx
    case Creating(_, manager, row) => row.Some? ==> manager in users && users[manager] == row.value
    case Transferring(project, observed, target, locked, row, current) =>
      && locked <= {observed, target}
      && (Max(observed, target) in locked ==> Min(observed, target) in locked)
      && (row.Some? <==> target in locked)
      && (row.Some? ==> target in users && users[target] == row.value)
      && (current.Some? ==> NextUser(tx).None? && project in projects && projects[project] == current.value)
    case Updating(user, _, row, unmanaged) =>
      && (row.Some? ==> user in users && users[user] == row.value)
      && (unmanaged ==> row.Some? && NoneManagedBy(projects, user))
  }

  ghost predicate LocksExclusive(txs: map<TxId, Tx>)
  {
    && (forall t, t', u :: t in txs && t' in txs && HoldsUser(txs[t], u) && HoldsUser(txs[t'], u) ==> t == t')
    && (forall t, t', p :: t in txs && t' in txs && HoldsProject(txs[t], p) && HoldsProject(txs[t'], p) ==> t == t')
  }

  ghost predicate SysOk(s: Sys)
  {
    && ManagersActive(s.users, s.projects)
    && LocksExclusive(s.txs)
    && forall t {:trigger TxOk(s.txs[t], s.users, s.projects)} :: t in s.txs ==> TxOk(s.txs[t], s.users, s.projects)
  }

  lemma EndKeeps(s: Sys, t: TxId)
    requires SysOk(s)
    ensures SysOk(End(s, t))
  {
    forall t' | t' in End(s, t).txs
      ensures TxOk(End(s, t).txs[t'], s.users, s.projects)
    {
      assert TxOk(s.txs[t'], s.users, s.projects);
    }
  }

  /** Replaces one transaction by one that holds, besides, at most locks that were free. */
  lemma StepTxKeeps(s: Sys, t: TxId, tx: Tx)
    requires SysOk(s)
    requires TxOk(tx, s.users, s.projects)
    requires forall u :: HoldsUser(tx, u) ==> UserFree(s, u) || (t in s.txs && HoldsUser(s.txs[t], u))
    requires forall p :: HoldsProject(tx, p) ==> ProjectFree(s, p) || (t in s.txs && HoldsProject(s.txs[t], p))
    ensures SysOk(s.(txs := s.txs[t := tx]))
  {
    var s' := s.(txs := s.txs[t := tx]);
    forall t' | t' in s'.txs
      ensures TxOk(s'.txs[t'], s'.users, s'.projects)
    {
      assert t' != t ==> TxOk(s.txs[t'], s.users, s.projects);
    }
  }

  lemma LockUserKeeps(s: Sys, t: TxId)
    requires SysOk(s) && t in s.txs && NextUser(s.txs[t]).Some?
    requires UserFree(s, NextUser(s.txs[t]).value) && NextUser(s.txs[t]).value in s.users
    ensures SysOk(Apply(s, LockUser(t)))
  {
    var u := NextUser(s.txs[t]).value;
    assert TxOk(s.txs[t], s.users, s.projects);
    StepTxKeeps(s, t, WithUser(s.txs[t], u, s.users[u]));
  }

  /** A transaction's own write cannot touch what another one read under a lock. */
  lemma CommitKeepsOthers(s: Sys, t: TxId, other: TxId)
    requires SysOk(s) && t in s.txs && other in s.txs && other != t && MayWrite(s.txs[t], s.projects)
    ensures TxOk(s.txs[other], Written(s, s.txs[t]).users, Written(s, s.txs[t]).projects)
  {
    var tx, tx' := s.txs[t], s.txs[other];
    assert TxOk(tx, s.users, s.projects) && TxOk(tx', s.users, s.projects);
    match tx
    case Creating(project, manager, row) => assert HoldsUser(tx, manager);
    case Transferring(project, observed, target, locked, row, current) =>
      assert HoldsUser(tx, target) && HoldsProject(tx, project);
    case Updating(user, active, row, unmanaged) => assert HoldsUser(tx, user);
  }

  lemma CommitKeeps(s: Sys, t: TxId)
    requires SysOk(s) && t in s.txs && MayWrite(s.txs[t], s.projects)
    ensures SysOk(Apply(s, Commit(t)))
  {
    var s' := Apply(s, Commit(t));
    assert TxOk(s.txs[t], s.users, s.projects);
    forall other | other in s'.txs
      ensures TxOk(s'.txs[other], s'.users, s'.projects)
    {
      CommitKeepsOthers(s, t, other);
    }
  }

  lemma ApplyKeeps(s: Sys, a: Action)
    requires SysOk(s)
    ensures SysOk(Apply(s, a))
  {
    match a
    case AddUser(user) => AddUserKeeps(s, user);
    case Begin(t, tx) =>
      if t !in s.txs {
        StepTxKeeps(s, t, Fresh(tx));
      }
    case LockUser(t) =>
      if t in s.txs && NextUser(s.txs[t]).Some? && UserFree(s, NextUser(s.txs[t]).value) {
        if NextUser(s.txs[t]).value in s.users {
          LockUserKeeps(s, t);
        } else {
          EndKeeps(s, t);
        }
      }
    case LockProject(t) => LockProjectKeeps(s, t);
    case CountManaged(t) => CountManagedKeeps(s, t);
    case Commit(t) =>
      if t in s.txs {
        if MayWrite(s.txs[t], s.projects) {
          CommitKeeps(s, t);
        } else {
          EndKeeps(s, t);
        }
      }
    case Abort(t) => EndKeeps(s, t);
  }

  lemma AddUserKeeps(s: Sys, user: UserId)
    requires SysOk(s)
    ensures SysOk(Apply(s, AddUser(user)))
  {
    var s' := Apply(s, AddUser(user));
    forall t | t in s'.txs
      ensures TxOk(s'.txs[t], s'.users, s'.projects)
    {
      assert TxOk(s.txs[t], s.users, s.projects);
    }
  }

  lemma LockProjectKeeps(s: Sys, t: TxId)
    requires SysOk(s)
    ensures SysOk(Apply(s, LockProject(t)))
  {
    if t in s.txs && NextProject(s.txs[t]).Some? && ProjectFree(s, s.txs[t].project) {
      assert TxOk(s.txs[t], s.users, s.projects);
      if s.txs[t].project in s.projects {
        StepTxKeeps(s, t, s.txs[t].(current := Some(s.projects[s.txs[t].project])));
      } else {
        EndKeeps(s, t);
      }
    }
  }

  lemma CountManagedKeeps(s: Sys, t: TxId)
    requires SysOk(s)
    ensures SysOk(Apply(s, CountManaged(t)))
  {
    if t in s.txs && s.txs[t].Updating? && s.txs[t].row.Some? {
      assert TxOk(s.txs[t], s.users, s.projects);
      if exists p :: p in s.projects && s.projects[p] == s.txs[t].user {
        EndKeeps(s, t);
      } else {
        StepTxKeeps(s, t, s.txs[t].(unmanaged := true));
      }
    }
  }

  lemma {:induction false} ExecuteKeepsSysOk(users: map<UserId, User>, actions: seq<Action>)
    ensures SysOk(Execute(users, actions))
    decreases |actions|
  {
    if actions == [] {
    } else {
      ExecuteKeepsSysOk(users, actions[..|actions| - 1]);
      ApplyKeeps(Execute(users, actions[..|actions| - 1]), actions[|actions| - 1]);
    }
  }

  // ------------------------------------------------------------------ theorems

  /** In every interleaving of the three transactions, every committed Project's manager is active. */
  lemma ManagersStayActive(users: map<UserId, User>, actions: seq<Action>)
    ensures ManagersActive(Execute(users, actions).users, Execute(users, actions).projects)
  {
    ExecuteKeepsSysOk(users, actions);
  }

  /** No interleaving ever changes a super administrator, or makes or removes one. */
  lemma {:induction false} SuperAdminsAreImmutable(users: map<UserId, User>, actions: seq<Action>, u: UserId)
    ensures u in users ==> u in Execute(users, actions).users
    ensures u in Execute(users, actions).users ==>
              (Execute(users, actions).users[u].superAdmin <==> u in users && users[u].superAdmin)
    ensures u in users && users[u].superAdmin ==> Execute(users, actions).users[u] == users[u]
    decreases |actions|
  {
    if actions == [] {
    } else {
      var init, a := actions[..|actions| - 1], actions[|actions| - 1];
      SuperAdminsAreImmutable(users, init, u);
      ExecuteKeepsSysOk(users, init);
      var s := Execute(users, init);
      if a.Commit? && a.t in s.txs {
        assert TxOk(s.txs[a.t], s.users, s.projects);
      }
    }
  }

  /** What a transaction waits for: rows of users come before rows of Projects, each in ascending order. */
  datatype Resource = UserRow(u: UserId) | ProjectRow(p: ProjectId)

  predicate Before(r: Resource, r': Resource)
  {
    match (r, r')
    case (UserRow(u), UserRow(u')) => u < u'
    case (UserRow(_), ProjectRow(_)) => true
    case (ProjectRow(p), ProjectRow(p')) => p < p'
    case (ProjectRow(_), UserRow(_)) => false
  }

  function Wanted(tx: Tx): Option<Resource>
  {
    if NextUser(tx).Some? then Some(UserRow(NextUser(tx).value))
    else if NextProject(tx).Some? then Some(ProjectRow(NextProject(tx).value))
    else None
  }

  predicate Holds(tx: Tx, r: Resource)
  {
    match r case UserRow(u) => HoldsUser(tx, u) case ProjectRow(p) => HoldsProject(tx, p)
  }

  /** The transaction waits for a row that another one has locked. */
  predicate Blocked(txs: map<TxId, Tx>, t: TxId)
  {
    t in txs && Wanted(txs[t]).Some? && exists t' :: t' in txs && Holds(txs[t'], Wanted(txs[t]).value)
  }

  /** Locks are taken in ascending order. */
  lemma AscendingLocks(tx: Tx, users: map<UserId, User>, projects: map<ProjectId, UserId>, r: Resource)
    requires TxOk(tx, users, projects) && Wanted(tx).Some? && Holds(tx, r)
    ensures Before(r, Wanted(tx).value)
  {
  }

  /** Following who holds what the blocked `t` wants leads to ever later rows, so it ends at one that is not blocked. */
  lemma {:induction false} SomeoneIsUnblocked(txs: map<TxId, Tx>, users: map<UserId, User>,
                                              projects: map<ProjectId, UserId>,
                                              waiting: set<TxId>, t: TxId)
    requires forall k {:trigger TxOk(txs[k], users, projects)} :: k in txs ==> TxOk(txs[k], users, projects)
    requires t in waiting && waiting <= txs.Keys
    requires forall k :: k in txs && k !in waiting && Blocked(txs, k) && Blocked(txs, t) ==>
               Before(Wanted(txs[k]).value, Wanted(txs[t]).value)
    ensures exists k :: k in txs && !Blocked(txs, k)
    decreases waiting
  {
    if Blocked(txs, t) {
      var r := Wanted(txs[t]).value;
      var holder :| holder in txs && Holds(txs[holder], r);
      if Blocked(txs, holder) {
        assert TxOk(txs[holder], users, projects);
        AscendingLocks(txs[holder], users, projects, r);
        assert holder in waiting && holder != t;
        SomeoneIsUnblocked(txs, users, projects, waiting - {t}, holder);
      }
    }
  }

  /** No interleaving deadlocks: while transactions are open, one of them is not waiting for a lock. */
  lemma NoDeadlock(users: map<UserId, User>, actions: seq<Action>)
    ensures var txs := Execute(users, actions).txs; txs != map[] ==> exists t :: t in txs && !Blocked(txs, t)
  {
    ExecuteKeepsSysOk(users, actions);
    var s := Execute(users, actions);
    if s.txs != map[] {
      var t :| t in s.txs;
      SomeoneIsUnblocked(s.txs, s.users, s.projects, s.txs.Keys, t);
    }
  }

  // ------------------------------------------------------------------ the services

  datatype TransferResult = Transferred | ProjectNotFound | ManagerNotFound | ManagerInactive | RetriesExhausted

  datatype UpdateResult = Updated | UserNotFound | SuperAdminImmutable | UserHasManagedProjects

  const TRANSFER_ATTEMPTS: nat := 4

  /** Whole transactions of others, as the locks make them atomic. */
  datatype Change =
    | Create(project: ProjectId, manager: UserId)
    | Move(project: ProjectId, target: UserId)
    | SetStatus(user: UserId, active: bool)

  predicate Manages(projects: map<ProjectId, UserId>, user: UserId)
  {
    exists p :: p in projects && projects[p] == user
  }

  predicate MayManage(users: map<UserId, User>, user: UserId)
  {
    user in users && users[user].active
  }

  function Changed(users: map<UserId, User>, projects: map<ProjectId, UserId>, change: Change)
    : (map<UserId, User>, map<ProjectId, UserId>)
  {
    match change
    case Create(project, manager) =>
      (users, if project !in projects && MayManage(users, manager) then projects[project := manager] else projects)
    case Move(project, target) =>
      (users, if project in projects && MayManage(users, target) then projects[project := target] else projects)
    case SetStatus(user, active) =>
      if user !in users || users[user].superAdmin || (!active && Manages(projects, user)) then (users, projects)
      else (users[user := users[user].(active := active)], projects)
  }

  function ChangedAll(users: map<UserId, User>, projects: map<ProjectId, UserId>, changes: seq<Change>)
    : (map<UserId, User>, map<ProjectId, UserId>)
  {
    if changes == [] then (users, projects)
    else
      var (users', projects') := ChangedAll(users, projects, changes[..|changes| - 1]);
      Changed(users', projects', changes[|changes| - 1])
  }

  /** What others have committed before try `n`, when no try before has committed. */
  function Meanwhile(users: map<UserId, User>, projects: map<ProjectId, UserId>, others: nat -> seq<Change>, n: nat)
    : (map<UserId, User>, map<ProjectId, UserId>)
  {
    if n == 0 then (users, projects)
    else
      var (users', projects') := Meanwhile(users, projects, others, n - 1);
      ChangedAll(users', projects', others(n - 1))
  }

  /** Before try `k`, somebody else moved the Project. */
  predicate Overtaken(users: map<UserId, User>, projects: map<ProjectId, UserId>, others: nat -> seq<Change>,
                      project: ProjectId, k: nat)
  {
    var before, after := Meanwhile(users, projects, others, k).1, Meanwhile(users, projects, others, k + 1).1;
    project in before && project in after && before[project] != after[project]
  }

  lemma MeanwhileOnce(users: map<UserId, User>, projects: map<ProjectId, UserId>, others: nat -> seq<Change>, n: nat,
                      before: (map<UserId, User>, map<ProjectId, UserId>), project: ProjectId)
    requires before == Meanwhile(users, projects, others, n)
    ensures Meanwhile(users, projects, others, n + 1) == ChangedAll(before.0, before.1, others(n))
    ensures Overtaken(users, projects, others, project, n)
            <==> var after := ChangedAll(before.0, before.1, others(n)).1;
                 project in before.1 && project in after && before.1[project] != after[project]
  {
  }

  /** With nobody else about nothing changes before any try, and no try is overtaken. */
  lemma {:induction false} AloneIsNotOvertaken(users: map<UserId, User>, projects: map<ProjectId, UserId>,
                                               others: nat -> seq<Change>, project: ProjectId, n: nat)
    requires forall t :: others(t) == []
    ensures Meanwhile(users, projects, others, n) == (users, projects)
    ensures !Overtaken(users, projects, others, project, n)
  {
    if n == 0 {
      assert Meanwhile(users, projects, others, 1) == ChangedAll(users, projects, others(0));
    } else {
      AloneIsNotOvertaken(users, projects, others, project, n - 1);
      assert Meanwhile(users, projects, others, n + 1) == ChangedAll(users, projects, others(n));
    }
  }

  // ------------------------------------------------- the interleaving is sequential

  /** The transaction has read all that its body reads. */
  predicate Complete(tx: Tx)
  {
    match tx
    case Creating(_, _, row) => row.Some?
    case Transferring(_, observed, target, locked, _, current) =>
      observed in locked && target in locked && current.Some?
    case Updating(_, active, row, unmanaged) =>
      row.Some? && (active || unmanaged || row.value.active == active || row.value.superAdmin)
  }

  /**
   * A transaction that commits has, at that moment, exactly the effect it would have had alone:
   * a Project created, moved if its manager is still the one observed, or a status set.
   */
  lemma CommitIsAtomic(s: Sys, t: TxId)
    requires SysOk(s) && t in s.txs && Complete(s.txs[t])
    ensures var s', tx := Apply(s, Commit(t)), s.txs[t];
            (s'.users, s'.projects)
            == match tx
               case Creating(project, manager, _) => Changed(s.users, s.projects, Create(project, manager))
               case Transferring(project, observed, target, _, _, _) =>
                 if project in s.projects && s.projects[project] == observed then
                   Changed(s.users, s.projects, Move(project, target))
                 else (s.users, s.projects)
               case Updating(user, active, _, _) => Changed(s.users, s.projects, SetStatus(user, active))
  {
    var tx := s.txs[t];
    assert TxOk(tx, s.users, s.projects);
    match tx
    case Creating(project, manager, row) =>
    case Transferring(project, observed, target, locked, row, current) =>
      if observed == target && project in s.projects && s.projects[project] == observed {
        assert s.projects[project := target] == s.projects;
      }
    case Updating(user, active, row, unmanaged) =>
      if row.value.active == active {
        assert s.users[user := s.users[user].(active := active)] == s.users;
      }
  }

  /** What a run commits, in the order of its commits. */
  datatype Entry = Added(user: UserId) | Did(change: Change)

  function ChangeOf(tx: Tx): Change
  {
    match tx
    case Creating(project, manager, _) => Create(project, manager)
    case Transferring(project, _, target, _, _, _) => Move(project, target)
    case Updating(user, active, _, _) => SetStatus(user, active)
  }

  ghost function EntryOf(s: Sys, a: Action): seq<Entry>
  {
    if a.AddUser? && a.user !in s.users then [Added(a.user)]
    else if a.Commit? && a.t in s.txs && MayWrite(s.txs[a.t], s.projects) then [Did(ChangeOf(s.txs[a.t]))]
    else []
  }

  ghost function Journal(users: map<UserId, User>, actions: seq<Action>): seq<Entry>
    decreases |actions|
  {
    if actions == [] then []
    else
      var init := actions[..|actions| - 1];
      Journal(users, init) + EntryOf(Execute(users, init), actions[|actions| - 1])
  }

  function PlayOne(state: (map<UserId, User>, map<ProjectId, UserId>), entry: Entry)
    : (map<UserId, User>, map<ProjectId, UserId>)
  {
    match entry
    case Added(user) => (state.0[user := User(true, false)], state.1)
    case Did(change) => Changed(state.0, state.1, change)
  }

  /** The journal carried out one entry after the other. */
  function Played(users: map<UserId, User>, journal: seq<Entry>): (map<UserId, User>, map<ProjectId, UserId>)
  {
    if journal == [] then (users, map[])
    else PlayOne(Played(users, journal[..|journal| - 1]), journal[|journal| - 1])
  }

  /** A transaction that may write has read all it reads. */
  lemma WriterIsComplete(s: Sys, t: TxId)
    requires SysOk(s) && t in s.txs && MayWrite(s.txs[t], s.projects)
    ensures Complete(s.txs[t])
    ensures var s' := Apply(s, Commit(t)); (s'.users, s'.projects) == Changed(s.users, s.projects, ChangeOf(s.txs[t]))
  {
    assert TxOk(s.txs[t], s.users, s.projects);
    CommitIsAtomic(s, t);
  }

  /** Each step commits its entry of the journal, or nothing. */
  lemma EntryEffect(s: Sys, a: Action)
    requires SysOk(s)
    ensures var s' := Apply(s, a);
            (s'.users, s'.projects)
            == if EntryOf(s, a) == [] then (s.users, s.projects) else PlayOne((s.users, s.projects), EntryOf(s, a)[0])
  {
    if a.Commit? && EntryOf(s, a) != [] {
      WriterIsComplete(s, a.t);
    }
  }

  lemma PlayedAppend(users: map<UserId, User>, journal: seq<Entry>, entry: Entry)
    ensures Played(users, journal + [entry]) == PlayOne(Played(users, journal), entry)
  {
    assert (journal + [entry])[..|journal|] == journal;
  }

  /**
   * Every interleaving is equivalent to its committed transactions one after the other, in the
   * order of their commits.
   */
  lemma {:induction false} Serializable(users: map<UserId, User>, actions: seq<Action>)
    ensures Played(users, Journal(users, actions)) == (Execute(users, actions).users, Execute(users, actions).projects)
    decreases |actions|
  {
    if actions == [] {
    } else {
      var init, a := actions[..|actions| - 1], actions[|actions| - 1];
      var s, journal := Execute(users, init), Journal(users, init);
      Serializable(users, init);
      ExecuteKeepsSysOk(users, init);
      EntryEffect(s, a);
      if EntryOf(s, a) == [] {
        assert journal + [] == journal;
      } else {
        assert EntryOf(s, a) == [EntryOf(s, a)[0]];
        PlayedAppend(users, journal, EntryOf(s, a)[0]);
      }
    }
  }

  /** A transfer that meets nobody takes its three locks and moves the Project. */
  lemma TransferRuns(s: Sys, t: TxId, project: ProjectId, observed: UserId, target: UserId)
    requires s.txs == map[] && project in s.projects && s.projects[project] == observed
    requires observed in s.users && MayManage(s.users, target) && observed != target
    ensures var tx := Transferring(project, observed, target, {}, None, None);
            var s3 := Apply(Apply(Apply(Apply(s, Begin(t, tx)), LockUser(t)), LockUser(t)), LockProject(t));
            var s' := Apply(s3, Commit(t));
            s'.projects == s.projects[project := target] && s'.users == s.users && t !in s'.txs
  {
    var tx := Transferring(project, observed, target, {}, None, None);
    var s0 := Apply(s, Begin(t, tx));
    assert s0.txs[t] == tx;
    var s1 := Apply(s0, LockUser(t));
    var first, second := Min(observed, target), Max(observed, target);
    assert s1.txs[t].locked == {first};
    var s2 := Apply(s1, LockUser(t));
    assert s2.txs[t].locked == {first, second} && s2.txs[t].row == Some(s.users[target]);
    var s3 := Apply(s2, LockProject(t));
    assert s3.txs[t].current == Some(observed);
  }

  class Platform {
    var users: map<UserId, User>
    var projects: map<ProjectId, UserId>

    constructor (users: map<UserId, User>)
      ensures Valid() && this.users == users && projects == map[]
    {
      this.users, projects := users, map[];
    }

    ghost predicate Valid()
      reads this
    {
      ManagersActive(users, projects)
    }

    method CreateProject(project: ProjectId, manager: UserId) returns (r: TransferResult)
      requires Valid() && project !in projects
      modifies this`projects
      ensures Valid()
      ensures r == if manager !in users then ManagerNotFound
                   else if !users[manager].active then ManagerInactive else Transferred
      ensures projects == if r.Transferred? then old(projects)[project := manager] else old(projects)
    {
      if manager !in users {
        return ManagerNotFound;
      }
      if !users[manager].active {
        return ManagerInactive;
      }
      projects := projects[project := manager];
      return Transferred;
    }

    method UpdateStatus(user: UserId, active: bool) returns (r: UpdateResult)
      requires Valid()
      modifies this`users
      ensures Valid()
      ensures r == if user !in old(users) then UserNotFound
                   else if old(users)[user].active == active then Updated
                   else if old(users)[user].superAdmin then SuperAdminImmutable
                   else if !active && exists p :: p in projects && projects[p] == user then UserHasManagedProjects
                   else Updated
      ensures users == if r.Updated? then old(users)[user := old(users)[user].(active := active)] else old(users)
    {
      if user !in users {
        return UserNotFound;
      }
      if users[user].active == active {
        assert users[user].(active := active) == users[user];
        return Updated;
      }
      if users[user].superAdmin {
        return SuperAdminImmutable;
      }
      if !active && exists p :: p in projects && projects[p] == user {
        return UserHasManagedProjects;
      }
      users := users[user := users[user].(active := active)];
      return Updated;
    }

    /** One try of Transfer under its locks; None is errTransferRetry: the manager is not the observed one. */
    method TryTransfer(project: ProjectId, observed: UserId, target: UserId) returns (r: Option<TransferResult>)
      requires Valid() && observed in users
      modifies this`projects
      ensures Valid()
      ensures r == if target !in users then Some(ManagerNotFound)
                   else if project !in old(projects) then Some(ProjectNotFound)
                   else if old(projects)[project] != observed then None
                   else if !users[target].active then Some(ManagerInactive)
                   else Some(Transferred)
      ensures projects == if r == Some(Transferred) then old(projects)[project := target] else old(projects)
    {
      if target !in users {
        return Some(ManagerNotFound);
      }
      if project !in projects {
        return Some(ProjectNotFound);
      }
      if projects[project] != observed {
        return None;
      }
      if !users[target].active {
        return Some(ManagerInactive);
      }
      projects := projects[project := target];
      return Some(Transferred);
    }

    /** What others commit meanwhile. */
    method Others(changes: seq<Change>)
      requires Valid()
      modifies this
      ensures Valid() && users.Keys == old(users.Keys) && projects.Keys >= old(projects.Keys)
      ensures (users, projects) == ChangedAll(old(users), old(projects), changes)
    {
      for k := 0 to |changes|
        invariant Valid() && users.Keys == old(users.Keys) && projects.Keys >= old(projects.Keys)
        invariant (users, projects) == ChangedAll(old(users), old(projects), changes[..k])
      {
        assert changes[..k + 1][..k] == changes[..k];
        Commit(changes[k]);
      }
      assert changes[..|changes|] == changes;
    }

    method Commit(change: Change)
      requires Valid()
      modifies this
      ensures Valid() && users.Keys == old(users.Keys) && projects.Keys >= old(projects.Keys)
      ensures (users, projects) == Changed(old(users), old(projects), change)
    {
      match change {
        case Create(project, manager) =>
          if project !in projects {
            var r := CreateProject(project, manager);
          }
        case Move(project, target) =>
          if project in projects {
            var r := TryTransfer(project, projects[project], target);
          }
        case SetStatus(user, active) =>
          assert user in users && users[user].active == active ==>
                   users[user := users[user].(active := active)] == users;
          var r := UpdateStatus(user, active);
      }
    }

    /** Others commit, and then comes one try. */
    method TryAfter(changes: seq<Change>, project: ProjectId, observed: UserId, target: UserId)
      returns (r: Option<TransferResult>)
      requires Valid() && project in projects && observed == projects[project]
      modifies this
      ensures Valid() && users.Keys == old(users.Keys) && project in projects
      ensures var (users', projects') := ChangedAll(old(users), old(projects), changes);
              && users == users' && project in projects'
              && (r == if target !in users then Some(ManagerNotFound)
                       else if projects'[project] != old(projects)[project] then None
                       else if !users[target].active then Some(ManagerInactive)
                       else Some(Transferred))
              && projects == if r == Some(Transferred) then projects'[project := target] else projects'
    {
      Others(changes);
      r := TryTransfer(project, observed, target);
    }

    /**
     * Transfer: up to four tries, each against the manager seen last, with whatever others commit
     * before each. A further try follows only if somebody else moved the Project meanwhile; the
     * last one decides on what it sees, and changes that Project's manager or nothing.
     */
    method Transfer(project: ProjectId, target: UserId, others: nat -> seq<Change>)
      returns (r: TransferResult, tries: nat)
      requires Valid()
      modifies this
      ensures Valid() && tries <= TRANSFER_ATTEMPTS
      ensures var (users', projects') := Meanwhile(old(users), old(projects), others, tries);
              && users == users'
              && projects == (if r.Transferred? then projects'[project := target] else projects')
              && (r.Transferred? ==> project in projects' && MayManage(users, target))
              && (r.ManagerInactive? ==> target in users && !users[target].active)
      ensures r.ProjectNotFound? <==> project !in old(projects)
      ensures r.ManagerNotFound? <==> project in old(projects) && target !in users
      ensures r.ProjectNotFound? ==> tries == 0
      ensures r.RetriesExhausted? ==> tries == TRANSFER_ATTEMPTS
      ensures tries <= 4 && (r.RetriesExhausted? ==> tries == 4)
      ensures forall k :: 0 <= k < (if r.RetriesExhausted? then tries else tries - 1) ==>
                            Overtaken(old(users), old(projects), others, project, k)
      ensures r.Transferred? || r.ManagerInactive? ==>
                tries >= 1 && !Overtaken(old(users), old(projects), others, project, tries - 1)
    {
      tries := 0;
      if project !in projects {
        return ProjectNotFound, tries;
      }
      var observed := projects[project];
      while tries < TRANSFER_ATTEMPTS
        invariant Valid() && users.Keys == old(users.Keys) && project in projects && observed == projects[project]
        invariant tries <= TRANSFER_ATTEMPTS && (users, projects) == Meanwhile(old(users), old(projects), others, tries)
        invariant tries > 0 ==> target in users
        invariant forall k :: 0 <= k < tries ==> Overtaken(old(users), old(projects), others, project, k)
        decreases TRANSFER_ATTEMPTS - tries
      {
        MeanwhileOnce(old(users), old(projects), others, tries, (users, projects), project);
        var outcome := TryAfter(others(tries), project, observed, target);
        tries := tries + 1;
        if outcome.Some? {
          return outcome.value, tries;
        }
        observed := projects[project];
      }
      return RetriesExhausted, tries;
    }
  }
}
