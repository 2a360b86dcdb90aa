/**
 When a request succeeds: exactly under the conditions that the rows and the user's standing must
 meet, in no particular order.
 */
module Admission {
  import opened Database
  import opened Operations
  import opened Permissions
  import opened Reachable
  import opened Wrappers

  ghost predicate GroupNameFree(db: Db, name: string, except: set<int>) {
    forall id | id in db.groups && id !in except :: db.groups[id].name != name
  }

  ghost predicate ConnectionNameFree(db: Db, group: int, name: string, except: set<int>) {
    forall id | id in db.connections && id !in except ::
      db.connections[id].group == group ==> db.connections[id].name != name
  }

  ghost predicate TransferNameFree(db: Db, group: int, name: string, except: set<int>) {
    forall id | id in db.transfers && id !in except ::
      db.transfers[id].group == group ==> db.transfers[id].name != name
  }

  ghost predicate GroupAdmits(db: Db, op: Op) {
    match op
    case RegisterUser(_) => true
    case CreateGroup(_, name) => GroupNameFree(db, name, {})
    case UpdateGroup(actor, group, name, owner) =>
      group in db.groups && Reaches(db, actor, group, Owner) && GroupNameFree(db, name, {group}) && owner in db.users
    case DeleteGroup(actor, group) => group in db.groups && IsSuperuser(db, actor)
    case AddMember(actor, group, user, _) =>
      && group in db.groups && Reaches(db, actor, group, Owner)
      && db.groups[group].owner != user && Seat(group, user) !in db.members && user in db.users
    case UpdateMember(actor, group, user, _) => Reaches(db, actor, group, Owner) && Seat(group, user) in db.members
    case RemoveMember(actor, group, user) =>
      Seat(group, user) in db.members && (user == actor || Reaches(db, actor, group, Owner))
    case _ => true
  }

  lemma GroupSucceedsIff(db: Db, op: Op)
    requires Consistent(db) && IsGroupOp(op)
    ensures After(db, op).1.Ok? <==> GroupAdmits(db, op)
  {
    if !op.RegisterUser? && !op.CreateGroup? {
      PermissionsByStanding(db, op.actor, op.group);
    }
    if op.UpdateGroup? {
      HandoverLosesNobody(db, op.actor, op.group, op.name, op.owner);
    }
  }

  lemma DeleteGroupSucceedsIff(db: Db, actor: int, group: int)
    ensures AfterDeleteGroup(db, actor, group).1.Ok? <==> GroupAdmits(db, DeleteGroup(actor, group))
  {
  }

  // ---------------------------------------------------------------------------
  // Connections and queues
  // ---------------------------------------------------------------------------

  predicate IsLinked(db: Db, connection: int) {
    exists x | x in db.transfers :: db.transfers[x].source == connection || db.transfers[x].target == connection
  }

  ghost predicate ConnectionAdmits(db: Db, op: Op) {
    match op
    case CreateConnection(actor, group, name, _, _) =>
      group in db.groups && Reaches(db, actor, group, Developer) && ConnectionNameFree(db, group, name, {})
    case UpdateConnection(actor, id, name, kind, request) =>
      && id in db.connections && Reaches(db, actor, db.connections[id].group, Developer)
      && (kind == db.connections[id].kind || !IsLinked(db, id))
      && id in db.credentials
      && (forall field | field in SecretFields(request.kind) ::
            field in request.secrets || db.credentials[id].kind == request.kind)
      && ConnectionNameFree(db, db.connections[id].group, name, {id})
    case DeleteConnection(actor, id) =>
      id in db.connections && Reaches(db, actor, db.connections[id].group, Maintainer) && !IsLinked(db, id)
    case CopyConnection(actor, id, group, newName, removeSource) =>
      && id in db.connections && group in db.groups && Reaches(db, actor, group, Developer)
      && Reaches(db, actor, db.connections[id].group, if removeSource then Maintainer else Guest)
      && ConnectionNameFree(db, group, NameOr(newName, db.connections[id].name), {})
    case _ => true
  }

  lemma ConnectionSucceedsIff(db: Db, op: Op)
    requires Valid(db) && (op.CreateConnection? || op.DeleteConnection?)
    ensures After(db, op).1.Ok? <==> ConnectionAdmits(db, op)
  {
    if op.CreateConnection? {
      PermissionsByStanding(db, op.actor, op.group);
    } else if op.connection in db.connections {
      PermissionsByStanding(db, op.actor, db.connections[op.connection].group);
    }
  }

  lemma UpdateConnectionSucceedsIff(db: Db, actor: int, id: int, name: string, kind: string, request: AuthRequest)
    requires Valid(db)
    ensures AfterUpdateConnection(db, actor, id, name, kind, request).1.Ok? <==>
            ConnectionAdmits(db, UpdateConnection(actor, id, name, kind, request))
  {
    if id in db.connections {
      PermissionsByStanding(db, actor, db.connections[id].group);
    }
  }

  lemma CopyConnectionSucceedsIff(
      db: Db, actor: int, id: int, group: int, newName: Option<string>, removeSource: bool)
    requires Consistent(db)
    ensures AfterCopyConnection(db, actor, id, group, newName, removeSource).1.Ok? <==>
            ConnectionAdmits(db, CopyConnection(actor, id, group, newName, removeSource))
  {
    PermissionsByStanding(db, actor, group);
    if id in db.connections {
      PermissionsByStanding(db, actor, db.connections[id].group);
    }
  }

  ghost predicate QueueAdmits(db: Db, op: Op) {
    match op
    case CreateQueue(actor, group, _, slug) =>
      && group in db.groups && Reaches(db, actor, group, Maintainer)
      && forall id | id in db.queues :: db.queues[id].slug != slug
    case UpdateQueue(actor, id, _) => id in db.queues && Reaches(db, actor, db.queues[id].group, Maintainer)
    case DeleteQueue(actor, id) =>
      && id in db.queues && Reaches(db, actor, db.queues[id].group, Maintainer)
      && forall x | x in db.transfers && db.transfers[x].group == db.queues[id].group :: db.transfers[x].queue != id
    case _ => true
  }

  lemma QueueSucceedsIff(db: Db, op: Op)
    requires Consistent(db) && (op.CreateQueue? || op.UpdateQueue? || op.DeleteQueue?)
    ensures After(db, op).1.Ok? <==> QueueAdmits(db, op)
  {
    if op.CreateQueue? {
      PermissionsByStanding(db, op.actor, op.group);
    } else if op.queue in db.queues {
      PermissionsByStanding(db, op.actor, db.queues[op.queue].group);
    }
  }

  // ---------------------------------------------------------------------------
  // Transfers and runs
  // ---------------------------------------------------------------------------

  /** Connections and queue exist in the group, and the connections have the types that the params name. */
  predicate FitsInto(db: Db, data: TransferData, group: int) {
    && data.source in db.connections && data.target in db.connections && data.queue in db.queues
    && db.connections[data.source].group == db.connections[data.target].group == db.queues[data.queue].group == group
    && db.connections[data.source].kind == data.sourceKind && db.connections[data.target].kind == data.targetKind
  }

  predicate HasBothCredentials(db: Db, id: int) {
    id in db.transfers && db.transfers[id].source in db.credentials && db.transfers[id].target in db.credentials
  }

  ghost predicate TransferAdmits(db: Db, op: Op) {
    match op
    case CreateTransfer(actor, data) =>
      && data.group in db.groups && Reaches(db, actor, data.group, Developer) && FitsInto(db, data, data.group)
      && TransferNameFree(db, data.group, data.name, {})
    case UpdateTransfer(actor, id, data) =>
      && id in db.transfers && Reaches(db, actor, db.transfers[id].group, Developer)
      && FitsInto(db, data, data.group) && Reaches(db, actor, data.group, Guest)
      && TransferNameFree(db, db.transfers[id].group, data.name, {id})
    case DeleteTransfer(actor, id) => id in db.transfers && Reaches(db, actor, db.transfers[id].group, Maintainer)
    case StartRun(actor, id) => HasBothCredentials(db, id) && Reaches(db, actor, db.transfers[id].group, Developer)
    case RunOnSchedule(id) => HasBothCredentials(db, id)
    case CopyTransfer(actor, id, copy) =>
      && id in db.transfers && copy.newGroup in db.groups && Reaches(db, actor, copy.newGroup, Developer)
      && Reaches(db, actor, db.transfers[id].group, if copy.removeSource then Maintainer else Guest)
      && var origin := db.transfers[id];
         && origin.source in db.connections && origin.target in db.connections
         && Reaches(db, actor, db.connections[origin.source].group, Guest)
         && copy.newQueue in db.queues && db.queues[copy.newQueue].group == copy.newGroup
         && EndNamesFree(db, origin, copy)
         && TransferNameFree(db, copy.newGroup, NameOr(copy.newName, origin.name), {})
    case _ => true
  }

  /** The names of the copied ends are free in the new group, and two ends do not share one. */
  ghost predicate EndNamesFree(db: Db, origin: Transfer, copy: CopyData)
    requires origin.source in db.connections && origin.target in db.connections
  {
    var source := NameOr(copy.newSourceName, db.connections[origin.source].name);
    var target := NameOr(copy.newTargetName, db.connections[origin.target].name);
    && ConnectionNameFree(db, copy.newGroup, source, {})
    && (origin.source != origin.target ==> ConnectionNameFree(db, copy.newGroup, target, {}) && target != source)
  }

  lemma CreateTransferSucceedsIff(db: Db, actor: int, data: TransferData)
    requires Consistent(db)
    ensures AfterCreateTransfer(db, actor, data).1.Ok? <==> TransferAdmits(db, CreateTransfer(actor, data))
  {
    PermissionsByStanding(db, actor, data.group);
  }

  lemma UpdateTransferSucceedsIff(db: Db, actor: int, id: int, data: TransferData)
    requires Consistent(db)
    ensures AfterUpdateTransfer(db, actor, id, data).1.Ok? <==> TransferAdmits(db, UpdateTransfer(actor, id, data))
  {
    PermissionsByStanding(db, actor, data.group);
    if id in db.transfers {
      PermissionsByStanding(db, actor, db.transfers[id].group);
    }
  }

  lemma TransferSucceedsIff(db: Db, op: Op)
    requires Consistent(db) && (op.DeleteTransfer? || op.StartRun? || op.RunOnSchedule?)
    ensures After(db, op).1.Ok? <==> TransferAdmits(db, op)
  {
    if !op.RunOnSchedule? && op.transfer in db.transfers {
      PermissionsByStanding(db, op.actor, db.transfers[op.transfer].group);
    }
  }

  lemma EndsSucceedIff(db: Db, origin: Transfer, copy: CopyData)
    requires Allocated(db) && origin.source in db.connections && origin.target in db.connections
    ensures CopiedEndpoints(db, origin, copy).1.Ok? <==> EndNamesFree(db, origin, copy)
    ensures CopiedEndpoints(db, origin, copy).1.Ok? ==> CopiedEndpoints(db, origin, copy).0.transfers == db.transfers
  {
    var source := NameOr(copy.newSourceName, db.connections[origin.source].name);
    var (one, answer) := CopiedConnection(db, origin.source, copy.newGroup, copy.newSourceName);
    assert answer.Ok? <==> ConnectionNameFree(db, copy.newGroup, source, {});
    if answer.Ok? && origin.source != origin.target {
      var target := NameOr(copy.newTargetName, db.connections[origin.target].name);
      assert one.connections[db.nextId].name == source && one.connections[db.nextId].group == copy.newGroup;
      assert ConnectionNameTaken(one, copy.newGroup, target, None) <==>
             ConnectionNameTaken(db, copy.newGroup, target, None) || target == source;
    }
  }

  lemma CopyTransferSucceedsIff(db: Db, actor: int, id: int, copy: CopyData)
    requires Consistent(db)
    ensures AfterCopyTransfer(db, actor, id, copy).1.Ok? <==> TransferAdmits(db, CopyTransfer(actor, id, copy))
  {
    PermissionsByStanding(db, actor, copy.newGroup);
    if id in db.transfers {
      var origin := db.transfers[id];
      assert CoherentTransfer(db.connections, db.queues, origin);
      PermissionsByStanding(db, actor, origin.group);
      PermissionsByStanding(db, actor, db.connections[origin.source].group);
      EndsSucceedIff(db, origin, copy);
    }
  }

  predicate IsConnectionOp(op: Op) {
    op.CreateConnection? || op.UpdateConnection? || op.DeleteConnection? || op.CopyConnection?
  }

  predicate IsTransferOp(op: Op) {
    || op.CreateTransfer? || op.UpdateTransfer? || op.CopyTransfer? || op.DeleteTransfer?
    || op.StartRun? || op.RunOnSchedule?
  }

  lemma ConnectionOpSucceedsIff(db: Db, op: Op)
    requires Valid(db) && IsConnectionOp(op)
    ensures After(db, op).1.Ok? <==> ConnectionAdmits(db, op)
  {
    match op
    case UpdateConnection(actor, id, name, kind, request) =>
      UpdateConnectionSucceedsIff(db, actor, id, name, kind, request);
    case CopyConnection(actor, id, group, newName, removeSource) =>
      CopyConnectionSucceedsIff(db, actor, id, group, newName, removeSource);
    case _ => ConnectionSucceedsIff(db, op);
  }

  lemma TransferOpSucceedsIff(db: Db, op: Op)
    requires Valid(db) && IsTransferOp(op)
    ensures After(db, op).1.Ok? <==> TransferAdmits(db, op)
  {
    match op
    case CreateTransfer(actor, data) => CreateTransferSucceedsIff(db, actor, data);
    case UpdateTransfer(actor, id, data) => UpdateTransferSucceedsIff(db, actor, id, data);
    case CopyTransfer(actor, id, copy) => CopyTransferSucceedsIff(db, actor, id, copy);
    case _ => TransferSucceedsIff(db, op);
  }

  ghost predicate Admits(db: Db, op: Op) {
    if IsGroupOp(op) || op.DeleteGroup? then GroupAdmits(db, op)
    else if IsConnectionOp(op) then ConnectionAdmits(db, op)
    else if IsTransferOp(op) then TransferAdmits(db, op)
    else QueueAdmits(db, op)
  }

  /** In every valid state a request succeeds exactly when these conditions hold. */
  lemma SucceedsIff(db: Db, op: Op)
    requires Valid(db)
    ensures After(db, op).1.Ok? <==> Admits(db, op)
  {
    if IsGroupOp(op) {
      GroupSucceedsIff(db, op);
    } else if op.DeleteGroup? {
      DeleteGroupSucceedsIff(db, op.actor, op.group);
    } else if IsConnectionOp(op) {
      ConnectionOpSucceedsIff(db, op);
    } else if IsTransferOp(op) {
      TransferOpSucceedsIff(db, op);
    } else {
      QueueSucceedsIff(db, op);
    }
  }
}
