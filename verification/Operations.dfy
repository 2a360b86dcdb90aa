/**
 What each endpoint of the server, and a job of the scheduler, does to the database, as a
 function from the state before to the state after and the answer. What answers with an error
 has rolled back.
 */
module Operations {
  import opened Wrappers
  import opened Database

  datatype TransferData = TransferData(
    group: int, name: string, source: int, target: int, queue: int,
    sourceKind: string, targetKind: string, settings: string)

  datatype CopyData = CopyData(
    newGroup: int, newQueue: int,
    newSourceName: Option<string>, newTargetName: Option<string>, newName: Option<string>, removeSource: bool)

  datatype Op =
    | RegisterUser(isSuperuser: bool)
    | CreateGroup(actor: int, name: string)
    | UpdateGroup(actor: int, group: int, name: string, owner: int)
    | DeleteGroup(actor: int, group: int)
    | AddMember(actor: int, group: int, user: int, role: Role)
    | UpdateMember(actor: int, group: int, user: int, role: Role)
    | RemoveMember(actor: int, group: int, user: int)
    | CreateConnection(actor: int, group: int, name: string, kind: string, auth: AuthData)
    | UpdateConnection(actor: int, connection: int, name: string, kind: string, request: AuthRequest)
    | DeleteConnection(actor: int, connection: int)
    | CopyConnection(actor: int, connection: int, newGroup: int, newName: Option<string>, removeSource: bool)
    | CreateQueue(actor: int, group: int, name: string, slug: string)
    | UpdateQueue(actor: int, queue: int, name: string)
    | DeleteQueue(actor: int, queue: int)
    | CreateTransfer(actor: int, data: TransferData)
    | UpdateTransfer(actor: int, transfer: int, data: TransferData)
    | CopyTransfer(actor: int, transfer: int, copy: CopyData)
    | DeleteTransfer(actor: int, transfer: int)
    | StartRun(actor: int, transfer: int)
    | RunOnSchedule(transfer: int)

  /**
   Requests come from known users, and the request schemas let only public roles and complete new
   auth data through.
   */
  predicate WellFormed(db: Db, op: Op) {
    && (!op.RegisterUser? && !op.RunOnSchedule? ==> op.actor in db.users)
    && (op.AddMember? || op.UpdateMember? ==> IsPublic(op.role))
    && (op.CreateConnection? ==> HasSecrets(op.auth))
  }

  function NameOr(name: Option<string>, default: string): string {
    if name.Some? then name.value else default
  }

  // ---------------------------------------------------------------------------
  // Groups and members
  // ---------------------------------------------------------------------------

  function AfterCreateGroup(db: Db, actor: int, name: string): (Db, Answer) {
    if GroupNameTaken(db, name, None) then (db, Err(GroupAlreadyExists))
    else (db.(groups := db.groups[db.nextId := Group(name, actor)], nextId := db.nextId + 1), Ok(db.nextId))
  }

  /** Handing a group over removes the new owner's membership row and gives the previous owner one as a guest. */
  function AfterUpdateGroup(db: Db, actor: int, group: int, name: string, owner: int): (Db, Answer) {
    if group !in db.groups || GroupPermission(db, actor, group) == NONE then (db, Err(GroupNotFound))
    else if GroupPermission(db, actor, group) < DELETE then (db, Err(ActionNotAllowed))
    else if GroupNameTaken(db, name, Some(group)) then (db, Err(GroupAlreadyExists))
    else if owner !in db.users then (db, Err(UserNotFound))
    else
      var previous := db.groups[group].owner;
      var renamed := db.(groups := db.groups[group := Group(name, owner)]);
      if previous == owner then (renamed, Ok(group))
      else
        var rest := db.members - {Seat(group, owner)};
        if Seat(group, previous) in rest then (db, Err(AlreadyIsGroupMember))
        else (renamed.(members := rest[Seat(group, previous) := Guest]), Ok(group))
  }

  function AfterDeleteGroup(db: Db, actor: int, group: int): (Db, Answer) {
    if !IsSuperuser(db, actor) then (db, Err(ActionNotAllowed))
    else if group !in db.groups then (db, Err(GroupNotFound))
    else (Cascade(db.(groups := db.groups - {group})), Ok(group))
  }

  function AfterAddMember(db: Db, actor: int, group: int, user: int, role: Role): (Db, Answer) {
    if group !in db.groups || GroupPermission(db, actor, group) == NONE then (db, Err(GroupNotFound))
    else if GroupPermission(db, actor, group) < DELETE then (db, Err(ActionNotAllowed))
    else if db.groups[group].owner == user then (db, Err(AlreadyIsGroupOwner))
    else if Seat(group, user) in db.members then (db, Err(AlreadyIsGroupMember))
    else if user !in db.users then (db, Err(UserNotFound))
    else (db.(members := db.members[Seat(group, user) := role]), Ok(user))
  }

  function AfterUpdateMember(db: Db, actor: int, group: int, user: int, role: Role): (Db, Answer) {
    if group !in db.groups || GroupPermission(db, actor, group) == NONE then (db, Err(GroupNotFound))
    else if GroupPermission(db, actor, group) < DELETE then (db, Err(ActionNotAllowed))
    else if Seat(group, user) !in db.members then (db, Err(UserNotFound))
    else (db.(members := db.members[Seat(group, user) := role]), Ok(user))
  }

  function AfterRemoveMember(db: Db, actor: int, group: int, user: int): (Db, Answer) {
    if group !in db.groups || GroupPermission(db, actor, group) == NONE then (db, Err(GroupNotFound))
    else if user != actor && GroupPermission(db, actor, group) < DELETE then (db, Err(ActionNotAllowed))
    else if Seat(group, user) !in db.members then (db, Err(AlreadyIsNotGroupMember))
    else (db.(members := db.members - {Seat(group, user)}), Ok(user))
  }

  // ---------------------------------------------------------------------------
  // Connections
  // ---------------------------------------------------------------------------

  function AfterCreateConnection(db: Db, actor: int, group: int, name: string, kind: string, auth: AuthData)
    : (Db, Answer)
  {
    if group !in db.groups || ResourcePermission(db, actor, group) == NONE then (db, Err(GroupNotFound))
    else if ResourcePermission(db, actor, group) < WRITE then (db, Err(ActionNotAllowed))
    else if ConnectionNameTaken(db, group, name, None) then (db, Err(DuplicatedConnectionName))
    else
      (db.(connections := db.connections[db.nextId := Connection(group, name, kind)],
           credentials := db.credentials[db.nextId := auth], nextId := db.nextId + 1), Ok(db.nextId))
  }

  /** Why these secrets of a request cannot be filled up from the stored ones, if they cannot. */
  function MergeErrorOf(existing: AuthData, request: AuthRequest, fields: seq<SecretField>): Option<Error> {
    if existing.kind != request.kind && exists field :: field in fields && field !in request.secrets then
      Some(ConnectionAuthDataUpdate)
    else if exists field :: field in fields && field !in request.secrets && field !in existing.secrets then
      Some(MissingSecret)
    else None
  }

  /** The secrets of the request, and the stored ones where it has none. */
  function MergedSecrets(existing: AuthData, request: AuthRequest, fields: seq<SecretField>): map<SecretField, string>
    requires MergeErrorOf(existing, request, fields).None?
  {
    map field | field in fields :: if field in request.secrets then request.secrets[field] else existing.secrets[field]
  }

  function MergeError(existing: AuthData, request: AuthRequest): Option<Error> {
    MergeErrorOf(existing, request, SecretFields(request.kind))
  }

  function Merged(existing: AuthData, request: AuthRequest): AuthData
    requires MergeError(existing, request).None?
  {
    AuthData(request.kind, request.fields, MergedSecrets(existing, request, SecretFields(request.kind)))
  }

  function AfterUpdateConnection(db: Db, actor: int, id: int, name: string, kind: string, auth: AuthRequest)
    : (Db, Answer)
  {
    if ConnectionPermission(db, actor, id) == NONE then (db, Err(ConnectionNotFound))
    else if ConnectionPermission(db, actor, id) < WRITE then (db, Err(ActionNotAllowed))
    else if kind != db.connections[id].kind && ConnectionInUse(db, id) then (db, Err(ConnectionTypeUpdate))
    else if id !in db.credentials then (db, Err(AuthDataNotFound))
    else if MergeError(db.credentials[id], auth).Some? then (db, Err(MergeError(db.credentials[id], auth).value))
    else if ConnectionNameTaken(db, db.connections[id].group, name, Some(id)) then (db, Err(DuplicatedConnectionName))
    else
      (db.(connections := db.connections[id := db.connections[id].(name := name, kind := kind)],
           credentials := db.credentials[id := Merged(db.credentials[id], auth)]), Ok(id))
  }

  function AfterDeleteConnection(db: Db, actor: int, id: int): (Db, Answer) {
    if ConnectionPermission(db, actor, id) == NONE then (db, Err(ConnectionNotFound))
    else if ConnectionPermission(db, actor, id) < DELETE then (db, Err(ActionNotAllowed))
    else if ConnectionInUse(db, id) then (db, Err(ConnectionDelete))
    else (Cascade(db.(connections := db.connections - {id})), Ok(id))
  }

  /** The row of a connection in another group; its credentials stay behind. */
  function CopiedConnection(db: Db, id: int, newGroup: int, newName: Option<string>): (Db, Answer)
    requires id in db.connections
  {
    var copy := db.connections[id].(group := newGroup, name := NameOr(newName, db.connections[id].name));
    if ConnectionNameTaken(db, newGroup, copy.name, None) then (db, Err(DuplicatedConnectionName))
    else (db.(connections := db.connections[db.nextId := copy], nextId := db.nextId + 1), Ok(db.nextId))
  }

  function AfterCopyConnection(db: Db, actor: int, id: int, newGroup: int, newName: Option<string>, removeSource: bool)
    : (Db, Answer)
  {
    if ConnectionPermission(db, actor, id) == NONE then (db, Err(ConnectionNotFound))
    else if removeSource && ConnectionPermission(db, actor, id) < DELETE then (db, Err(ActionNotAllowed))
    else if newGroup !in db.groups || ResourcePermission(db, actor, newGroup) == NONE then (db, Err(GroupNotFound))
    else if ResourcePermission(db, actor, newGroup) < WRITE then (db, Err(ActionNotAllowed))
    else
      var (copied, answer) := CopiedConnection(db, id, newGroup, newName);
      if answer.Err? then (db, answer)
      else if removeSource then (Cascade(copied.(connections := copied.connections - {id})), answer)
      else (copied, answer)
  }

  // ---------------------------------------------------------------------------
  // Queues
  // ---------------------------------------------------------------------------

  function AfterCreateQueue(db: Db, actor: int, group: int, name: string, slug: string): (Db, Answer) {
    if group !in db.groups || QueuePermission(db, actor, group) == NONE then (db, Err(GroupNotFound))
    else if QueuePermission(db, actor, group) < DELETE then (db, Err(ActionNotAllowed))
    else if SlugTaken(db, slug) then (db, Err(DuplicatedQueueName))
    else (db.(queues := db.queues[db.nextId := Queue(group, name, slug)], nextId := db.nextId + 1), Ok(db.nextId))
  }

  function QueuePermissionOf(db: Db, actor: int, id: int): Permission {
    if id in db.queues then QueuePermission(db, actor, db.queues[id].group) else NONE
  }

  function AfterUpdateQueue(db: Db, actor: int, id: int, name: string): (Db, Answer) {
    if QueuePermissionOf(db, actor, id) == NONE then (db, Err(QueueNotFound))
    else if QueuePermissionOf(db, actor, id) < DELETE then (db, Err(ActionNotAllowed))
    else (db.(queues := db.queues[id := db.queues[id].(name := name)]), Ok(id))
  }

  /** The guard: transfers of the queue's own group that use the queue. */
  predicate QueueLooksUsed(db: Db, id: int)
    requires id in db.queues
  {
    exists t | t in db.transfers :: db.transfers[t].group == db.queues[id].group && db.transfers[t].queue == id
  }

  function AfterDeleteQueue(db: Db, actor: int, id: int): (Db, Answer) {
    if QueuePermissionOf(db, actor, id) == NONE then (db, Err(QueueNotFound))
    else if QueuePermissionOf(db, actor, id) < DELETE then (db, Err(ActionNotAllowed))
    else if QueueLooksUsed(db, id) then (db, Err(QueueDelete))
    else (Cascade(db.(queues := db.queues - {id})), Ok(id))
  }

  // ---------------------------------------------------------------------------
  // Transfers and runs
  // ---------------------------------------------------------------------------

  /** The checks on connections, types and queue that create and update share. */
  function ReferenceError(db: Db, data: TransferData): Option<Error>
    requires data.source in db.connections && data.target in db.connections && data.queue in db.queues
  {
    var source, target := db.connections[data.source], db.connections[data.target];
    if target.group != source.group || target.group != data.group || source.group != data.group then
      Some(DifferentTransferAndConnectionsGroups)
    else if target.kind != data.targetKind then Some(DifferentTypeConnectionsAndParams)
    else if source.kind != data.sourceKind then Some(DifferentTypeConnectionsAndParams)
    else if data.group != db.queues[data.queue].group then Some(DifferentTransferAndQueueGroup)
    else None
  }

  function NewTransfer(data: TransferData): Transfer {
    Transfer(data.group, data.name, data.source, data.target, data.queue, data.sourceKind, data.targetKind,
             data.settings)
  }

  function AfterCreateTransfer(db: Db, actor: int, data: TransferData): (Db, Answer) {
    if data.group !in db.groups then (db, Err(GroupNotFound))
    else if ResourcePermission(db, actor, data.group) < WRITE then (db, Err(ActionNotAllowed))
    else if data.target !in db.connections || data.source !in db.connections then (db, Err(ConnectionNotFound))
    else if data.queue !in db.queues then (db, Err(QueueNotFound))
    else if ReferenceError(db, data).Some? then (db, Err(ReferenceError(db, data).value))
    else if TransferNameTaken(db, data.group, data.name, None) then (db, Err(DuplicatedTransferName))
    else (db.(transfers := db.transfers[db.nextId := NewTransfer(data)], nextId := db.nextId + 1), Ok(db.nextId))
  }

  /** The request's group is compared with the connections and the queue, but the stored group is not changed. */
  function AfterUpdateTransfer(db: Db, actor: int, id: int, data: TransferData): (Db, Answer) {
    if TransferPermission(db, actor, id) == NONE then (db, Err(TransferNotFound))
    else if TransferPermission(db, actor, id) < WRITE then (db, Err(ActionNotAllowed))
    else if data.target !in db.connections || data.source !in db.connections then (db, Err(ConnectionNotFound))
    else if data.queue !in db.queues then (db, Err(QueueNotFound))
    else if ConnectionPermission(db, actor, data.source) == NONE ||
      ConnectionPermission(db, actor, data.target) == NONE then
      (db, Err(ConnectionNotFound))
    else if ReferenceError(db, data).Some? then (db, Err(ReferenceError(db, data).value))
    else if TransferNameTaken(db, db.transfers[id].group, data.name, Some(id)) then (db, Err(DuplicatedTransferName))
    else (db.(transfers := db.transfers[id := NewTransfer(data).(group := db.transfers[id].group)]), Ok(id))
  }

  function AfterDeleteTransfer(db: Db, actor: int, id: int): (Db, Answer) {
    if TransferPermission(db, actor, id) == NONE then (db, Err(TransferNotFound))
    else if TransferPermission(db, actor, id) < DELETE then (db, Err(ActionNotAllowed))
    else (Cascade(db.(transfers := db.transfers - {id})), Ok(id))
  }

  /** What the copy endpoint refuses before it writes anything. */
  function CopyRefusal(db: Db, actor: int, id: int, copy: CopyData): Option<Error> {
    if TransferPermission(db, actor, id) == NONE then Some(TransferNotFound)
    else if copy.removeSource && TransferPermission(db, actor, id) < DELETE then Some(ActionNotAllowed)
    else if copy.newGroup !in db.groups then Some(GroupNotFound)
    else if ResourcePermission(db, actor, copy.newGroup) < WRITE then Some(ActionNotAllowed)
    else if ConnectionPermission(db, actor, db.transfers[id].source) == NONE then Some(ConnectionNotFound)
    else if ConnectionPermission(db, actor, db.transfers[id].target) == NONE then Some(ConnectionNotFound)
    else if copy.newQueue !in db.queues then Some(QueueNotFound)
    else if db.queues[copy.newQueue].group != copy.newGroup then Some(DifferentTransferAndQueueGroup)
    else None
  }

  /** Source and target are copied once each, or once in all when they are the same connection. */
  function CopiedEndpoints(db: Db, transfer: Transfer, copy: CopyData): (Db, Result<(int, int), Error>)
    requires transfer.source in db.connections && transfer.target in db.connections
  {
    var (one, source) := CopiedConnection(db, transfer.source, copy.newGroup, copy.newSourceName);
    if source.Err? then (db, Err(source.error))
    else if transfer.source == transfer.target then (one, Ok((source.value, source.value)))
    else
      var (two, target) := CopiedConnection(one, transfer.target, copy.newGroup, copy.newTargetName);
      if target.Err? then (db, Err(target.error))
      else (two, Ok((source.value, target.value)))
  }

  /** The copy of a transfer, between the copied ends. */
  function Moved(origin: Transfer, copy: CopyData, ends: (int, int)): Transfer {
    origin.(group := copy.newGroup, name := NameOr(copy.newName, origin.name),
            source := ends.0, target := ends.1, queue := copy.newQueue)
  }

  function Added(db: Db, transfer: Transfer): Db {
    db.(transfers := db.transfers[db.nextId := transfer], nextId := db.nextId + 1)
  }

  function AfterCopyTransfer(db: Db, actor: int, id: int, copy: CopyData): (Db, Answer)
  {
    if CopyRefusal(db, actor, id, copy).Some? then (db, Err(CopyRefusal(db, actor, id, copy).value))
    else
      var (copied, ends) := CopiedEndpoints(db, db.transfers[id], copy);
      if ends.Err? then (db, Err(ends.error))
      else
        var moved := Moved(db.transfers[id], copy, ends.value);
        if TransferNameTaken(copied, copy.newGroup, moved.name, None) then (db, Err(DuplicatedTransferName))
        else
          var added := Added(copied, moved);
          if copy.removeSource then (Cascade(added.(transfers := added.transfers - {id})), Ok(copied.nextId))
          else (added, Ok(copied.nextId))
  }

  /** Both ways to start a run read the auth data of both connections first. */
  function WithNewRun(db: Db, transfer: int): (Db, Answer)
    requires transfer in db.transfers
  {
    if db.transfers[transfer].source !in db.credentials || db.transfers[transfer].target !in db.credentials then
      (db, Err(AuthDataNotFound))
    else (db.(runs := db.runs[db.nextId := transfer], nextId := db.nextId + 1), Ok(db.nextId))
  }

  function AfterStartRun(db: Db, actor: int, transfer: int): (Db, Answer) {
    if TransferPermission(db, actor, transfer) == NONE then (db, Err(TransferNotFound))
    else if TransferPermission(db, actor, transfer) < WRITE then (db, Err(ActionNotAllowed))
    else WithNewRun(db, transfer)
  }

  /** A job of the scheduler asks nobody; one whose transfer is gone does nothing. */
  function AfterRunOnSchedule(db: Db, transfer: int): (Db, Answer) {
    if transfer !in db.transfers then (db, Err(TransferNotFound)) else WithNewRun(db, transfer)
  }

  function After(db: Db, op: Op): (Db, Answer)
  {
    match op
    case RegisterUser(isSuperuser) =>
      (db.(users := db.users[db.nextId := User(isSuperuser)], nextId := db.nextId + 1), Ok(db.nextId))
    case CreateGroup(actor, name) => AfterCreateGroup(db, actor, name)
    case UpdateGroup(actor, group, name, owner) => AfterUpdateGroup(db, actor, group, name, owner)
    case DeleteGroup(actor, group) => AfterDeleteGroup(db, actor, group)
    case AddMember(actor, group, user, role) => AfterAddMember(db, actor, group, user, role)
    case UpdateMember(actor, group, user, role) => AfterUpdateMember(db, actor, group, user, role)
    case RemoveMember(actor, group, user) => AfterRemoveMember(db, actor, group, user)
    case CreateConnection(actor, group, name, kind, auth) => AfterCreateConnection(db, actor, group, name, kind, auth)
    case UpdateConnection(actor, id, name, kind, request) => AfterUpdateConnection(db, actor, id, name, kind, request)
    case DeleteConnection(actor, id) => AfterDeleteConnection(db, actor, id)
    case CopyConnection(actor, id, newGroup, newName, removeSource) =>
      AfterCopyConnection(db, actor, id, newGroup, newName, removeSource)
    case CreateQueue(actor, group, name, slug) => AfterCreateQueue(db, actor, group, name, slug)
    case UpdateQueue(actor, id, name) => AfterUpdateQueue(db, actor, id, name)
    case DeleteQueue(actor, id) => AfterDeleteQueue(db, actor, id)
    case CreateTransfer(actor, data) => AfterCreateTransfer(db, actor, data)
    case UpdateTransfer(actor, id, data) => AfterUpdateTransfer(db, actor, id, data)
    case CopyTransfer(actor, id, copy) => AfterCopyTransfer(db, actor, id, copy)
    case DeleteTransfer(actor, id) => AfterDeleteTransfer(db, actor, id)
    case StartRun(actor, transfer) => AfterStartRun(db, actor, transfer)
    case RunOnSchedule(transfer) => AfterRunOnSchedule(db, transfer)
  }

  function Apply(db: Db, op: Op): Db
  {
    After(db, op).0
  }
}
