/**
 The relational state behind the server: groups and their members, connections, queues,
 transfers and runs, with the permissions that the endpoints ask for.
 */
module Database {
  import opened Wrappers

  datatype Role = Guest | Developer | Maintainer | Owner | Superuser

  datatype User = User(isSuperuser: bool)

  datatype Group = Group(name: string, owner: int)

  datatype Connection = Connection(group: int, name: string, kind: string)

  /** The key of a membership row. */
  datatype Seat = Seat(group: int, user: int)

  datatype Queue = Queue(group: int, name: string, slug: string)

  /** `sourceKind` and `targetKind` are the types stored inside the params; `settings` stands for the other columns. */
  datatype Transfer = Transfer(
    group: int, name: string, source: int, target: int, queue: int,
    sourceKind: string, targetKind: string, settings: string)

  /** The types of auth data, and the fields that their schemas name as secret. */
  datatype AuthKind = Basic | Samba | S3 | CatalogBearer | CatalogOAuth2 | CatalogBearerWithS3 | CatalogOAuth2WithS3

  datatype SecretField = Password | SecretKey | CatalogToken | CatalogClientSecret

  /** `fields` stands for everything that is not secret. */
  datatype AuthData = AuthData(kind: AuthKind, fields: string, secrets: map<SecretField, string>)

  /** The auth data of an update request, in which a secret may be missing. */
  datatype AuthRequest = AuthRequest(kind: AuthKind, fields: string, secrets: map<SecretField, string>)

  /**
   `members` holds at most one role per group and user, `credentials` are keyed by connection,
   `runs` maps a run to its transfer.
   */
  datatype Db = Db(
    users: map<int, User>, groups: map<int, Group>, members: map<Seat, Role>,
    connections: map<int, Connection>, credentials: map<int, AuthData>, queues: map<int, Queue>,
    transfers: map<int, Transfer>, runs: map<int, int>, nextId: int)

  datatype Error =
    | GroupNotFound | GroupAlreadyExists | UserNotFound
    | AlreadyIsGroupOwner | AlreadyIsGroupMember | AlreadyIsNotGroupMember
    | ActionNotAllowed
    | ConnectionNotFound | DuplicatedConnectionName | ConnectionTypeUpdate | ConnectionAuthDataUpdate
    | ConnectionDelete | MissingSecret
    | AuthDataNotFound
    | QueueNotFound | DuplicatedQueueName | QueueDelete
    | TransferNotFound | DuplicatedTransferName
    | DifferentTransferAndConnectionsGroups | DifferentTypeConnectionsAndParams | DifferentTransferAndQueueGroup

  /** The identifier of the row an endpoint answers with, or the error it raises. */
  type Answer = Result<int, Error>

  type Permission = p: int | 0 <= p <= 3
  const NONE: Permission := 0
  const READ: Permission := 1
  const WRITE: Permission := 2
  const DELETE: Permission := 3

  // ---------------------------------------------------------------------------
  // Roles and permissions
  // ---------------------------------------------------------------------------

  predicate IsPublic(role: Role) {
    role.Maintainer? || role.Developer? || role.Guest?
  }

  function Level(role: Role): int {
    match role
    case Guest => 1
    case Developer => 2
    case Maintainer => 3
    case Owner => 4
    case Superuser => 5
  }

  predicate IsAtLeast(role: Role, required: Role) {
    Level(role) >= Level(required)
  }

  function RolesAtLeast(required: Role): set<Role> {
    set role | role in {Guest, Developer, Maintainer, Owner, Superuser} && Level(role) >= Level(required)
  }

  predicate IsSuperuser(db: Db, user: int) {
    user in db.users && db.users[user].isSuperuser
  }

  predicate Owns(db: Db, user: int, group: int) {
    group in db.groups && db.groups[group].owner == user
  }

  /** Connections and transfers: developers may write. */
  function ResourcePermission(db: Db, user: int, group: int): Permission {
    if IsSuperuser(db, user) || Owns(db, user, group) then DELETE
    else if Seat(group, user) !in db.members then NONE
    else if db.members[Seat(group, user)].Maintainer? then DELETE
    else if db.members[Seat(group, user)].Developer? then WRITE
    else READ
  }

  /** Queues: developers may only read. */
  function QueuePermission(db: Db, user: int, group: int): Permission {
    if IsSuperuser(db, user) || Owns(db, user, group) then DELETE
    else if Seat(group, user) !in db.members then NONE
    else if db.members[Seat(group, user)].Maintainer? then DELETE
    else READ
  }

  /** Groups: only owners and superusers may change them. */
  function GroupPermission(db: Db, user: int, group: int): Permission {
    if IsSuperuser(db, user) || Owns(db, user, group) then DELETE
    else if Seat(group, user) in db.members then READ
    else NONE
  }

  function ConnectionPermission(db: Db, user: int, id: int): Permission {
    if id in db.connections then ResourcePermission(db, user, db.connections[id].group) else NONE
  }

  function TransferPermission(db: Db, user: int, id: int): Permission {
    if id in db.transfers then ResourcePermission(db, user, db.transfers[id].group) else NONE
  }

  // ---------------------------------------------------------------------------
  // Constraints
  // ---------------------------------------------------------------------------

  /** ON DELETE CASCADE: rows whose foreign keys no longer resolve go as well. */
  function Cascade(db: Db): Db {
    var connections := map id | id in db.connections && db.connections[id].group in db.groups :: db.connections[id];
    var queues := map id | id in db.queues && db.queues[id].group in db.groups :: db.queues[id];
    var transfers := map id | id in db.transfers && db.transfers[id].group in db.groups
                              && db.transfers[id].source in connections && db.transfers[id].target in connections
                              && db.transfers[id].queue in queues :: db.transfers[id];
    db.(members := (map m | m in db.members && m.group in db.groups :: db.members[m]),
        connections := connections,
        credentials := (map id | id in db.credentials && id in connections :: db.credentials[id]),
        queues := queues,
        transfers := transfers,
        runs := (map id | id in db.runs && db.runs[id] in transfers :: db.runs[id]))
  }

  function SecretFields(kind: AuthKind): seq<SecretField> {
    match kind
    case Basic => [Password]
    case Samba => [Password]
    case S3 => [SecretKey]
    case CatalogBearer => [CatalogToken]
    case CatalogOAuth2 => [CatalogClientSecret]
    case CatalogBearerWithS3 => [CatalogToken, SecretKey]
    case CatalogOAuth2WithS3 => [CatalogClientSecret, SecretKey]
  }

  /** No secret of its type is missing. */
  predicate HasSecrets(auth: AuthData) {
    forall field | field in SecretFields(auth.kind) :: field in auth.secrets
  }

  predicate GroupNameTaken(db: Db, name: string, except: Option<int>) {
    exists id | id in db.groups :: Some(id) != except && db.groups[id].name == name
  }

  predicate ConnectionNameTaken(db: Db, group: int, name: string, except: Option<int>) {
    exists id | id in db.connections ::
      Some(id) != except && db.connections[id].group == group && db.connections[id].name == name
  }

  predicate TransferNameTaken(db: Db, group: int, name: string, except: Option<int>) {
    exists id | id in db.transfers ::
      Some(id) != except && db.transfers[id].group == group && db.transfers[id].name == name
  }

  predicate SlugTaken(db: Db, slug: string) {
    exists id | id in db.queues :: db.queues[id].slug == slug
  }

  predicate ConnectionInUse(db: Db, connection: int) {
    exists id | id in db.transfers :: db.transfers[id].source == connection || db.transfers[id].target == connection
  }

  // ---------------------------------------------------------------------------
  // Invariants
  // ---------------------------------------------------------------------------

  /** Every identifier has been given out before. */
  ghost predicate Allocated(db: Db) {
    && (forall id | id in db.users :: id < db.nextId)
    && (forall id | id in db.groups :: id < db.nextId)
    && (forall id | id in db.connections :: id < db.nextId)
    && (forall id | id in db.queues :: id < db.nextId)
    && (forall id | id in db.transfers :: id < db.nextId)
    && (forall id | id in db.runs :: id < db.nextId)
  }

  /** Every foreign key resolves; those of transfers to connections and queues are part of `Coherent`. */
  ghost predicate Referential(db: Db) {
    && (forall id | id in db.groups :: db.groups[id].owner in db.users)
    && (forall id | id in db.connections :: db.connections[id].group in db.groups)
    && (forall id | id in db.queues :: db.queues[id].group in db.groups)
    && (forall id | id in db.transfers :: db.transfers[id].group in db.groups)
    && (forall id | id in db.credentials :: id in db.connections)
    && (forall id | id in db.runs :: db.runs[id] in db.transfers)
    && (forall m | m in db.members :: m.user in db.users)
  }

  /** An owner has no membership row, and only public roles are stored. */
  ghost predicate Membership(groups: map<int, Group>, members: map<Seat, Role>) {
    forall m | m in members :: m.group in groups && groups[m.group].owner != m.user && IsPublic(members[m])
  }

  /** One transfer against its connections and its queue. */
  predicate CoherentTransfer(connections: map<int, Connection>, queues: map<int, Queue>, transfer: Transfer) {
    && transfer.source in connections && transfer.target in connections && transfer.queue in queues
    && connections[transfer.source].group == connections[transfer.target].group == queues[transfer.queue].group
    && connections[transfer.source].kind == transfer.sourceKind
    && connections[transfer.target].kind == transfer.targetKind
  }

  ghost predicate Coherent(connections: map<int, Connection>, queues: map<int, Queue>, transfers: map<int, Transfer>) {
    forall id | id in transfers :: CoherentTransfer(connections, queues, transfers[id])
  }

  /** The group of a transfer's connections is the transfer's own. */
  ghost predicate InOwnGroup(connections: map<int, Connection>, transfers: map<int, Transfer>) {
    forall id | id in transfers ::
      transfers[id].source in connections && connections[transfers[id].source].group == transfers[id].group
  }

  ghost predicate DistinctGroupNames(groups: map<int, Group>) {
    forall a, b | a in groups && b in groups && groups[a].name == groups[b].name :: a == b
  }

  ghost predicate DistinctConnectionNames(connections: map<int, Connection>) {
    forall a, b | a in connections && b in connections && connections[a].group == connections[b].group &&
                  connections[a].name == connections[b].name :: a == b
  }

  ghost predicate DistinctTransferNames(transfers: map<int, Transfer>) {
    forall a, b | a in transfers && b in transfers && transfers[a].group == transfers[b].group &&
                  transfers[a].name == transfers[b].name :: a == b
  }

  ghost predicate DistinctSlugs(queues: map<int, Queue>) {
    forall a, b | a in queues && b in queues && queues[a].slug == queues[b].slug :: a == b
  }

  /** The unique constraints. */
  ghost predicate Unique(db: Db) {
    && DistinctGroupNames(db.groups) && DistinctConnectionNames(db.connections)
    && DistinctTransferNames(db.transfers) && DistinctSlugs(db.queues)
  }

  /** Stored auth data has every secret of its type. */
  ghost predicate Complete(credentials: map<int, AuthData>) {
    forall id | id in credentials :: HasSecrets(credentials[id])
  }

  ghost predicate Consistent(db: Db) {
    Allocated(db) && Referential(db) && Membership(db.groups, db.members) &&
      Coherent(db.connections, db.queues, db.transfers)
  }

  ghost predicate Valid(db: Db) {
    Consistent(db) && Unique(db) && Complete(db.credentials)
  }
}
