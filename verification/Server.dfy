/**
 The server's endpoints as code: a store whose tables each request changes step by step
 inside one unit of work, rolled back when a constraint fails.
 */
module Server {
  import opened Wrappers
  import opened Collections
  import opened Database
  import opened Operations
  import opened Permissions

  /** One line of the group listing: the group and the role shown for the caller. */
  datatype Listed = Listed(group: int, role: Role)

  class Store {
    var users: map<int, User>
    var groups: map<int, Group>
    var members: map<Seat, Role>
    var connections: map<int, Connection>
    var credentials: map<int, AuthData>
    var queues: map<int, Queue>
    var transfers: map<int, Transfer>
    var runs: map<int, int>
    var nextId: int

    constructor (firstId: int)
      ensures Current() == Db(map[], map[], map[], map[], map[], map[], map[], map[], firstId)
    {
      users, groups, members, connections, credentials := map[], map[], map[], map[], map[];
      queues, transfers, runs, nextId := map[], map[], map[], firstId;
    }

    function Current(): Db
      reads this
    {
      Db(users, groups, members, connections, credentials, queues, transfers, runs, nextId)
    }

    method Restore(saved: Db)
      modifies this
      ensures Current() == saved
    {
      users, groups, members := saved.users, saved.groups, saved.members;
      connections, credentials, queues := saved.connections, saved.credentials, saved.queues;
      transfers, runs, nextId := saved.transfers, saved.runs, saved.nextId;
    }

    /** The database removes the rows whose foreign keys no longer resolve. */
    method CascadeRows()
      modifies this
      ensures Current() == Cascade(old(Current()))
    {
      Restore(Cascade(Current()));
    }

    // -- groups ---------------------------------------------------------------

    method DoCreateGroup(actor: int, name: string) returns (r: Answer)
      modifies this
      ensures (Current(), r) == AfterCreateGroup(old(Current()), actor, name)
    {
      if GroupNameTaken(Current(), name, None) {
        return Err(GroupAlreadyExists);
      }
      var id := nextId;
      groups := groups[id := Group(name, actor)];
      nextId := nextId + 1;
      return Ok(id);
    }

    method DoUpdateGroup(actor: int, group: int, name: string, owner: int) returns (r: Answer)
      modifies this
      ensures (Current(), r) == AfterUpdateGroup(old(Current()), actor, group, name, owner)
    {
      if group !in groups {
        return Err(GroupNotFound);
      }
      var permission := GroupPermission(Current(), actor, group);
      if permission == NONE {
        return Err(GroupNotFound);
      }
      if permission < DELETE {
        return Err(ActionNotAllowed);
      }
      var saved := Current();
      var previousOwner := groups[group].owner;
      if GroupNameTaken(Current(), name, Some(group)) {
        return Err(GroupAlreadyExists);
      }
      if owner !in users {
        return Err(UserNotFound);
      }
      groups := groups[group := Group(name, owner)];
      if previousOwner != owner {
        if Seat(group, owner) in members {
          members := members - {Seat(group, owner)};
        }
        if Seat(group, previousOwner) in members {
          Restore(saved);
          return Err(AlreadyIsGroupMember);
        }
        members := members[Seat(group, previousOwner) := Guest];
        assert saved.members - {Seat(group, owner)} ==
               if Seat(group, owner) in saved.members then saved.members - {Seat(group, owner)} else saved.members;
      }
      return Ok(group);
    }

    method DoDeleteGroup(actor: int, group: int) returns (r: Answer)
      modifies this
      ensures (Current(), r) == AfterDeleteGroup(old(Current()), actor, group)
    {
      if !IsSuperuser(Current(), actor) {
        return Err(ActionNotAllowed);
      }
      if group !in groups {
        return Err(GroupNotFound);
      }
      groups := groups - {group};
      CascadeRows();
      return Ok(group);
    }

    method DoAddMember(actor: int, group: int, user: int, role: Role) returns (r: Answer)
      modifies this
      ensures (Current(), r) == AfterAddMember(old(Current()), actor, group, user, role)
    {
      if group !in groups {
        return Err(GroupNotFound);
      }
      var permission := GroupPermission(Current(), actor, group);
      if permission == NONE {
        return Err(GroupNotFound);
      }
      if permission < DELETE {
        return Err(ActionNotAllowed);
      }
      if groups[group].owner == user {
        return Err(AlreadyIsGroupOwner);
      }
      if Seat(group, user) in members {
        return Err(AlreadyIsGroupMember);
      }
      if user !in users {
        return Err(UserNotFound);
      }
      members := members[Seat(group, user) := role];
      return Ok(user);
    }

    method DoUpdateMember(actor: int, group: int, user: int, role: Role) returns (r: Answer)
      modifies this
      ensures (Current(), r) == AfterUpdateMember(old(Current()), actor, group, user, role)
    {
      if group !in groups {
        return Err(GroupNotFound);
      }
      var permission := GroupPermission(Current(), actor, group);
      if permission == NONE {
        return Err(GroupNotFound);
      }
      if permission < DELETE {
        return Err(ActionNotAllowed);
      }
      if Seat(group, user) !in members {
        return Err(UserNotFound);
      }
      members := members[Seat(group, user) := role];
      return Ok(user);
    }

    method DoRemoveMember(actor: int, group: int, user: int) returns (r: Answer)
      modifies this
      ensures (Current(), r) == AfterRemoveMember(old(Current()), actor, group, user)
    {
      if group !in groups {
        return Err(GroupNotFound);
      }
      var permission := GroupPermission(Current(), actor, group);
      if permission == NONE {
        return Err(GroupNotFound);
      }
      if user != actor && permission < DELETE {
        return Err(ActionNotAllowed);
      }
      if Seat(group, user) !in members {
        return Err(AlreadyIsNotGroupMember);
      }
      members := members - {Seat(group, user)};
      return Ok(user);
    }

    /**
     The groups of one user, owned ones first, with an optional minimal role. `total` is
     counted separately, as the two count queries do.
     */
    method ListGroups(user: int, required: Option<Role>) returns (items: seq<Listed>, total: nat)
      requires Membership(groups, members)
      ensures total == |items|
      ensures forall i, j | 0 <= i < j < |items| :: items[i].group != items[j].group
      ensures forall i | 0 <= i < |items| :: IsListed(Current(), user, required, items[i])
      ensures forall line | IsListed(Current(), user, required, line) :: line in items
    {
      var owned, totalOwned := ListOwned(user, required);
      var joined, totalJoined := ListJoined(user, required);
      items := owned + joined;
      total := totalOwned + totalJoined;
      forall i, j | 0 <= i < |owned| && 0 <= j < |joined|
        ensures owned[i].group != joined[j].group
      {
        assert Seat(joined[j].group, user) in members;
      }
    }

    method ListOwned(user: int, required: Option<Role>) returns (items: seq<Listed>, total: nat)
      ensures total == |items|
      ensures forall i, j | 0 <= i < j < |items| :: items[i].group != items[j].group
      ensures forall i | 0 <= i < |items| ::
                (required.Some? ==> IsAtLeast(Owner, required.value)) && Owns(Current(), user, items[i].group) &&
                  items[i].role == Owner
      ensures required.None? || IsAtLeast(Owner, required.value) ==>
                forall group | Owns(Current(), user, group) :: Listed(group, Owner) in items
    {
      items, total := [], 0;
      if required.Some? && !IsAtLeast(Owner, required.value) {
        return;
      }
      var rest := groups.Keys;
      while rest != {}
        invariant rest <= groups.Keys
        invariant total == |items|
        invariant forall i, j | 0 <= i < j < |items| :: items[i].group != items[j].group
        invariant forall i | 0 <= i < |items| ::
                  items[i].group !in rest && Owns(Current(), user, items[i].group) && items[i].role == Owner
        invariant forall group | Owns(Current(), user, group) && group !in rest :: Listed(group, Owner) in items
        decreases rest
      {
        var group := PickOne(rest);
        if groups[group].owner == user {
          items := items + [Listed(group, Owner)];
          total := total + 1;
        }
        rest := rest - {group};
      }
    }

    method ListJoined(user: int, required: Option<Role>) returns (items: seq<Listed>, total: nat)
      ensures total == |items|
      ensures forall i, j | 0 <= i < j < |items| :: items[i].group != items[j].group
      ensures forall i | 0 <= i < |items| ::
                Seat(items[i].group, user) in members && items[i].role == members[Seat(items[i].group, user)] &&
                (required.Some? ==> IsAtLeast(items[i].role, required.value))
      ensures forall group | Seat(group, user) in members &&
                (required.Some? ==> IsAtLeast(members[Seat(group, user)], required.value)) ::
                Listed(group, members[Seat(group, user)]) in items
    {
      items, total := [], 0;
      var rest := members.Keys;
      while rest != {}
        invariant rest <= members.Keys
        invariant total == |items|
        invariant forall i, j | 0 <= i < j < |items| :: items[i].group != items[j].group
        invariant forall i | 0 <= i < |items| ::
                    Seat(items[i].group, user) in members && Seat(items[i].group, user) !in rest &&
                    items[i].role == members[Seat(items[i].group, user)] &&
                    (required.Some? ==> IsAtLeast(items[i].role, required.value))
        invariant forall group | Seat(group, user) in members && Seat(group, user) !in rest &&
                    (required.Some? ==> IsAtLeast(members[Seat(group, user)], required.value)) ::
                    Listed(group, members[Seat(group, user)]) in items
        decreases rest
      {
        var seat := PickOne(rest);
        if seat.user == user && (required.Some? ==> members[seat] in RolesAtLeast(required.value)) {
          items := items + [Listed(seat.group, members[seat])];
          total := total + 1;
        }
        rest := rest - {seat};
      }
    }

    /** The role an endpoint reports for a caller: superuser, the stored role, and otherwise owner. */
    method GetMemberRole(user: int, group: int) returns (role: Role)
      ensures role == MemberRole(Current(), user, group)
    {
      if IsSuperuser(Current(), user) {
        return Superuser;
      }
      if Seat(group, user) in members {
        return members[Seat(group, user)];
      }
      return Owner;
    }

    // -- connections ----------------------------------------------------------

    method DoCreateConnection(actor: int, group: int, name: string, kind: string, auth: AuthData) returns (r: Answer)
      modifies this
      ensures (Current(), r) == AfterCreateConnection(old(Current()), actor, group, name, kind, auth)
    {
      if group !in groups {
        return Err(GroupNotFound);
      }
      var permission := ResourcePermission(Current(), actor, group);
      if permission == NONE {
        return Err(GroupNotFound);
      }
      if permission < WRITE {
        return Err(ActionNotAllowed);
      }
      if ConnectionNameTaken(Current(), group, name, None) {
        return Err(DuplicatedConnectionName);
      }
      var id := nextId;
      connections := connections[id := Connection(group, name, kind)];
      credentials := credentials[id := auth];
      nextId := nextId + 1;
      return Ok(id);
    }

    /** Fills each missing secret of a request from the stored auth data, which must be of the same type then. */
    method MergeSecrets(existing: AuthData, request: AuthRequest, fields: seq<SecretField>)
      returns (r: Result<map<SecretField, string>, Error>)
      ensures r == if MergeErrorOf(existing, request, fields).Some? then
              Err(MergeErrorOf(existing, request, fields).value)
                   else Ok(MergedSecrets(existing, request, fields))
    {
      var secrets: map<SecretField, string> := map[];
      for i := 0 to |fields|
        invariant MergeErrorOf(existing, request, fields[..i]).None?
        invariant secrets == MergedSecrets(existing, request, fields[..i])
      {
        var field := fields[i];
        assert fields[..i + 1] == fields[..i] + [field] && field in fields;
        if field in request.secrets {
          secrets := secrets[field := request.secrets[field]];
        } else {
          if existing.kind != request.kind {
            return Err(ConnectionAuthDataUpdate);
          }
          if field !in existing.secrets {
            return Err(MissingSecret);
          }
          secrets := secrets[field := existing.secrets[field]];
        }
      }
      assert fields[..|fields|] == fields;
      return Ok(secrets);
    }

    method DoUpdateConnection(actor: int, id: int, name: string, kind: string, auth: AuthRequest) returns (r: Answer)
      modifies this
      ensures (Current(), r) == AfterUpdateConnection(old(Current()), actor, id, name, kind, auth)
    {
      var permission := ConnectionPermission(Current(), actor, id);
      if permission == NONE {
        return Err(ConnectionNotFound);
      }
      if permission < WRITE {
        return Err(ActionNotAllowed);
      }
      var existing := connections[id];
      if kind != existing.kind {
        if ConnectionInUse(Current(), id) {
          return Err(ConnectionTypeUpdate);
        }
      }
      if id !in credentials {
        return Err(AuthDataNotFound);
      }
      var merged := MergeSecrets(credentials[id], auth, SecretFields(auth.kind));
      if merged.Err? {
        return Err(merged.error);
      }
      r := WriteConnection(id, existing.(name := name, kind := kind), AuthData(auth.kind, auth.fields, merged.value));
    }

    method WriteConnection(id: int, row: Connection, auth: AuthData) returns (r: Answer)
      modifies this
      ensures if ConnectionNameTaken(old(Current()), row.group, row.name, Some(id))
              then r == Err(DuplicatedConnectionName) && Current() == old(Current())
              else r == Ok(id) && Current() == old(Current()).(connections := old(connections)[id := row],
                                                               credentials := old(credentials)[id := auth])
    {
      if ConnectionNameTaken(Current(), row.group, row.name, Some(id)) {
        return Err(DuplicatedConnectionName);
      }
      connections := connections[id := row];
      credentials := credentials[id := auth];
      return Ok(id);
    }

    method DoDeleteConnection(actor: int, id: int) returns (r: Answer)
      modifies this
      ensures (Current(), r) == AfterDeleteConnection(old(Current()), actor, id)
    {
      var permission := ConnectionPermission(Current(), actor, id);
      if permission == NONE {
        return Err(ConnectionNotFound);
      }
      if permission < DELETE {
        return Err(ActionNotAllowed);
      }
      if ConnectionInUse(Current(), id) {
        return Err(ConnectionDelete);
      }
      connections := connections - {id};
      CascadeRows();
      return Ok(id);
    }

    method InsertConnectionCopy(id: int, newGroup: int, newName: Option<string>) returns (r: Answer)
      requires id in connections
      modifies this
      ensures (Current(), r) == CopiedConnection(old(Current()), id, newGroup, newName)
    {
      var copy := connections[id];
      copy := copy.(group := newGroup);
      if newName.Some? {
        copy := copy.(name := newName.value);
      }
      if ConnectionNameTaken(Current(), newGroup, copy.name, None) {
        return Err(DuplicatedConnectionName);
      }
      r := Ok(nextId);
      connections := connections[nextId := copy];
      nextId := nextId + 1;
    }

    method DoCopyConnection(actor: int, id: int, newGroup: int, newName: Option<string>, removeSource: bool)
      returns (r: Answer)
      modifies this
      ensures (Current(), r) == AfterCopyConnection(old(Current()), actor, id, newGroup, newName, removeSource)
    {
      var permission := ConnectionPermission(Current(), actor, id);
      if permission == NONE {
        return Err(ConnectionNotFound);
      }
      if removeSource && permission < DELETE {
        return Err(ActionNotAllowed);
      }
      if newGroup !in groups || ResourcePermission(Current(), actor, newGroup) == NONE {
        return Err(GroupNotFound);
      }
      if ResourcePermission(Current(), actor, newGroup) < WRITE {
        return Err(ActionNotAllowed);
      }
      r := InsertConnectionCopy(id, newGroup, newName);
      if r.Ok? && removeSource {
        connections := connections - {id};
        CascadeRows();
      }
    }

    // -- queues ---------------------------------------------------------------

    method DoCreateQueue(actor: int, group: int, name: string, slug: string) returns (r: Answer)
      modifies this
      ensures (Current(), r) == AfterCreateQueue(old(Current()), actor, group, name, slug)
    {
      if group !in groups {
        return Err(GroupNotFound);
      }
      var permission := QueuePermission(Current(), actor, group);
      if permission == NONE {
        return Err(GroupNotFound);
      }
      if permission < DELETE {
        return Err(ActionNotAllowed);
      }
      if SlugTaken(Current(), slug) {
        return Err(DuplicatedQueueName);
      }
      r := Ok(nextId);
      queues := queues[nextId := Queue(group, name, slug)];
      nextId := nextId + 1;
    }

    method DoUpdateQueue(actor: int, id: int, name: string) returns (r: Answer)
      modifies this
      ensures (Current(), r) == AfterUpdateQueue(old(Current()), actor, id, name)
    {
      var permission := QueuePermissionOf(Current(), actor, id);
      if permission == NONE {
        return Err(QueueNotFound);
      }
      if permission < DELETE {
        return Err(ActionNotAllowed);
      }
      queues := queues[id := queues[id].(name := name)];
      return Ok(id);
    }

    method DoDeleteQueue(actor: int, id: int) returns (r: Answer)
      modifies this
      ensures (Current(), r) == AfterDeleteQueue(old(Current()), actor, id)
    {
      var permission := QueuePermissionOf(Current(), actor, id);
      if permission == NONE {
        return Err(QueueNotFound);
      }
      if permission < DELETE {
        return Err(ActionNotAllowed);
      }
      if QueueLooksUsed(Current(), id) {
        return Err(QueueDelete);
      }
      queues := queues - {id};
      CascadeRows();
      return Ok(id);
    }

    // -- transfers ------------------------------------------------------------

    method DoCreateTransfer(actor: int, data: TransferData) returns (r: Answer)
      modifies this
      ensures (Current(), r) == AfterCreateTransfer(old(Current()), actor, data)
    {
      if data.group !in groups {
        return Err(GroupNotFound);
      }
      if ResourcePermission(Current(), actor, data.group) < WRITE {
        return Err(ActionNotAllowed);
      }
      if data.target !in connections || data.source !in connections {
        return Err(ConnectionNotFound);
      }
      if data.queue !in queues {
        return Err(QueueNotFound);
      }
      var refused := ReferenceError(Current(), data);
      if refused.Some? {
        return Err(refused.value);
      }
      if TransferNameTaken(Current(), data.group, data.name, None) {
        return Err(DuplicatedTransferName);
      }
      r := Ok(nextId);
      transfers := transfers[nextId := NewTransfer(data)];
      nextId := nextId + 1;
    }

    method DoUpdateTransfer(actor: int, id: int, data: TransferData) returns (r: Answer)
      modifies this
      ensures (Current(), r) == AfterUpdateTransfer(old(Current()), actor, id, data)
    {
      var permission := TransferPermission(Current(), actor, id);
      if permission == NONE {
        return Err(TransferNotFound);
      }
      if permission < WRITE {
        return Err(ActionNotAllowed);
      }
      if data.target !in connections || data.source !in connections {
        return Err(ConnectionNotFound);
      }
      if data.queue !in queues {
        return Err(QueueNotFound);
      }
      if ConnectionPermission(Current(), actor, data.target) == NONE ||
        ConnectionPermission(Current(), actor, data.source) == NONE {
        return Err(ConnectionNotFound);
      }
      var refused := ReferenceError(Current(), data);
      if refused.Some? {
        return Err(refused.value);
      }
      var row := transfers[id];
      if TransferNameTaken(Current(), row.group, data.name, Some(id)) {
        return Err(DuplicatedTransferName);
      }
      row := row.(name := data.name, settings := data.settings);
      row := row.(source := data.source, target := data.target, queue := data.queue);
      row := row.(sourceKind := data.sourceKind, targetKind := data.targetKind);
      transfers := transfers[id := row];
      return Ok(id);
    }

    method DoDeleteTransfer(actor: int, id: int) returns (r: Answer)
      modifies this
      ensures (Current(), r) == AfterDeleteTransfer(old(Current()), actor, id)
    {
      var permission := TransferPermission(Current(), actor, id);
      if permission == NONE {
        return Err(TransferNotFound);
      }
      if permission < DELETE {
        return Err(ActionNotAllowed);
      }
      transfers := transfers - {id};
      CascadeRows();
      return Ok(id);
    }

    /** Copies the source connection, and the target as well unless it is the same one. */
    method CopyEndpoints(row: Transfer, copy: CopyData) returns (r: Result<(int, int), Error>)
      requires row.source in connections && row.target in connections
      modifies this
      ensures (Current(), r) == CopiedEndpoints(old(Current()), row, copy)
    {
      var saved := Current();
      var source := InsertConnectionCopy(row.source, copy.newGroup, copy.newSourceName);
      if source.Err? {
        return Err(source.error);
      }
      var target := source;
      if row.source != row.target {
        target := InsertConnectionCopy(row.target, copy.newGroup, copy.newTargetName);
        if target.Err? {
          Restore(saved);
          return Err(target.error);
        }
      }
      return Ok((source.value, target.value));
    }

    method DoCopyTransfer(actor: int, id: int, copy: CopyData) returns (r: Answer)
      modifies this
      ensures (Current(), r) == AfterCopyTransfer(old(Current()), actor, id, copy)
    {
      var refused := CopyRefusal(Current(), actor, id, copy);
      if refused.Some? {
        return Err(refused.value);
      }
      var saved := Current();
      var row := transfers[id];
      var ends := CopyEndpoints(row, copy);
      if ends.Err? {
        return Err(ends.error);
      }
      row := row.(group := copy.newGroup, source := ends.value.0, target := ends.value.1, queue := copy.newQueue);
      if copy.newName.Some? {
        row := row.(name := copy.newName.value);
      }
      r := InsertTransfer(row);
      if r.Err? {
        Restore(saved);
      } else if copy.removeSource {
        transfers := transfers - {id};
        CascadeRows();
      }
    }

    method InsertTransfer(row: Transfer) returns (r: Answer)
      modifies this
      ensures if TransferNameTaken(old(Current()), row.group, row.name, None)
              then r == Err(DuplicatedTransferName) && Current() == old(Current())
              else r == Ok(old(nextId)) && Current() == Added(old(Current()), row)
    {
      if TransferNameTaken(Current(), row.group, row.name, None) {
        return Err(DuplicatedTransferName);
      }
      r := Ok(nextId);
      transfers := transfers[nextId := row];
      nextId := nextId + 1;
    }

    // -- runs -----------------------------------------------------------------

    method DoStartRun(actor: int, transfer: int) returns (r: Answer)
      modifies this
      ensures (Current(), r) == AfterStartRun(old(Current()), actor, transfer)
    {
      var permission := TransferPermission(Current(), actor, transfer);
      if permission == NONE {
        return Err(TransferNotFound);
      }
      if permission < WRITE {
        return Err(ActionNotAllowed);
      }
      r := CreateRun(transfer);
    }

    /** What a job of the scheduler does when it is due. */
    method DoRunOnSchedule(transfer: int) returns (r: Answer)
      modifies this
      ensures (Current(), r) == AfterRunOnSchedule(old(Current()), transfer)
    {
      if transfer !in transfers {
        return Err(TransferNotFound);
      }
      r := CreateRun(transfer);
    }

    method CreateRun(transfer: int) returns (r: Answer)
      requires transfer in transfers
      modifies this
      ensures (Current(), r) == WithNewRun(old(Current()), transfer)
    {
      if transfers[transfer].source !in credentials {
        return Err(AuthDataNotFound);
      }
      if transfers[transfer].target !in credentials {
        return Err(AuthDataNotFound);
      }
      r := Ok(nextId);
      runs := runs[nextId := transfer];
      nextId := nextId + 1;
    }
  }

  // ---------------------------------------------------------------------------
  // What the listing means
  // ---------------------------------------------------------------------------

  function MemberRole(db: Db, user: int, group: int): Role {
    if IsSuperuser(db, user) then Superuser
    else if Seat(group, user) in db.members then db.members[Seat(group, user)]
    else Owner
  }

  /**
   A line belongs in the listing when the user has a rank there that meets the filter, and the
   role is the one reported elsewhere.
   */
  predicate IsListed(db: Db, user: int, required: Option<Role>, line: Listed) {
    && 0 < LevelIn(db, user, line.group)
    && (required.Some? ==> Level(required.value) <= LevelIn(db, user, line.group))
    && line.role == if Owns(db, user, line.group) then Owner else db.members[Seat(line.group, user)]
  }

  /**
   For a caller the permission check lets through, no membership row does mean owner, and the
   listing shows the same role.
   */
  lemma ListedRoleIsTheReportedRole(db: Db, user: int, group: int)
    requires Membership(db.groups, db.members) && !IsSuperuser(db, user)
    requires group in db.groups && GroupPermission(db, user, group) != NONE
    ensures IsListed(db, user, None, Listed(group, MemberRole(db, user, group)))
    ensures MemberRole(db, user, group).Owner? <==> Owns(db, user, group)
    ensures LevelIn(db, user, group) == Level(MemberRole(db, user, group))
  {
    assert Seat(group, user) in db.members ==> IsPublic(db.members[Seat(group, user)]);
  }
}
