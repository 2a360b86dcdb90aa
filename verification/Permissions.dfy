/** Who may do what: the permissions of the endpoints in terms of a user's standing in a group. */
module Permissions {
  import opened Database
  import opened Operations
  import opened Wrappers

  /** The rank of a user in a group; zero for a stranger. */
  function LevelIn(db: Db, user: int, group: int): int {
    if Owns(db, user, group) then Level(Owner)
    else if Seat(group, user) in db.members then Level(db.members[Seat(group, user)])
    else 0
  }

  /** The same with superusers above everybody, in every group. */
  function Standing(db: Db, user: int, group: int): int {
    if IsSuperuser(db, user) then Level(Superuser) else LevelIn(db, user, group)
  }

  predicate Reaches(db: Db, user: int, group: int, role: Role) {
    Standing(db, user, group) >= Level(role)
  }

  /**
   Guests read; developers write connections and transfers; maintainers delete and manage queues;
   owners manage the group.
   */
  lemma PermissionsByStanding(db: Db, user: int, group: int)
    requires Membership(db.groups, db.members)
    ensures ResourcePermission(db, user, group) >= READ <==> Reaches(db, user, group, Guest)
    ensures ResourcePermission(db, user, group) >= WRITE <==> Reaches(db, user, group, Developer)
    ensures ResourcePermission(db, user, group) >= DELETE <==> Reaches(db, user, group, Maintainer)
    ensures QueuePermission(db, user, group) >= READ <==> Reaches(db, user, group, Guest)
    ensures QueuePermission(db, user, group) >= WRITE <==> Reaches(db, user, group, Maintainer)
    ensures QueuePermission(db, user, group) >= DELETE <==> Reaches(db, user, group, Maintainer)
    ensures GroupPermission(db, user, group) >= READ <==> Reaches(db, user, group, Guest)
    ensures GroupPermission(db, user, group) >= DELETE <==> Reaches(db, user, group, Owner)
  {
    assert Seat(group, user) in db.members ==> IsPublic(db.members[Seat(group, user)]);
  }

  // ---------------------------------------------------------------------------
  // Requests in one group
  // ---------------------------------------------------------------------------

  function ConnectionGroup(db: Db, id: int): Option<int> {
    if id in db.connections then Some(db.connections[id].group) else None
  }

  function QueueGroup(db: Db, id: int): Option<int> {
    if id in db.queues then Some(db.queues[id].group) else None
  }

  function TransferGroup(db: Db, id: int): Option<int> {
    if id in db.transfers then Some(db.transfers[id].group) else None
  }

  function ExistingGroup(db: Db, group: int): Option<int> {
    if group in db.groups then Some(group) else None
  }

  /** The group that a request is about, if there is such a row. */
  function GroupOf(db: Db, op: Op): Option<int> {
    match op
    case UpdateGroup(_, group, _, _) => ExistingGroup(db, group)
    case AddMember(_, group, _, _) => ExistingGroup(db, group)
    case UpdateMember(_, group, _, _) => ExistingGroup(db, group)
    case RemoveMember(_, group, _) => ExistingGroup(db, group)
    case CreateConnection(_, group, _, _, _) => ExistingGroup(db, group)
    case UpdateConnection(_, connection, _, _, _) => ConnectionGroup(db, connection)
    case DeleteConnection(_, connection) => ConnectionGroup(db, connection)
    case CreateQueue(_, group, _, _) => ExistingGroup(db, group)
    case UpdateQueue(_, queue, _) => QueueGroup(db, queue)
    case DeleteQueue(_, queue) => QueueGroup(db, queue)
    case UpdateTransfer(_, transfer, _) => TransferGroup(db, transfer)
    case DeleteTransfer(_, transfer) => TransferGroup(db, transfer)
    case StartRun(_, transfer) => TransferGroup(db, transfer)
    case _ => None
  }

  /** The least role whose holder the request is not refused to. */
  function NeededRole(op: Op): Role {
    match op
    case UpdateGroup(_, _, _, _) => Owner
    case AddMember(_, _, _, _) => Owner
    case UpdateMember(_, _, _, _) => Owner
    case RemoveMember(actor, _, user) => if user == actor then Guest else Owner
    case DeleteConnection(_, _) => Maintainer
    case CreateQueue(_, _, _, _) => Maintainer
    case UpdateQueue(_, _, _) => Maintainer
    case DeleteQueue(_, _) => Maintainer
    case DeleteTransfer(_, _) => Maintainer
    case _ => Developer
  }

  /** What a stranger is told: the same as if the row did not exist. */
  function Hidden(op: Op): Error {
    match op
    case UpdateConnection(_, _, _, _, _) => ConnectionNotFound
    case DeleteConnection(_, _) => ConnectionNotFound
    case UpdateQueue(_, _, _) => QueueNotFound
    case DeleteQueue(_, _) => QueueNotFound
    case UpdateTransfer(_, _, _) => TransferNotFound
    case DeleteTransfer(_, _) => TransferNotFound
    case StartRun(_, _) => TransferNotFound
    case _ => GroupNotFound
  }

  predicate IsGroupRequest(op: Op) {
    op.UpdateGroup? || op.AddMember? || op.UpdateMember? || op.RemoveMember?
  }

  predicate IsResourceRequest(op: Op) {
    || op.CreateConnection? || op.UpdateConnection? || op.DeleteConnection?
    || op.CreateQueue? || op.UpdateQueue? || op.DeleteQueue?
    || op.UpdateTransfer? || op.DeleteTransfer? || op.StartRun?
  }

  /** Refused exactly to those whose standing is too low, and hidden exactly from strangers. */
  ghost predicate IsDecidedByStanding(db: Db, op: Op)
    requires IsGroupRequest(op) || IsResourceRequest(op)
  {
    var group, answer := GroupOf(db, op), After(db, op).1;
    if group.None? || !Reaches(db, op.actor, group.value, Guest) then answer == Err(Hidden(op))
    else answer == Err(ActionNotAllowed) <==> !Reaches(db, op.actor, group.value, NeededRole(op))
  }

  lemma GroupRequestsAreDecided(db: Db, op: Op)
    requires Membership(db.groups, db.members) && IsGroupRequest(op)
    ensures IsDecidedByStanding(db, op)
  {
    PermissionsByStanding(db, op.actor, op.group);
  }

  lemma ResourceRequestsAreDecided(db: Db, op: Op)
    requires Membership(db.groups, db.members) && IsResourceRequest(op)
    ensures IsDecidedByStanding(db, op)
  {
    if GroupOf(db, op).Some? {
      PermissionsByStanding(db, op.actor, GroupOf(db, op).value);
    }
  }

  /** Only superusers delete groups, and only developers of the named group create transfers there. */
  lemma OtherRequestsAreDecided(db: Db, actor: int, group: int, data: TransferData)
    requires Membership(db.groups, db.members)
    ensures AfterDeleteGroup(db, actor, group).1 == Err(ActionNotAllowed) <==> !IsSuperuser(db, actor)
    ensures data.group in db.groups ==>
            (AfterCreateTransfer(db, actor, data).1 == Err(ActionNotAllowed) <==>
             !Reaches(db, actor, data.group, Developer))
  {
    PermissionsByStanding(db, actor, data.group);
  }

  /**
   Copying needs sight of the origin, or the right to delete it if it is to go, and a developer's
   role in the new group.
   */
  lemma CopyingNeeds(db: Db, actor: int, id: int, group: int, newName: Option<string>, removeSource: bool,
      copy: CopyData)
    requires Membership(db.groups, db.members)
    ensures AfterCopyConnection(db, actor, id, group, newName, removeSource).1.Ok? ==>
            && id in db.connections && Reaches(db, actor, group, Developer)
            && Reaches(db, actor, db.connections[id].group, if removeSource then Maintainer else Guest)
    ensures AfterCopyTransfer(db, actor, id, copy).1.Ok? ==>
            && id in db.transfers && Reaches(db, actor, copy.newGroup, Developer)
            && Reaches(db, actor, db.transfers[id].group, if copy.removeSource then Maintainer else Guest)
            && (forall c | c == db.transfers[id].source || c == db.transfers[id].target ::
                  c in db.connections && Reaches(db, actor, db.connections[c].group, Guest))
  {
    PermissionsByStanding(db, actor, group);
    PermissionsByStanding(db, actor, copy.newGroup);
    if id in db.connections {
      PermissionsByStanding(db, actor, db.connections[id].group);
    }
    if id in db.transfers {
      PermissionsByStanding(db, actor, db.transfers[id].group);
      if CopyRefusal(db, actor, id, copy).None? {
        PermissionsByStanding(db, actor, db.connections[db.transfers[id].source].group);
        PermissionsByStanding(db, actor, db.connections[db.transfers[id].target].group);
      }
    }
  }
}
