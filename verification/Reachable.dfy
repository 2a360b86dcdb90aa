/** What every sequence of requests keeps, and what the guarded deletions can and cannot promise. */
module Reachable {
  import opened Wrappers
  import opened Collections
  import opened Credentials
  import opened Database
  import opened Operations
  import opened Uniqueness

  // ---------------------------------------------------------------------------
  // One request
  // ---------------------------------------------------------------------------

  predicate IsGroupOp(op: Op) {
    op.RegisterUser? || op.CreateGroup? || op.UpdateGroup? || op.AddMember? || op.UpdateMember? || op.RemoveMember?
  }

  predicate IsDeletion(op: Op) {
    op.DeleteGroup? || op.DeleteConnection? || op.DeleteQueue? || op.DeleteTransfer?
  }

  lemma CopyErrorsRollBack(db: Db, op: Op)
    requires (op.CopyConnection? || op.CopyTransfer?) && After(db, op).1.Err?
    ensures Apply(db, op) == db
  {
  }

  lemma GroupErrorsRollBack(db: Db, op: Op)
    requires IsGroupOp(op) && After(db, op).1.Err?
    ensures Apply(db, op) == db
  {
  }

  lemma DeletionErrorsRollBack(db: Db, op: Op)
    requires IsDeletion(op) && After(db, op).1.Err?
    ensures Apply(db, op) == db
  {
  }

  lemma RowErrorsRollBack(db: Db, op: Op)
    requires (IsRowOp(op) || op.CreateTransfer? || op.UpdateTransfer?) && After(db, op).1.Err?
    ensures Apply(db, op) == db
  {
  }

  /** An endpoint that answers with an error leaves no trace. */
  lemma ErrorsRollBack(db: Db, op: Op)
    requires After(db, op).1.Err?
    ensures Apply(db, op) == db
  {
    if op.CopyConnection? || op.CopyTransfer? {
      CopyErrorsRollBack(db, op);
    } else if IsGroupOp(op) {
      GroupErrorsRollBack(db, op);
    } else if IsDeletion(op) {
      DeletionErrorsRollBack(db, op);
    } else {
      RowErrorsRollBack(db, op);
    }
  }

  /** No row that both states have has changed. */
  ghost predicate OnlyRemoves(db: Db, t: Db) {
    && (forall id | id in t.transfers :: id in db.transfers && t.transfers[id] == db.transfers[id])
    && forall id | id in t.connections && id in db.connections :: t.connections[id] == db.connections[id]
  }

  /** Some rows are gone, and the others are as they were. */
  ghost predicate IsCut(db: Db, cut: Db) {
    && cut == db.(groups := cut.groups, connections := cut.connections,
                  queues := cut.queues, transfers := cut.transfers)
    && (forall id | id in cut.groups :: id in db.groups && cut.groups[id] == db.groups[id])
    && (forall id | id in cut.connections :: id in db.connections && cut.connections[id] == db.connections[id])
    && (forall id | id in cut.queues :: id in db.queues && cut.queues[id] == db.queues[id])
    && (forall id | id in cut.transfers :: id in db.transfers && cut.transfers[id] == db.transfers[id])
  }

  lemma CascadeKeepsReferences(db: Db, cut: Db)
    requires Allocated(db) && Referential(db) && IsCut(db, cut)
    ensures Allocated(Cascade(cut)) && Referential(Cascade(cut))
  {
  }

  lemma CascadeKeepsMembership(db: Db, cut: Db)
    requires Membership(db.groups, db.members) && IsCut(db, cut)
    ensures Membership(Cascade(cut).groups, Cascade(cut).members)
  {
    var t := Cascade(cut);
    forall m | m in t.members
      ensures m.group in t.groups && t.groups[m.group].owner != m.user && IsPublic(t.members[m])
    {
      assert m in db.members && IsPublic(db.members[m]);
      assert m.group in cut.groups && t.groups[m.group] == db.groups[m.group];
    }
  }

  lemma CascadeKeepsCoherence(db: Db, cut: Db)
    requires Coherent(db.connections, db.queues, db.transfers) && IsCut(db, cut)
    ensures Coherent(Cascade(cut).connections, Cascade(cut).queues, Cascade(cut).transfers)
    ensures OnlyRemoves(db, Cascade(cut))
  {
    var t := Cascade(cut);
    forall id | id in t.transfers
      ensures CoherentTransfer(t.connections, t.queues, t.transfers[id])
    {
      assert CoherentTransfer(db.connections, db.queues, db.transfers[id]);
    }
  }

  /** Deleting rows and cascading leaves a consistent state, in which every surviving transfer is as it was. */
  lemma CascadeKeepsConsistent(db: Db, cut: Db)
    requires Consistent(db) && IsCut(db, cut)
    ensures Consistent(Cascade(cut))
    ensures OnlyRemoves(db, Cascade(cut))
  {
    CascadeKeepsReferences(db, cut);
    CascadeKeepsMembership(db, cut);
    CascadeKeepsCoherence(db, cut);
  }

  lemma DeleteGroupKeepsConsistent(db: Db, actor: int, group: int)
    requires Consistent(db)
    ensures var t := AfterDeleteGroup(db, actor, group).0; Consistent(t) && OnlyRemoves(db, t)
  {
    if AfterDeleteGroup(db, actor, group).1.Ok? {
      CascadeKeepsConsistent(db, db.(groups := db.groups - {group}));
    }
  }

  function WithoutConnection(db: Db, id: int): Db {
    Cascade(db.(connections := db.connections - {id}))
  }

  lemma WithoutConnectionKeepsConsistent(db: Db, id: int)
    requires Consistent(db)
    ensures Consistent(WithoutConnection(db, id)) && OnlyRemoves(db, WithoutConnection(db, id))
  {
    CascadeKeepsConsistent(db, db.(connections := db.connections - {id}));
  }

  lemma DeleteConnectionKeepsConsistent(db: Db, actor: int, id: int)
    requires Consistent(db)
    ensures var t := AfterDeleteConnection(db, actor, id).0; Consistent(t) && OnlyRemoves(db, t)
  {
    var t := AfterDeleteConnection(db, actor, id).0;
    if AfterDeleteConnection(db, actor, id).1.Ok? {
      assert t == WithoutConnection(db, id);
      WithoutConnectionKeepsConsistent(db, id);
    } else {
      assert t == db;
    }
  }

  lemma DeleteQueueKeepsConsistent(db: Db, actor: int, id: int)
    requires Consistent(db)
    ensures var t := AfterDeleteQueue(db, actor, id).0; Consistent(t) && OnlyRemoves(db, t)
  {
    if AfterDeleteQueue(db, actor, id).1.Ok? {
      CascadeKeepsConsistent(db, db.(queues := db.queues - {id}));
    }
  }

  lemma DeleteTransferKeepsConsistent(db: Db, actor: int, id: int)
    requires Consistent(db)
    ensures var t := AfterDeleteTransfer(db, actor, id).0; Consistent(t) && OnlyRemoves(db, t)
  {
    if AfterDeleteTransfer(db, actor, id).1.Ok? {
      CascadeKeepsConsistent(db, db.(transfers := db.transfers - {id}));
    }
  }

  lemma DeletionKeepsConsistent(db: Db, op: Op)
    requires Consistent(db) && IsDeletion(op)
    ensures Consistent(Apply(db, op)) && OnlyRemoves(db, Apply(db, op))
  {
    if op.DeleteGroup? {
      DeleteGroupKeepsConsistent(db, op.actor, op.group);
    } else if op.DeleteConnection? {
      DeleteConnectionKeepsConsistent(db, op.actor, op.connection);
    } else if op.DeleteQueue? {
      DeleteQueueKeepsConsistent(db, op.actor, op.queue);
    } else {
      DeleteTransferKeepsConsistent(db, op.actor, op.transfer);
    }
  }

  lemma PutMemberKeepsConsistent(db: Db, seat: Seat, role: Role)
    requires Consistent(db) && IsPublic(role) && seat.user in db.users
    requires seat.group in db.groups && db.groups[seat.group].owner != seat.user
    ensures Consistent(db.(members := db.members[seat := role]))
  {
  }

  lemma DropMemberKeepsConsistent(db: Db, seat: Seat)
    requires Consistent(db)
    ensures Consistent(db.(members := db.members - {seat}))
  {
  }

  lemma PutGroupKeepsConsistent(db: Db, id: int, group: Group)
    requires Consistent(db) && group.owner in db.users && id <= db.nextId
    requires forall m | m in db.members && m.group == id :: m.user != group.owner
    ensures Consistent(db.(groups := db.groups[id := group], nextId := if id == db.nextId then id + 1 else db.nextId))
  {
    var groups := db.groups[id := group];
    forall m | m in db.members
      ensures m.group in groups && groups[m.group].owner != m.user && IsPublic(db.members[m])
    {
      assert m.group in db.groups && db.groups[m.group].owner != m.user && IsPublic(db.members[m]);
    }
  }

  lemma HandoverKeepsConsistent(db: Db, actor: int, group: int, name: string, owner: int)
    requires Consistent(db)
    ensures Consistent(AfterUpdateGroup(db, actor, group, name, owner).0)
  {
    if AfterUpdateGroup(db, actor, group, name, owner).1.Ok? {
      var previous := db.groups[group].owner;
      var cleared := db.(members := db.members - {Seat(group, owner)});
      DropMemberKeepsConsistent(db, Seat(group, owner));
      if previous == owner {
        PutGroupKeepsConsistent(db, group, Group(name, owner));
      } else {
        PutGroupKeepsConsistent(cleared, group, Group(name, owner));
        var moved := cleared.(groups := db.groups[group := Group(name, owner)]);
        PutMemberKeepsConsistent(moved, Seat(group, previous), Guest);
      }
    }
  }

  lemma CreateGroupKeepsConsistent(db: Db, actor: int, name: string)
    requires Consistent(db) && actor in db.users
    ensures Consistent(AfterCreateGroup(db, actor, name).0)
  {
    PutGroupKeepsConsistent(db, db.nextId, Group(name, actor));
  }

  lemma AddMemberKeepsConsistent(db: Db, actor: int, group: int, user: int, role: Role)
    requires Consistent(db) && IsPublic(role)
    ensures Consistent(AfterAddMember(db, actor, group, user, role).0)
  {
    if AfterAddMember(db, actor, group, user, role).1.Ok? {
      PutMemberKeepsConsistent(db, Seat(group, user), role);
    }
  }

  lemma UpdateMemberKeepsConsistent(db: Db, actor: int, group: int, user: int, role: Role)
    requires Consistent(db) && IsPublic(role)
    ensures Consistent(AfterUpdateMember(db, actor, group, user, role).0)
  {
    if AfterUpdateMember(db, actor, group, user, role).1.Ok? {
      PutMemberKeepsConsistent(db, Seat(group, user), role);
    }
  }

  lemma RemoveMemberKeepsConsistent(db: Db, actor: int, group: int, user: int)
    requires Consistent(db)
    ensures Consistent(AfterRemoveMember(db, actor, group, user).0)
  {
    DropMemberKeepsConsistent(db, Seat(group, user));
  }

  lemma GroupOpKeepsConsistent(db: Db, op: Op)
    requires Consistent(db) && WellFormed(db, op) && IsGroupOp(op)
    ensures Consistent(Apply(db, op))
  {
    if op.CreateGroup? {
      CreateGroupKeepsConsistent(db, op.actor, op.name);
    } else if op.UpdateGroup? {
      HandoverKeepsConsistent(db, op.actor, op.group, op.name, op.owner);
    } else if op.AddMember? {
      AddMemberKeepsConsistent(db, op.actor, op.group, op.user, op.role);
    } else if op.UpdateMember? {
      UpdateMemberKeepsConsistent(db, op.actor, op.group, op.user, op.role);
    } else if op.RemoveMember? {
      RemoveMemberKeepsConsistent(db, op.actor, op.group, op.user);
    }
  }

  lemma GroupOpKeepsResources(db: Db, op: Op)
    requires IsGroupOp(op)
    ensures Apply(db, op).connections == db.connections && Apply(db, op).transfers == db.transfers
  {
  }

  /** Rows that keep their group and type keep every transfer coherent. */
  lemma StableRowsKeepCoherence(
    connections: map<int, Connection>, queues: map<int, Queue>, transfers: map<int, Transfer>,
    newConnections: map<int, Connection>, newQueues: map<int, Queue>)
    requires Coherent(connections, queues, transfers)
    requires forall id | id in connections :: id in newConnections && newConnections[id].group == connections[id].group
    requires forall id, t | id in connections && t in transfers &&
             (transfers[t].source == id || transfers[t].target == id) ::
               id in newConnections && newConnections[id].kind == connections[id].kind
    requires forall id | id in queues :: id in newQueues && newQueues[id].group == queues[id].group
    ensures Coherent(newConnections, newQueues, transfers)
  {
    forall id | id in transfers
      ensures CoherentTransfer(newConnections, newQueues, transfers[id])
    {
      assert CoherentTransfer(connections, queues, transfers[id]);
    }
  }

  lemma PutConnectionKeepsConsistent(db: Db, id: int, connection: Connection, credentials: map<int, AuthData>)
    requires Consistent(db) && connection.group in db.groups && id <= db.nextId &&
             credentials.Keys <= db.credentials.Keys + {id}
    requires id in db.connections ==> db.connections[id].group == connection.group
    requires id in db.connections && ConnectionInUse(db, id) ==> db.connections[id].kind == connection.kind
    ensures Consistent(db.(connections := db.connections[id := connection], credentials := credentials,
                      nextId := if id == db.nextId then id + 1 else db.nextId))
  {
    StableRowsKeepCoherence(db.connections, db.queues, db.transfers, db.connections[id := connection], db.queues);
  }

  lemma PutQueueKeepsConsistent(db: Db, id: int, queue: Queue)
    requires Consistent(db) && queue.group in db.groups && id <= db.nextId
    requires id in db.queues ==> db.queues[id].group == queue.group
    ensures Consistent(db.(queues := db.queues[id := queue], nextId := if id == db.nextId then id + 1 else db.nextId))
  {
    StableRowsKeepCoherence(db.connections, db.queues, db.transfers, db.connections, db.queues[id := queue]);
  }

  predicate IsRowOp(op: Op) {
    || op.CreateConnection? || op.UpdateConnection? || op.CreateQueue? || op.UpdateQueue?
    || op.StartRun? || op.RunOnSchedule?
  }

  lemma CreateConnectionKeepsConsistent(db: Db, actor: int, group: int, name: string, kind: string, auth: AuthData)
    requires Consistent(db)
    ensures Consistent(AfterCreateConnection(db, actor, group, name, kind, auth).0)
  {
    if AfterCreateConnection(db, actor, group, name, kind, auth).1.Ok? {
      PutConnectionKeepsConsistent(db, db.nextId, Connection(group, name, kind), db.credentials[db.nextId := auth]);
    }
  }

  lemma UpdateConnectionKeepsConsistent(db: Db, actor: int, id: int, name: string, kind: string, auth: AuthRequest)
    requires Consistent(db)
    ensures Consistent(AfterUpdateConnection(db, actor, id, name, kind, auth).0)
  {
    if AfterUpdateConnection(db, actor, id, name, kind, auth).1.Ok? {
      PutConnectionKeepsConsistent(db, id, db.connections[id].(name := name, kind := kind),
                                   AfterUpdateConnection(db, actor, id, name, kind, auth).0.credentials);
    }
  }

  lemma CreateQueueKeepsConsistent(db: Db, actor: int, group: int, name: string, slug: string)
    requires Consistent(db)
    ensures Consistent(AfterCreateQueue(db, actor, group, name, slug).0)
  {
    if AfterCreateQueue(db, actor, group, name, slug).1.Ok? {
      PutQueueKeepsConsistent(db, db.nextId, Queue(group, name, slug));
    }
  }

  lemma UpdateQueueKeepsConsistent(db: Db, actor: int, id: int, name: string)
    requires Consistent(db)
    ensures Consistent(AfterUpdateQueue(db, actor, id, name).0)
  {
    if AfterUpdateQueue(db, actor, id, name).1.Ok? {
      PutQueueKeepsConsistent(db, id, db.queues[id].(name := name));
    }
  }

  lemma NewRunKeepsConsistent(db: Db, transfer: int)
    requires Consistent(db) && transfer in db.transfers
    ensures Consistent(WithNewRun(db, transfer).0)
  {
  }

  /** Creating and changing connections and queues, and starting runs. */
  lemma RowOpKeepsConsistent(db: Db, op: Op)
    requires Consistent(db) && IsRowOp(op)
    ensures Consistent(Apply(db, op))
  {
    if op.CreateConnection? {
      CreateConnectionKeepsConsistent(db, op.actor, op.group, op.name, op.kind, op.auth);
    } else if op.UpdateConnection? {
      UpdateConnectionKeepsConsistent(db, op.actor, op.connection, op.name, op.kind, op.request);
    } else if op.CreateQueue? {
      CreateQueueKeepsConsistent(db, op.actor, op.group, op.name, op.slug);
    } else if op.UpdateQueue? {
      UpdateQueueKeepsConsistent(db, op.actor, op.queue, op.name);
    } else if op.transfer in db.transfers {
      NewRunKeepsConsistent(db, op.transfer);
    }
  }

  /** Transfers stay as they are and connections stay in their groups. */
  ghost predicate Undisturbed(db: Db, t: Db) {
    && t.transfers == db.transfers
    && forall id | id in db.connections :: id in t.connections && t.connections[id].group == db.connections[id].group
  }

  lemma CreateConnectionDisturbsNothing(db: Db, actor: int, group: int, name: string, kind: string, auth: AuthData)
    requires Allocated(db)
    ensures Undisturbed(db, AfterCreateConnection(db, actor, group, name, kind, auth).0)
  {
  }

  lemma UpdateConnectionDisturbsNothing(db: Db, actor: int, id: int, name: string, kind: string, auth: AuthRequest)
    ensures Undisturbed(db, AfterUpdateConnection(db, actor, id, name, kind, auth).0)
  {
  }

  lemma QueueOpDisturbsNothing(db: Db, op: Op)
    requires op.CreateQueue? || op.UpdateQueue?
    ensures Undisturbed(db, Apply(db, op))
  {
  }

  lemma NewRunDisturbsNothing(db: Db, op: Op)
    requires op.StartRun? || op.RunOnSchedule?
    ensures Undisturbed(db, Apply(db, op))
  {
  }

  lemma RowOpDisturbsNothing(db: Db, op: Op)
    requires Allocated(db) && IsRowOp(op)
    ensures Undisturbed(db, Apply(db, op))
  {
    if op.CreateConnection? {
      CreateConnectionDisturbsNothing(db, op.actor, op.group, op.name, op.kind, op.auth);
    } else if op.UpdateConnection? {
      UpdateConnectionDisturbsNothing(db, op.actor, op.connection, op.name, op.kind, op.request);
    } else if op.StartRun? || op.RunOnSchedule? {
      NewRunDisturbsNothing(db, op);
    } else {
      QueueOpDisturbsNothing(db, op);
    }
  }

  lemma CopiedConnectionKeepsConsistent(db: Db, id: int, newGroup: int, newName: Option<string>)
    requires Consistent(db) && id in db.connections && newGroup in db.groups
    ensures Consistent(CopiedConnection(db, id, newGroup, newName).0)
  {
    var copy := db.connections[id].(group := newGroup, name := NameOr(newName, db.connections[id].name));
    PutConnectionKeepsConsistent(db, db.nextId, copy, db.credentials);
  }

  /**
   What removing a row from the state with the copy leaves is also what removing from the state
   before would have spared.
   */
  lemma RemovingFromCopy(db: Db, copied: Db, t: Db)
    requires copied.transfers == db.transfers && OnlyRemoves(copied, t)
    requires forall c | c in db.connections :: c in copied.connections && copied.connections[c] == db.connections[c]
    ensures OnlyRemoves(db, t)
  {
  }

  lemma CopiedConnectionKeepsRows(db: Db, id: int, newGroup: int, newName: Option<string>)
    requires Allocated(db) && id in db.connections
    ensures var copied := CopiedConnection(db, id, newGroup, newName).0;
            && copied.transfers == db.transfers
            && forall c | c in db.connections :: c in copied.connections && copied.connections[c] == db.connections[c]
  {
  }

  lemma CopyConnectionUnfolds(db: Db, actor: int, id: int, newGroup: int, newName: Option<string>, removeSource: bool)
    ensures var (t, answer) := AfterCopyConnection(db, actor, id, newGroup, newName, removeSource);
            if answer.Err? then t == db
            else
              && id in db.connections && newGroup in db.groups
              && var copied := CopiedConnection(db, id, newGroup, newName).0;
                 t == if removeSource then WithoutConnection(copied, id) else copied
  {
  }

  lemma CopyConnectionKeepsConsistent(db: Db, actor: int, id: int, newGroup: int, newName: Option<string>,
      removeSource: bool)
    requires Consistent(db)
    ensures var t := AfterCopyConnection(db, actor, id, newGroup, newName, removeSource).0;
            Consistent(t) && OnlyRemoves(db, t)
  {
    var (t, answer) := AfterCopyConnection(db, actor, id, newGroup, newName, removeSource);
    CopyConnectionUnfolds(db, actor, id, newGroup, newName, removeSource);
    if answer.Ok? {
      var copied := CopiedConnection(db, id, newGroup, newName).0;
      CopiedConnectionKeepsConsistent(db, id, newGroup, newName);
      CopiedConnectionKeepsRows(db, id, newGroup, newName);
      if removeSource {
        WithoutConnectionKeepsConsistent(copied, id);
      }
      RemovingFromCopy(db, copied, t);
    }
  }

  lemma PutTransferKeepsConsistent(db: Db, id: int, transfer: Transfer)
    requires Consistent(db) && transfer.group in db.groups && id <= db.nextId
    requires CoherentTransfer(db.connections, db.queues, transfer)
    ensures Consistent(db.(transfers := db.transfers[id := transfer],
                           nextId := if id == db.nextId then id + 1 else db.nextId))
  {
    var transfers := db.transfers[id := transfer];
    forall other | other in transfers
      ensures CoherentTransfer(db.connections, db.queues, transfers[other])
    {
      assert other in db.transfers ==> CoherentTransfer(db.connections, db.queues, db.transfers[other]);
    }
  }

  lemma CreateTransferKeepsConsistent(db: Db, actor: int, data: TransferData)
    requires Consistent(db)
    ensures Consistent(AfterCreateTransfer(db, actor, data).0)
  {
    if AfterCreateTransfer(db, actor, data).1.Ok? {
      PutTransferKeepsConsistent(db, db.nextId, NewTransfer(data));
    }
  }

  lemma UpdateTransferKeepsConsistent(db: Db, actor: int, id: int, data: TransferData)
    requires Consistent(db)
    ensures Consistent(AfterUpdateTransfer(db, actor, id, data).0)
  {
    if AfterUpdateTransfer(db, actor, id, data).1.Ok? {
      PutTransferKeepsConsistent(db, id, NewTransfer(data).(group := db.transfers[id].group));
    }
  }

  /** The copied ends of a coherent transfer: same types, both in the new group, next to all the old rows. */
  lemma CopiedEndpointsAreCoherent(db: Db, transfer: Transfer, copy: CopyData)
    requires Consistent(db) && CoherentTransfer(db.connections, db.queues, transfer) && copy.newGroup in db.groups
    ensures var (t, ends) := CopiedEndpoints(db, transfer, copy);
            ends.Ok? ==>
              && Consistent(t) && t.transfers == db.transfers && t.queues == db.queues && t.groups == db.groups
              && ends.value.0 in t.connections && ends.value.1 in t.connections
              && t.connections[ends.value.0].group == t.connections[ends.value.1].group == copy.newGroup
              && t.connections[ends.value.0].kind == transfer.sourceKind
              && t.connections[ends.value.1].kind == transfer.targetKind
              && forall id | id in db.connections :: id in t.connections && t.connections[id] == db.connections[id]
  {
    CopiedConnectionKeepsConsistent(db, transfer.source, copy.newGroup, copy.newSourceName);
    var (one, source) := CopiedConnection(db, transfer.source, copy.newGroup, copy.newSourceName);
    if source.Ok? && transfer.source != transfer.target {
      CopiedConnectionKeepsConsistent(one, transfer.target, copy.newGroup, copy.newTargetName);
    }
  }

  /** What a successful copy adds, before the origin is removed if it is to be. */
  lemma CopyTransferUnfolds(db: Db, actor: int, id: int, copy: CopyData) returns (copied: Db, moved: Transfer)
    requires Consistent(db) && AfterCopyTransfer(db, actor, id, copy).1.Ok?
    ensures Consistent(copied) && copied.transfers == db.transfers && id in db.transfers
    ensures CoherentTransfer(copied.connections, copied.queues, moved) && moved.group in copied.groups
    ensures copied.connections[moved.source].group == moved.group
    ensures forall c | c in db.connections :: c in copied.connections && copied.connections[c] == db.connections[c]
    ensures copied.credentials == db.credentials && db.nextId <= moved.source < copied.nextId &&
            db.nextId <= moved.target < copied.nextId
    ensures AfterCopyTransfer(db, actor, id, copy).1 == Ok(copied.nextId)
    ensures var added := Added(copied, moved);
            AfterCopyTransfer(db, actor, id, copy).0 ==
              if copy.removeSource then Cascade(added.(transfers := added.transfers - {id})) else added
  {
    var origin := db.transfers[id];
    assert CoherentTransfer(db.connections, db.queues, origin);
    CopiedEndpointsAreCoherent(db, origin, copy);
    var ends: Result<(int, int), Error>;
    copied, ends := CopiedEndpoints(db, origin, copy).0, CopiedEndpoints(db, origin, copy).1;
    moved := Moved(origin, copy, ends.value);
  }

  lemma CopyTransferKeepsConsistent(db: Db, actor: int, id: int, copy: CopyData)
    requires Consistent(db)
    ensures Consistent(AfterCopyTransfer(db, actor, id, copy).0)
  {
    if AfterCopyTransfer(db, actor, id, copy).1.Ok? {
      var copied, moved := CopyTransferUnfolds(db, actor, id, copy);
      PutTransferKeepsConsistent(copied, copied.nextId, moved);
      if copy.removeSource {
        var added := Added(copied, moved);
        CascadeKeepsConsistent(added, added.(transfers := added.transfers - {id}));
      }
    }
  }

  /** A state that only removes rows keeps the remaining transfers in their own groups. */
  lemma RemovalKeepsOwnGroup(db: Db, t: Db)
    requires Coherent(t.connections, t.queues, t.transfers) && Coherent(db.connections, db.queues, db.transfers)
    requires InOwnGroup(db.connections, db.transfers) && OnlyRemoves(db, t)
    ensures InOwnGroup(t.connections, t.transfers)
  {
    forall id | id in t.transfers
      ensures t.transfers[id].source in t.connections &&
              t.connections[t.transfers[id].source].group == t.transfers[id].group
    {
      assert CoherentTransfer(t.connections, t.queues, t.transfers[id]);
    }
  }

  lemma CopyTransferKeepsOwnGroup(db: Db, actor: int, id: int, copy: CopyData)
    requires Consistent(db) && InOwnGroup(db.connections, db.transfers)
    ensures var t := AfterCopyTransfer(db, actor, id, copy).0; InOwnGroup(t.connections, t.transfers)
  {
    if AfterCopyTransfer(db, actor, id, copy).1.Ok? {
      var copied, moved := CopyTransferUnfolds(db, actor, id, copy);
      var added := Added(copied, moved);
      assert InOwnGroup(added.connections, added.transfers);
      PutTransferKeepsConsistent(copied, copied.nextId, moved);
      if copy.removeSource {
        var cut := added.(transfers := added.transfers - {id});
        CascadeKeepsConsistent(added, cut);
        RemovalKeepsOwnGroup(added, Cascade(cut));
      }
    }
  }

  lemma RequestKeepsConsistent(db: Db, op: Op)
    requires Consistent(db) && WellFormed(db, op)
    ensures Consistent(Apply(db, op))
  {
    if IsGroupOp(op) {
      GroupOpKeepsConsistent(db, op);
    } else if IsDeletion(op) {
      DeletionKeepsConsistent(db, op);
    } else if IsRowOp(op) {
      RowOpKeepsConsistent(db, op);
    } else if op.CopyConnection? {
      CopyConnectionKeepsConsistent(db, op.actor, op.connection, op.newGroup, op.newName, op.removeSource);
    } else if op.CreateTransfer? {
      CreateTransferKeepsConsistent(db, op.actor, op.data);
    } else if op.UpdateTransfer? {
      UpdateTransferKeepsConsistent(db, op.actor, op.transfer, op.data);
    } else {
      CopyTransferKeepsConsistent(db, op.actor, op.transfer, op.copy);
    }
  }

  /** Foreign keys, membership, coherence, the unique constraints and the completeness of stored auth data. */
  lemma RequestKeepsValid(db: Db, op: Op)
    requires Valid(db) && WellFormed(db, op)
    ensures Valid(Apply(db, op))
  {
    RequestKeepsConsistent(db, op);
    RequestKeepsUnique(db, op);
    RequestKeepsComplete(db, op);
  }

  // ---------------------------------------------------------------------------
  // Histories
  // ---------------------------------------------------------------------------

  ghost predicate ValidHistory(db: Db, ops: seq<Op>)
    decreases |ops|
  {
    ops != [] ==> WellFormed(db, ops[0]) && ValidHistory(Apply(db, ops[0]), ops[1..])
  }

  ghost function ApplyAll(db: Db, ops: seq<Op>): Db
    requires ValidHistory(db, ops)
    decreases |ops|
  {
    if ops == [] then db else ApplyAll(Apply(db, ops[0]), ops[1..])
  }

  function EmptyDb(firstId: int): Db {
    Db(map[], map[], map[], map[], map[], map[], map[], map[], firstId)
  }

  /** Every invariant of the database, after any requests. */
  lemma {:induction false} EveryHistoryIsValid(db: Db, ops: seq<Op>)
    requires Valid(db) && ValidHistory(db, ops)
    ensures Valid(ApplyAll(db, ops))
    decreases |ops|
  {
    if ops != [] {
      RequestKeepsValid(db, ops[0]);
      EveryHistoryIsValid(Apply(db, ops[0]), ops[1..]);
    }
  }

  lemma ReachableIsValid(firstId: int, ops: seq<Op>)
    requires ValidHistory(EmptyDb(firstId), ops)
    ensures Valid(ApplyAll(EmptyDb(firstId), ops))
  {
    EveryHistoryIsValid(EmptyDb(firstId), ops);
  }

  // ---------------------------------------------------------------------------
  // A transfer's own group
  // ---------------------------------------------------------------------------

  /** An update that names a group other than the transfer's own. */
  predicate Drifts(db: Db, op: Op) {
    op.UpdateTransfer? && op.transfer in db.transfers && op.data.group != db.transfers[op.transfer].group
  }

  ghost predicate OwnGroups(db: Db) {
    InOwnGroup(db.connections, db.transfers)
  }

  /** Exactly the successful updates that name another group take a transfer out of its own group. */
  lemma UpdateKeepsOwnGroupIff(db: Db, actor: int, id: int, data: TransferData)
    requires Consistent(db) && OwnGroups(db) && AfterUpdateTransfer(db, actor, id, data).1.Ok?
    ensures id in db.transfers
    ensures OwnGroups(AfterUpdateTransfer(db, actor, id, data).0) <==> data.group == db.transfers[id].group
  {
    var t := AfterUpdateTransfer(db, actor, id, data).0;
    assert id in t.transfers && t.connections == db.connections;
  }

  lemma CreateTransferKeepsOwnGroup(db: Db, actor: int, data: TransferData)
    requires OwnGroups(db)
    ensures OwnGroups(AfterCreateTransfer(db, actor, data).0)
  {
  }

  lemma RequestKeepsOwnGroup(db: Db, op: Op)
    requires Consistent(db) && OwnGroups(db) && WellFormed(db, op) && !Drifts(db, op)
    ensures OwnGroups(Apply(db, op))
  {
    RequestKeepsConsistent(db, op);
    if IsGroupOp(op) {
      GroupOpKeepsResources(db, op);
    } else if IsDeletion(op) {
      DeletionKeepsConsistent(db, op);
      RemovalKeepsOwnGroup(db, Apply(db, op));
    } else if IsRowOp(op) {
      RowOpDisturbsNothing(db, op);
    } else if op.CopyConnection? {
      CopyConnectionKeepsConsistent(db, op.actor, op.connection, op.newGroup, op.newName, op.removeSource);
      RemovalKeepsOwnGroup(db, Apply(db, op));
    } else if op.CreateTransfer? {
      CreateTransferKeepsOwnGroup(db, op.actor, op.data);
    } else if op.CopyTransfer? {
      CopyTransferKeepsOwnGroup(db, op.actor, op.transfer, op.copy);
    } else if After(db, op).1.Ok? {
      UpdateKeepsOwnGroupIff(db, op.actor, op.transfer, op.data);
    } else {
      ErrorsRollBack(db, op);
    }
  }

  ghost predicate NeverDrifts(db: Db, ops: seq<Op>)
    requires ValidHistory(db, ops)
    decreases |ops|
  {
    ops != [] ==> !Drifts(db, ops[0]) && NeverDrifts(Apply(db, ops[0]), ops[1..])
  }

  lemma {:induction false} OwnGroupAlways(db: Db, ops: seq<Op>)
    requires Valid(db) && OwnGroups(db) && ValidHistory(db, ops) && NeverDrifts(db, ops)
    ensures Valid(ApplyAll(db, ops)) && OwnGroups(ApplyAll(db, ops))
    decreases |ops|
  {
    if ops != [] {
      RequestKeepsValid(db, ops[0]);
      RequestKeepsOwnGroup(db, ops[0]);
      OwnGroupAlways(Apply(db, ops[0]), ops[1..]);
    }
  }

  // ---------------------------------------------------------------------------
  // Guarded deletions
  // ---------------------------------------------------------------------------

  ghost predicate DestroysNothing(db: Db, t: Db) {
    t.transfers == db.transfers && t.runs == db.runs
  }

  /** If a cascade spares every transfer, it spares every run. */
  lemma SparedTransfersSpareRuns(db: Db, cut: Db)
    requires Consistent(db) && cut.runs == db.runs && cut.transfers == db.transfers
    requires forall id | id in db.transfers :: id in Cascade(cut).transfers
    ensures Cascade(cut).transfers == db.transfers && Cascade(cut).runs == db.runs
  {
    var t := Cascade(cut);
    assert forall id | id in t.transfers :: id in db.transfers && t.transfers[id] == db.transfers[id];
    assert forall id | id in db.transfers :: id in t.transfers;
    SameMap(t.transfers, db.transfers);
    assert forall id | id in t.runs :: id in db.runs && t.runs[id] == db.runs[id];
    assert forall id | id in db.runs :: db.runs[id] in t.transfers && id in t.runs;
    SameMap(t.runs, db.runs);
  }

  lemma UnlinkedConnectionIsSpared(db: Db, connection: int)
    requires Consistent(db) && !ConnectionInUse(db, connection)
    ensures DestroysNothing(db, Cascade(db.(connections := db.connections - {connection})))
  {
    var cut := db.(connections := db.connections - {connection});
    forall id | id in db.transfers
      ensures id in Cascade(cut).transfers
    {
      assert CoherentTransfer(db.connections, db.queues, db.transfers[id]);
    }
    SparedTransfersSpareRuns(db, cut);
  }

  /** From any valid state, deleting a connection refuses or reaches no transfer and no run. */
  lemma DeleteConnectionDestroysNothing(db: Db, actor: int, id: int)
    requires Consistent(db)
    ensures DestroysNothing(db, AfterDeleteConnection(db, actor, id).0)
  {
    if AfterDeleteConnection(db, actor, id).1.Ok? {
      UnlinkedConnectionIsSpared(db, id);
    }
  }

  /** Some transfer that lives in another group uses the queue. */
  ghost predicate UsedFromOutside(db: Db, queue: int)
    requires queue in db.queues
  {
    exists t :: t in db.transfers && db.transfers[t].queue == queue && db.transfers[t].group != db.queues[queue].group
  }

  /** Deleting a queue: the guard is complete exactly when no transfer of another group uses the queue. */
  lemma DeleteQueueDestroysNothingIff(db: Db, actor: int, id: int)
    requires Consistent(db) && AfterDeleteQueue(db, actor, id).1.Ok?
    ensures DestroysNothing(db, AfterDeleteQueue(db, actor, id).0) <==> !UsedFromOutside(db, id)
  {
    var cut := db.(queues := db.queues - {id});
    if UsedFromOutside(db, id) {
      var lost :| lost in db.transfers && db.transfers[lost].queue == id &&
        db.transfers[lost].group != db.queues[id].group;
      assert lost !in Cascade(cut).transfers;
    } else {
      forall t | t in db.transfers
        ensures t in Cascade(cut).transfers
      {
        assert CoherentTransfer(db.connections, db.queues, db.transfers[t]);
      }
      SparedTransfersSpareRuns(db, cut);
    }
  }

  /** While transfers stay in their own groups the queue guard misses nothing. */
  lemma DeleteQueueIsGuarded(db: Db, actor: int, id: int)
    requires Consistent(db) && OwnGroups(db)
    ensures DestroysNothing(db, AfterDeleteQueue(db, actor, id).0)
  {
    if AfterDeleteQueue(db, actor, id).1.Ok? {
      forall t | t in db.transfers && db.transfers[t].queue == id
        ensures db.transfers[t].group == db.queues[id].group
      {
        assert CoherentTransfer(db.connections, db.queues, db.transfers[t]);
      }
      DeleteQueueDestroysNothingIff(db, actor, id);
    }
  }

  /**
   The family of failures: after an update that moved a transfer to another group's queue,
   a superuser deletes that queue; the guard finds no transfer of the queue's group and the
   cascade takes the transfer and its runs.
   */
  lemma DriftThenDeleteQueueDestroys(db: Db, actor: int, id: int, data: TransferData, admin: int)
    requires Consistent(db) && AfterUpdateTransfer(db, actor, id, data).1.Ok? && data.group != db.transfers[id].group
    requires IsSuperuser(db, admin)
    requires forall t | t in db.transfers && t != id :: db.transfers[t].queue != data.queue
    ensures var moved := AfterUpdateTransfer(db, actor, id, data).0;
            var (left, answer) := AfterDeleteQueue(moved, admin, data.queue);
            && Consistent(moved) && id in moved.transfers
            && answer == Ok(data.queue) && id !in left.transfers
            && forall run | run in moved.runs && moved.runs[run] == id :: run !in left.runs
  {
    DriftMakesAnOutsider(db, actor, id, data);
    OutsiderIsDestroyed(AfterUpdateTransfer(db, actor, id, data).0, id, admin);
  }

  /** A transfer of another group is all that uses its queue. */
  ghost predicate IsOnlyOutsider(db: Db, id: int) {
    && id in db.transfers && db.transfers[id].queue in db.queues
    && db.queues[db.transfers[id].queue].group != db.transfers[id].group
    && forall t | t in db.transfers && t != id :: db.transfers[t].queue != db.transfers[id].queue
  }

  lemma DriftMakesAnOutsider(db: Db, actor: int, id: int, data: TransferData)
    requires Consistent(db) && AfterUpdateTransfer(db, actor, id, data).1.Ok? && data.group != db.transfers[id].group
    requires forall t | t in db.transfers && t != id :: db.transfers[t].queue != data.queue
    ensures var moved := AfterUpdateTransfer(db, actor, id, data).0;
            Consistent(moved) && IsOnlyOutsider(moved, id) && moved.transfers[id].queue == data.queue &&
              moved.users == db.users
  {
    UpdateTransferKeepsConsistent(db, actor, id, data);
  }

  lemma OutsiderIsDestroyed(db: Db, id: int, admin: int)
    requires IsOnlyOutsider(db, id) && IsSuperuser(db, admin)
    ensures var (left, answer) := AfterDeleteQueue(db, admin, db.transfers[id].queue);
            && answer == Ok(db.transfers[id].queue) && id !in left.transfers
            && forall run | run in db.runs && db.runs[run] == id :: run !in left.runs
  {
    assert !QueueLooksUsed(db, db.transfers[id].queue);
  }

  /**
   Copying a connection and removing its source has no guard at all: it keeps the transfers
   exactly when none is linked.
   */
  lemma MovingConnectionDestroysNothingIff(db: Db, actor: int, id: int, newGroup: int, newName: Option<string>)
    requires Consistent(db) && AfterCopyConnection(db, actor, id, newGroup, newName, true).1.Ok?
    ensures DestroysNothing(db, AfterCopyConnection(db, actor, id, newGroup, newName, true).0) <==>
            !ConnectionInUse(db, id)
  {
    var copied := CopiedConnection(db, id, newGroup, newName).0;
    if ConnectionInUse(db, id) {
      var lost :| lost in db.transfers && (db.transfers[lost].source == id || db.transfers[lost].target == id);
      assert lost !in Cascade(copied.(connections := copied.connections - {id})).transfers;
    } else {
      CopiedConnectionKeepsConsistent(db, id, newGroup, newName);
      UnlinkedConnectionIsSpared(copied, id);
    }
  }

  // ---------------------------------------------------------------------------
  // Handing a group over
  // ---------------------------------------------------------------------------

  /** Everyone who can see the group by ownership or membership. */
  ghost function People(db: Db, group: int): set<int>
    requires group in db.groups
  {
    {db.groups[group].owner} + set m | m in db.members && m.group == group :: m.user
  }

  /**
   Handing over never meets a membership row of the previous owner, makes the previous owner
   a guest, loses nobody, and changes no other role or group.
   */
  lemma HandoverLosesNobody(db: Db, actor: int, group: int, name: string, owner: int)
    requires Consistent(db)
    ensures AfterUpdateGroup(db, actor, group, name, owner).1 != Err(AlreadyIsGroupMember)
    ensures AfterUpdateGroup(db, actor, group, name, owner).1.Ok? ==>
              var t := AfterUpdateGroup(db, actor, group, name, owner).0; var previous := db.groups[group].owner;
              && People(t, group) == People(db, group) + {owner}
              && (owner != previous ==> Seat(group, previous) in t.members && t.members[Seat(group, previous)] == Guest)
              && Seat(group, owner) !in t.members
              && forall m | m != Seat(group, previous) && m != Seat(group, owner) ::
                   (m in t.members <==> m in db.members) && (m in db.members ==> t.members[m] == db.members[m])
  {
    if AfterUpdateGroup(db, actor, group, name, owner).1.Ok? {
      var t, previous := AfterUpdateGroup(db, actor, group, name, owner).0, db.groups[group].owner;
      forall user
        ensures user in People(t, group) <==> user in People(db, group) + {owner}
      {
        assert user in People(db, group) <==> user == previous || Seat(group, user) in db.members;
        assert user in People(t, group) <==> user == owner || Seat(group, user) in t.members;
      }
    }
  }
}
