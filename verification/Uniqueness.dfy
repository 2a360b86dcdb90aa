/** The unique constraints of the database: what the endpoints check before they write is enough to keep them. */
module Uniqueness {
  import opened Wrappers
  import opened Database
  import opened Operations

  lemma CascadeKeepsUnique(db: Db)
    requires Unique(db)
    ensures Unique(Cascade(db))
  {
  }

  lemma CutKeepsUnique(db: Db, cut: Db)
    requires Unique(db)
    requires forall id | id in cut.groups :: id in db.groups && cut.groups[id] == db.groups[id]
    requires forall id | id in cut.connections :: id in db.connections && cut.connections[id] == db.connections[id]
    requires forall id | id in cut.queues :: id in db.queues && cut.queues[id] == db.queues[id]
    requires forall id | id in cut.transfers :: id in db.transfers && cut.transfers[id] == db.transfers[id]
    ensures Unique(Cascade(cut))
  {
    CascadeKeepsUnique(cut);
  }

  lemma DeleteGroupKeepsUnique(db: Db, actor: int, group: int)
    requires Unique(db)
    ensures Unique(AfterDeleteGroup(db, actor, group).0)
  {
    CutKeepsUnique(db, db.(groups := db.groups - {group}));
  }

  lemma DeleteConnectionKeepsUnique(db: Db, actor: int, id: int)
    requires Unique(db)
    ensures Unique(AfterDeleteConnection(db, actor, id).0)
  {
    CutKeepsUnique(db, db.(connections := db.connections - {id}));
  }

  lemma DeleteQueueKeepsUnique(db: Db, actor: int, id: int)
    requires Unique(db)
    ensures Unique(AfterDeleteQueue(db, actor, id).0)
  {
    CutKeepsUnique(db, db.(queues := db.queues - {id}));
  }

  lemma DeleteTransferKeepsUnique(db: Db, actor: int, id: int)
    requires Unique(db)
    ensures Unique(AfterDeleteTransfer(db, actor, id).0)
  {
    CutKeepsUnique(db, db.(transfers := db.transfers - {id}));
  }

  lemma DeletionKeepsUnique(db: Db, op: Op)
    requires Unique(db) && (op.DeleteGroup? || op.DeleteConnection? || op.DeleteQueue? || op.DeleteTransfer?)
    ensures Unique(Apply(db, op))
  {
    if op.DeleteGroup? {
      DeleteGroupKeepsUnique(db, op.actor, op.group);
    } else if op.DeleteConnection? {
      DeleteConnectionKeepsUnique(db, op.actor, op.connection);
    } else if op.DeleteQueue? {
      DeleteQueueKeepsUnique(db, op.actor, op.queue);
    } else {
      DeleteTransferKeepsUnique(db, op.actor, op.transfer);
    }
  }

  lemma PutGroup(db: Db, id: int, group: Group)
    requires DistinctGroupNames(db.groups) && !GroupNameTaken(db, group.name, Some(id))
    ensures DistinctGroupNames(db.groups[id := group])
  {
  }

  lemma PutConnection(db: Db, id: int, connection: Connection)
    requires DistinctConnectionNames(db.connections) &&
             !ConnectionNameTaken(db, connection.group, connection.name, Some(id))
    ensures DistinctConnectionNames(db.connections[id := connection])
  {
  }

  lemma PutTransfer(db: Db, id: int, transfer: Transfer)
    requires DistinctTransferNames(db.transfers) && !TransferNameTaken(db, transfer.group, transfer.name, Some(id))
    ensures DistinctTransferNames(db.transfers[id := transfer])
  {
  }

  lemma GroupOpKeepsUnique(db: Db, op: Op)
    requires Unique(db) && (op.CreateGroup? || op.UpdateGroup?)
    ensures Unique(Apply(db, op))
  {
    if After(db, op).1.Ok? {
      if op.CreateGroup? {
        PutGroup(db, db.nextId, Group(op.name, op.actor));
      } else {
        PutGroup(db, op.group, Group(op.name, op.owner));
      }
    }
  }

  lemma CreateConnectionKeepsUnique(db: Db, actor: int, group: int, name: string, kind: string, auth: AuthData)
    requires Unique(db)
    ensures Unique(AfterCreateConnection(db, actor, group, name, kind, auth).0)
  {
    if AfterCreateConnection(db, actor, group, name, kind, auth).1.Ok? {
      PutConnection(db, db.nextId, Connection(group, name, kind));
    }
  }

  lemma UpdateConnectionKeepsUnique(db: Db, actor: int, id: int, name: string, kind: string, auth: AuthRequest)
    requires Unique(db)
    ensures Unique(AfterUpdateConnection(db, actor, id, name, kind, auth).0)
  {
    if AfterUpdateConnection(db, actor, id, name, kind, auth).1.Ok? {
      PutConnection(db, id, db.connections[id].(name := name, kind := kind));
    }
  }

  lemma CopiedConnectionKeepsUnique(db: Db, id: int, newGroup: int, newName: Option<string>)
    requires Unique(db) && id in db.connections
    ensures Unique(CopiedConnection(db, id, newGroup, newName).0)
  {
    if CopiedConnection(db, id, newGroup, newName).1.Ok? {
      PutConnection(db, db.nextId,
        db.connections[id].(group := newGroup, name := NameOr(newName, db.connections[id].name)));
    }
  }

  lemma CopyConnectionKeepsUnique(db: Db, actor: int, id: int, newGroup: int, newName: Option<string>,
      removeSource: bool)
    requires Unique(db)
    ensures Unique(AfterCopyConnection(db, actor, id, newGroup, newName, removeSource).0)
  {
    if AfterCopyConnection(db, actor, id, newGroup, newName, removeSource).1.Ok? {
      CopiedConnectionKeepsUnique(db, id, newGroup, newName);
      if removeSource {
        var copied := CopiedConnection(db, id, newGroup, newName).0;
        CutKeepsUnique(copied, copied.(connections := copied.connections - {id}));
      }
    }
  }

  lemma QueueOpKeepsUnique(db: Db, op: Op)
    requires Unique(db) && (op.CreateQueue? || op.UpdateQueue?)
    ensures Unique(Apply(db, op))
  {
  }

  lemma TransferOpKeepsUnique(db: Db, op: Op)
    requires Unique(db) && (op.CreateTransfer? || op.UpdateTransfer?)
    ensures Unique(Apply(db, op))
  {
    if After(db, op).1.Ok? {
      if op.CreateTransfer? {
        PutTransfer(db, db.nextId, NewTransfer(op.data));
      } else {
        PutTransfer(db, op.transfer, NewTransfer(op.data).(group := db.transfers[op.transfer].group));
      }
    }
  }

  lemma CopiedEndpointsKeepUnique(db: Db, transfer: Transfer, copy: CopyData)
    requires Unique(db) && transfer.source in db.connections && transfer.target in db.connections
    ensures Unique(CopiedEndpoints(db, transfer, copy).0)
    ensures CopiedEndpoints(db, transfer, copy).0.transfers == db.transfers
  {
    CopiedConnectionKeepsUnique(db, transfer.source, copy.newGroup, copy.newSourceName);
    var (one, source) := CopiedConnection(db, transfer.source, copy.newGroup, copy.newSourceName);
    if source.Ok? && transfer.source != transfer.target {
      CopiedConnectionKeepsUnique(one, transfer.target, copy.newGroup, copy.newTargetName);
    }
  }

  lemma CopyTransferKeepsUnique(db: Db, actor: int, id: int, copy: CopyData)
    requires Unique(db)
    ensures Unique(AfterCopyTransfer(db, actor, id, copy).0)
  {
    if AfterCopyTransfer(db, actor, id, copy).1.Ok? {
      CopiedEndpointsKeepUnique(db, db.transfers[id], copy);
      var (copied, ends) := CopiedEndpoints(db, db.transfers[id], copy);
      var moved := Moved(db.transfers[id], copy, ends.value);
      PutTransfer(copied, copied.nextId, moved);
      if copy.removeSource {
        var added := Added(copied, moved);
        CutKeepsUnique(added, added.(transfers := added.transfers - {id}));
      }
    }
  }

  /**
   No request ever gives two groups one name, two connections or transfers of a group one name,
   or two queues one slug.
   */
  lemma RequestKeepsUnique(db: Db, op: Op)
    requires Unique(db)
    ensures Unique(Apply(db, op))
  {
    if op.CreateGroup? || op.UpdateGroup? {
      GroupOpKeepsUnique(db, op);
    } else if op.DeleteGroup? || op.DeleteConnection? || op.DeleteQueue? || op.DeleteTransfer? {
      DeletionKeepsUnique(db, op);
    } else if op.CreateConnection? {
      CreateConnectionKeepsUnique(db, op.actor, op.group, op.name, op.kind, op.auth);
    } else if op.UpdateConnection? {
      UpdateConnectionKeepsUnique(db, op.actor, op.connection, op.name, op.kind, op.request);
    } else if op.CopyConnection? {
      CopyConnectionKeepsUnique(db, op.actor, op.connection, op.newGroup, op.newName, op.removeSource);
    } else if op.CreateQueue? || op.UpdateQueue? {
      QueueOpKeepsUnique(db, op);
    } else if op.CreateTransfer? || op.UpdateTransfer? {
      TransferOpKeepsUnique(db, op);
    } else if op.CopyTransfer? {
      CopyTransferKeepsUnique(db, op.actor, op.transfer, op.copy);
    }
  }
}
