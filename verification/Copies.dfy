/** What becomes of copied connections and transfers: the copy of a connection has no auth data, and never gets any. */
module Copies {
  import opened Wrappers
  import opened Database
  import opened Operations
  import opened Credentials
  import opened Reachable

  predicate Uses(transfer: Transfer, connection: int) {
    transfer.source == connection || transfer.target == connection
  }

  // ---------------------------------------------------------------------------
  // A connection without auth data
  // ---------------------------------------------------------------------------

  lemma CopyConnectionGrowsIds(db: Db, actor: int, id: int, newGroup: int, newName: Option<string>, removeSource: bool)
    ensures db.nextId <= AfterCopyConnection(db, actor, id, newGroup, newName, removeSource).0.nextId
  {
  }

  lemma CopyTransferGrowsIds(db: Db, actor: int, id: int, copy: CopyData)
    ensures db.nextId <= AfterCopyTransfer(db, actor, id, copy).0.nextId
  {
    if AfterCopyTransfer(db, actor, id, copy).1.Ok? {
      CopiedEndsHaveNone(db, db.transfers[id], copy);
    }
  }

  lemma OthersGrowIds(db: Db, op: Op)
    requires !op.CopyConnection? && !op.CopyTransfer?
    ensures db.nextId <= Apply(db, op).nextId
  {
  }

  /** Identifiers are given out once. */
  lemma IdsGrow(db: Db, op: Op)
    ensures db.nextId <= Apply(db, op).nextId
  {
    if op.CopyConnection? {
      CopyConnectionGrowsIds(db, op.actor, op.connection, op.newGroup, op.newName, op.removeSource);
    } else if op.CopyTransfer? {
      CopyTransferGrowsIds(db, op.actor, op.transfer, op.copy);
    } else {
      OthersGrowIds(db, op);
    }
  }

  lemma ConnectionOpAddsNoneTo(db: Db, op: Op, c: int)
    requires (op.CreateConnection? || op.UpdateConnection?) && c !in db.credentials && c < db.nextId
    ensures c !in Apply(db, op).credentials
  {
  }

  lemma RequestAddsNone(db: Db, op: Op, c: int)
    requires c !in db.credentials && c < db.nextId
    ensures c !in Apply(db, op).credentials && c < Apply(db, op).nextId
  {
    IdsGrow(db, op);
    if op.CreateConnection? || op.UpdateConnection? {
      ConnectionOpAddsNoneTo(db, op, c);
    } else {
      OtherRequestsAddNoCredentials(db, op);
    }
  }

  lemma {:induction false} NoneEver(db: Db, ops: seq<Op>, c: int)
    requires ValidHistory(db, ops) && c !in db.credentials && c < db.nextId
    ensures c !in ApplyAll(db, ops).credentials
    decreases |ops|
  {
    if ops != [] {
      RequestAddsNone(db, ops[0], c);
      NoneEver(Apply(db, ops[0]), ops[1..], c);
    }
  }

  /**
   On request, with permission to write, and on schedule alike a run starts exactly when both
   connections have auth data.
   */
  lemma RunStartsIff(db: Db, actor: int, transfer: int)
    requires TransferPermission(db, actor, transfer) >= WRITE
    ensures transfer in db.transfers
    ensures AfterStartRun(db, actor, transfer).1.Ok? <==>
            db.transfers[transfer].source in db.credentials && db.transfers[transfer].target in db.credentials
    ensures AfterStartRun(db, actor, transfer).1.Err? ==>
            AfterStartRun(db, actor, transfer) == (db, Err(AuthDataNotFound))
    ensures AfterRunOnSchedule(db, transfer) == AfterStartRun(db, actor, transfer)
  {
  }

  /** No user and no job of the scheduler can start the transfer. */
  ghost predicate CannotStart(db: Db, x: int) {
    AfterRunOnSchedule(db, x).1.Err? && forall actor :: AfterStartRun(db, actor, x).1.Err?
  }

  /** Without auth data nobody updates the connection, and nothing starts a transfer that uses it. */
  lemma StuckWithout(db: Db, c: int)
    requires c !in db.credentials
    ensures forall actor, name, kind, auth :: AfterUpdateConnection(db, actor, c, name, kind, auth).1.Err?
    ensures forall x | x in db.transfers && Uses(db.transfers[x], c) :: CannotStart(db, x)
  {
  }

  /**
   Once without auth data a connection stays so through every history: no update of it ever
   succeeds, and no transfer that uses it ever starts.
   */
  lemma ConnectionWithoutCredentialsIsStuck(db: Db, ops: seq<Op>, c: int)
    requires Valid(db) && ValidHistory(db, ops) && c in db.connections && c !in db.credentials
    ensures var t := ApplyAll(db, ops);
            && c !in t.credentials
            && (forall actor, name, kind, auth :: AfterUpdateConnection(t, actor, c, name, kind, auth).1.Err?)
            && (forall x | x in t.transfers && Uses(t.transfers[x], c) :: CannotStart(t, x))
  {
    NoneEver(db, ops, c);
    StuckWithout(ApplyAll(db, ops), c);
  }

  // ---------------------------------------------------------------------------
  // Without copying, every connection has auth data
  // ---------------------------------------------------------------------------

  ghost predicate AllHaveCredentials(db: Db) {
    forall id | id in db.connections :: id in db.credentials
  }

  predicate IsCopy(op: Op) {
    op.CopyConnection? || op.CopyTransfer?
  }

  lemma ConnectionRequestKeepsAll(db: Db, op: Op)
    requires AllHaveCredentials(db) && (op.CreateConnection? || op.UpdateConnection?)
    ensures AllHaveCredentials(Apply(db, op))
  {
  }

  lemma DeletionKeepsAll(db: Db, op: Op)
    requires AllHaveCredentials(db) && IsDeletion(op)
    ensures AllHaveCredentials(Apply(db, op))
  {
  }

  lemma GroupRequestKeepsAll(db: Db, op: Op)
    requires AllHaveCredentials(db) && IsGroupOp(op)
    ensures AllHaveCredentials(Apply(db, op))
  {
    var t := Apply(db, op);
    assert t.connections == db.connections && t.credentials == db.credentials;
  }

  lemma OtherRequestKeepsAll(db: Db, op: Op)
    requires AllHaveCredentials(db)
    requires op.CreateQueue? || op.UpdateQueue? || op.StartRun? || op.RunOnSchedule?
    ensures AllHaveCredentials(Apply(db, op))
  {
    var t := Apply(db, op);
    assert t.connections == db.connections && t.credentials == db.credentials;
  }

  lemma TransferRequestKeepsAll(db: Db, op: Op)
    requires AllHaveCredentials(db) && (op.CreateTransfer? || op.UpdateTransfer?)
    ensures AllHaveCredentials(Apply(db, op))
  {
    var t := Apply(db, op);
    assert t.connections == db.connections && t.credentials == db.credentials;
  }

  lemma {:induction false} AllKeepCredentials(db: Db, ops: seq<Op>)
    requires ValidHistory(db, ops) && AllHaveCredentials(db)
    requires forall i | 0 <= i < |ops| :: !IsCopy(ops[i])
    ensures AllHaveCredentials(ApplyAll(db, ops))
    decreases |ops|
  {
    if ops != [] {
      if ops[0].CreateConnection? || ops[0].UpdateConnection? {
        ConnectionRequestKeepsAll(db, ops[0]);
      } else if IsDeletion(ops[0]) {
        DeletionKeepsAll(db, ops[0]);
      } else if IsGroupOp(ops[0]) {
        GroupRequestKeepsAll(db, ops[0]);
      } else if ops[0].CreateTransfer? || ops[0].UpdateTransfer? {
        TransferRequestKeepsAll(db, ops[0]);
      } else {
        OtherRequestKeepsAll(db, ops[0]);
      }
      AllKeepCredentials(Apply(db, ops[0]), ops[1..]);
    }
  }

  /**
   From an empty database, after any requests but copies: every connection has complete auth
   data, and every transfer starts on schedule and for everyone who may write it.
   */
  lemma WithoutCopiesEverythingStarts(firstId: int, ops: seq<Op>, x: int, actor: int)
    requires ValidHistory(EmptyDb(firstId), ops) && forall i | 0 <= i < |ops| :: !IsCopy(ops[i])
    ensures var t := ApplyAll(EmptyDb(firstId), ops);
            && (forall c | c in t.connections :: c in t.credentials && HasSecrets(t.credentials[c]))
            && (x in t.transfers ==> AfterRunOnSchedule(t, x).1.Ok?)
            && (x in t.transfers && TransferPermission(t, actor, x) >= WRITE ==> AfterStartRun(t, actor, x).1.Ok?)
  {
    var t := ApplyAll(EmptyDb(firstId), ops);
    AllKeepCredentials(EmptyDb(firstId), ops);
    ReachableIsValid(firstId, ops);
    if x in t.transfers {
      assert CoherentTransfer(t.connections, t.queues, t.transfers[x]);
    }
  }

  // ---------------------------------------------------------------------------
  // Copies
  // ---------------------------------------------------------------------------

  /** Both copy endpoints leave the new connections without auth data. */
  lemma CopiedConnectionHasNone(db: Db, actor: int, id: int, newGroup: int, newName: Option<string>, removeSource: bool)
    requires Consistent(db) && AfterCopyConnection(db, actor, id, newGroup, newName, removeSource).1.Ok?
    ensures var (t, answer) := AfterCopyConnection(db, actor, id, newGroup, newName, removeSource);
            answer.value in t.connections && answer.value !in t.credentials
  {
    assert id < db.nextId;
  }

  lemma CopiedConnectionFacts(db: Db, id: int, newGroup: int, newName: Option<string>)
    requires id in db.connections
    ensures var (t, answer) := CopiedConnection(db, id, newGroup, newName);
            && t.credentials == db.credentials && t.transfers == db.transfers && db.nextId <= t.nextId
            && (answer.Ok? ==> answer.value == db.nextId < t.nextId)
            && forall c | c in db.connections :: c in t.connections
  {
  }

  lemma CopiedEndsHaveNone(db: Db, transfer: Transfer, copy: CopyData)
    requires transfer.source in db.connections && transfer.target in db.connections
    ensures var (t, ends) := CopiedEndpoints(db, transfer, copy);
            && t.credentials == db.credentials && t.transfers == db.transfers && db.nextId <= t.nextId
            && (ends.Ok? ==> db.nextId <= ends.value.0 < t.nextId && db.nextId <= ends.value.1 < t.nextId)
  {
    CopiedConnectionFacts(db, transfer.source, copy.newGroup, copy.newSourceName);
    var one := CopiedConnection(db, transfer.source, copy.newGroup, copy.newSourceName).0;
    CopiedConnectionFacts(one, transfer.target, copy.newGroup, copy.newTargetName);
  }

  /** Connections that have been given out and have no auth data. */
  predicate IsBare(db: Db, bare: set<int>) {
    forall c | c in bare :: c < db.nextId && c !in db.credentials
  }

  /** Neither connection of the transfer has auth data. */
  predicate HasBareEnds(db: Db, x: int) {
    x in db.transfers && IsBare(db, {db.transfers[x].source, db.transfers[x].target})
  }

  lemma NewRowHasBareEnds(copied: Db, moved: Transfer, id: int, removed: bool)
    requires Consistent(copied) && CoherentTransfer(copied.connections, copied.queues, moved) &&
             moved.group in copied.groups
    requires IsBare(copied, {moved.source, moved.target}) && id in copied.transfers
    ensures var added := Added(copied, moved);
            HasBareEnds(if removed then Cascade(added.(transfers := added.transfers - {id})) else added, copied.nextId)
  {
    var added := Added(copied, moved);
    if removed {
      var t := Cascade(added.(transfers := added.transfers - {id}));
      assert copied.nextId in t.transfers && t.transfers[copied.nextId] == moved;
    }
  }

  /** A copied transfer is there, and neither of its connections has auth data. */
  lemma CopiedTransferHasNone(db: Db, actor: int, id: int, copy: CopyData)
    requires Consistent(db) && AfterCopyTransfer(db, actor, id, copy).1.Ok?
    ensures var (t, answer) := AfterCopyTransfer(db, actor, id, copy); HasBareEnds(t, answer.value)
  {
    var copied, moved := CopyTransferUnfolds(db, actor, id, copy);
    NewRowHasBareEnds(copied, moved, id, copy.removeSource);
  }

  // ---------------------------------------------------------------------------
  // A transfer that uses such a connection
  // ---------------------------------------------------------------------------

  /** An update that leaves the transfer with none of these connections. */
  predicate PointsElsewhere(op: Op, x: int, bare: set<int>) {
    op.UpdateTransfer? && op.transfer == x && op.data.source !in bare && op.data.target !in bare
  }

  predicate GoneOrUses(db: Db, x: int, bare: set<int>) {
    x in db.transfers ==> db.transfers[x].source in bare || db.transfers[x].target in bare
  }

  lemma TransferOpKeepsUse(db: Db, op: Op, x: int, bare: set<int>)
    requires (op.CreateTransfer? || op.UpdateTransfer?) && x < db.nextId && GoneOrUses(db, x, bare) &&
             !PointsElsewhere(op, x, bare)
    ensures GoneOrUses(Apply(db, op), x, bare)
  {
  }

  lemma CopyTransferKeepsUse(db: Db, actor: int, id: int, copy: CopyData, x: int, bare: set<int>)
    requires Consistent(db) && x < db.nextId && GoneOrUses(db, x, bare)
    ensures GoneOrUses(AfterCopyTransfer(db, actor, id, copy).0, x, bare)
  {
    if AfterCopyTransfer(db, actor, id, copy).1.Ok? {
      assert CoherentTransfer(db.connections, db.queues, db.transfers[id]);
      CopiedEndsHaveNone(db, db.transfers[id], copy);
    }
  }

  lemma RequestKeepsUse(db: Db, op: Op, x: int, bare: set<int>)
    requires Consistent(db) && WellFormed(db, op) && x < db.nextId && GoneOrUses(db, x, bare) &&
             !PointsElsewhere(op, x, bare)
    ensures GoneOrUses(Apply(db, op), x, bare)
  {
    if IsGroupOp(op) {
      GroupOpKeepsResources(db, op);
    } else if IsDeletion(op) {
      DeletionKeepsConsistent(db, op);
    } else if IsRowOp(op) {
      RowOpDisturbsNothing(db, op);
    } else if op.CopyConnection? {
      CopyConnectionKeepsConsistent(db, op.actor, op.connection, op.newGroup, op.newName, op.removeSource);
    } else if op.CopyTransfer? {
      CopyTransferKeepsUse(db, op.actor, op.transfer, op.copy, x, bare);
    } else {
      TransferOpKeepsUse(db, op, x, bare);
    }
  }

  /**
   A transfer with a connection that has no auth data never starts, on schedule or whoever asks,
   and whatever else happens, as long as no update points it away from all such connections.
   */
  lemma {:induction false} NeverStarts(db: Db, ops: seq<Op>, x: int, bare: set<int>)
    requires Valid(db) && ValidHistory(db, ops) && x < db.nextId && GoneOrUses(db, x, bare) && IsBare(db, bare)
    requires forall i | 0 <= i < |ops| :: !PointsElsewhere(ops[i], x, bare)
    ensures CannotStart(ApplyAll(db, ops), x)
    decreases |ops|
  {
    if ops != [] {
      RequestKeepsValid(db, ops[0]);
      RequestKeepsUse(db, ops[0], x, bare);
      IdsGrow(db, ops[0]);
      forall c | c in bare
        ensures c !in Apply(db, ops[0]).credentials
      {
        RequestAddsNone(db, ops[0], c);
      }
      NeverStarts(Apply(db, ops[0]), ops[1..], x, bare);
    }
  }

  /** So a fresh copy of a transfer never starts until an update points it away from both of its copied connections. */
  lemma FreshCopyNeverStarts(db: Db, x: int, ops: seq<Op>)
    requires Valid(db) && HasBareEnds(db, x) && ValidHistory(db, ops)
    requires forall i | 0 <= i < |ops| :: !PointsElsewhere(ops[i], x, {db.transfers[x].source, db.transfers[x].target})
    ensures CannotStart(ApplyAll(db, ops), x)
  {
    NeverStarts(db, ops, x, {db.transfers[x].source, db.transfers[x].target});
  }
}
