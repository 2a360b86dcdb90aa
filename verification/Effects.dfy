/**
 What a request that succeeds does to the rows: which one is there and with what, which are gone,
 and that all others stay.
 */
module Effects {
  import opened Collections
  import opened Database
  import opened Operations
  import opened Reachable
  import opened Wrappers

  datatype TableName = Users | Groups | Members | Connections | Credentials | Queues | Transfers | Runs

  /** All tables but these are as they were. */
  ghost predicate Untouched(db: Db, t: Db, touched: set<TableName>) {
    && (Users !in touched ==> t.users == db.users)
    && (Groups !in touched ==> t.groups == db.groups)
    && (Members !in touched ==> t.members == db.members)
    && (Connections !in touched ==> t.connections == db.connections)
    && (Credentials !in touched ==> t.credentials == db.credentials)
    && (Queues !in touched ==> t.queues == db.queues)
    && (Transfers !in touched ==> t.transfers == db.transfers)
    && (Runs !in touched ==> t.runs == db.runs)
  }

  predicate SameRow<K, V(==)>(before: map<K, V>, after: map<K, V>, key: K) {
    (key in after <==> key in before) && (key in before ==> after[key] == before[key])
  }

  /** The row is there, and no other has changed. */
  ghost predicate Puts<K(!new), V>(before: map<K, V>, after: map<K, V>, key: K, row: V) {
    key in after && after[key] == row && forall other | other != key :: SameRow(before, after, other)
  }

  ghost predicate Adds<K(!new), V>(before: map<K, V>, after: map<K, V>, key: K, row: V) {
    key !in before && Puts(before, after, key, row)
  }

  ghost predicate Changes<K(!new), V>(before: map<K, V>, after: map<K, V>, key: K, row: V) {
    key in before && Puts(before, after, key, row)
  }

  ghost predicate Drops<K(!new), V>(before: map<K, V>, after: map<K, V>, key: K) {
    key in before && key !in after && forall other | other != key :: SameRow(before, after, other)
  }

  // ---------------------------------------------------------------------------
  // What goes with what
  // ---------------------------------------------------------------------------

  /** The runs of the transfers that are left, and no others. */
  ghost predicate RunsFollow(db: Db, t: Db) {
    forall id :: (id in t.runs <==> id in db.runs && db.runs[id] in t.transfers) &&
                 (id in t.runs ==> t.runs[id] == db.runs[id])
  }

  ghost predicate CredentialsFollow(db: Db, t: Db) {
    forall id :: (id in t.credentials <==> id in db.credentials && id in t.connections) &&
                 (id in t.credentials ==> t.credentials[id] == db.credentials[id])
  }

  predicate BelongsTo(db: Db, transfer: Transfer, group: int) {
    || transfer.group == group
    || (transfer.source in db.connections && db.connections[transfer.source].group == group)
    || (transfer.target in db.connections && db.connections[transfer.target].group == group)
    || (transfer.queue in db.queues && db.queues[transfer.queue].group == group)
  }

  /** With a group go its members, connections, queues, and every transfer that has to do with it. */
  ghost predicate GroupIsGone(db: Db, t: Db, group: int) {
    && Drops(db.groups, t.groups, group)
    && (forall m :: (m in t.members <==> m in db.members && m.group != group) &&
                    (m in t.members ==> t.members[m] == db.members[m]))
    && (forall id :: (id in t.connections <==> id in db.connections && db.connections[id].group != group) &&
                     (id in t.connections ==> t.connections[id] == db.connections[id]))
    && (forall id :: (id in t.queues <==> id in db.queues && db.queues[id].group != group) &&
                     (id in t.queues ==> t.queues[id] == db.queues[id]))
    && (forall id :: (id in t.transfers <==> id in db.transfers && !BelongsTo(db, db.transfers[id], group)) &&
                     (id in t.transfers ==> t.transfers[id] == db.transfers[id]))
    && CredentialsFollow(db, t) && RunsFollow(db, t)
  }

  predicate UsesConnection(transfer: Transfer, connection: int) {
    transfer.source == connection || transfer.target == connection
  }

  ghost predicate TransfersWithout(db: Db, t: Db, connection: int) {
    forall id :: (id in t.transfers <==> id in db.transfers && !UsesConnection(db.transfers[id], connection)) &&
                 (id in t.transfers ==> t.transfers[id] == db.transfers[id])
  }

  // ---------------------------------------------------------------------------
  // Groups and members
  // ---------------------------------------------------------------------------

  /** What the request asked for is done, and nothing else; `id` is the identifier it was answered with. */
  ghost predicate GroupEffect(db: Db, t: Db, op: Op, id: int) {
    match op
    case RegisterUser(isSuperuser) => Adds(db.users, t.users, id, User(isSuperuser)) && Untouched(db, t, {Users})
    case CreateGroup(actor, name) => Adds(db.groups, t.groups, id, Group(name, actor)) && Untouched(db, t, {Groups})
    case UpdateGroup(_, group, name, owner) =>
      && id == group && Changes(db.groups, t.groups, group, Group(name, owner)) && owner in db.users
      && Untouched(db, t, {Groups, Members}) && (db.groups[group].owner == owner ==> t.members == db.members)
    case DeleteGroup(_, group) => id == group && GroupIsGone(db, t, group) && t.users == db.users
    case AddMember(_, group, user, role) =>
      && id == user && user in db.users && group in db.groups && db.groups[group].owner != user
      && Adds(db.members, t.members, Seat(group, user), role) && Untouched(db, t, {Members})
    case UpdateMember(_, group, user, role) =>
      id == user && Changes(db.members, t.members, Seat(group, user), role) && Untouched(db, t, {Members})
    case RemoveMember(_, group, user) =>
      id == user && Drops(db.members, t.members, Seat(group, user)) && Untouched(db, t, {Members})
    case _ => true
  }

  lemma GroupRequestDoes(db: Db, op: Op)
    requires Consistent(db) && After(db, op).1.Ok? && (op.RegisterUser? || op.CreateGroup?)
    ensures GroupEffect(db, Apply(db, op), op, After(db, op).1.value)
  {
  }

  lemma UpdateGroupDoes(db: Db, actor: int, group: int, name: string, owner: int)
    requires AfterUpdateGroup(db, actor, group, name, owner).1.Ok?
    ensures var t := AfterUpdateGroup(db, actor, group, name, owner).0;
            && AfterUpdateGroup(db, actor, group, name, owner).1 == Ok(group)
            && Changes(db.groups, t.groups, group, Group(name, owner)) && owner in db.users
            && Untouched(db, t, {Groups, Members}) && (db.groups[group].owner == owner ==> t.members == db.members)
  {
  }

  lemma MemberRequestDoes(db: Db, op: Op)
    requires After(db, op).1.Ok? && (op.AddMember? || op.UpdateMember? || op.RemoveMember?)
    ensures GroupEffect(db, Apply(db, op), op, After(db, op).1.value)
  {
  }

  lemma DeleteGroupDoes(db: Db, actor: int, group: int)
    requires Consistent(db) && AfterDeleteGroup(db, actor, group).1.Ok?
    ensures GroupIsGone(db, AfterDeleteGroup(db, actor, group).0, group)
  {
    var t := AfterDeleteGroup(db, actor, group).0;
    forall id | id in db.transfers
      ensures id in t.transfers <==> !BelongsTo(db, db.transfers[id], group)
    {
      assert CoherentTransfer(db.connections, db.queues, db.transfers[id]);
    }
  }

  // ---------------------------------------------------------------------------
  // Connections
  // ---------------------------------------------------------------------------

  /** The request's secrets where it has them, the stored ones where it does not, of the request's type. */
  ghost predicate IsMergeOf(merged: AuthData, stored: AuthData, request: AuthRequest) {
    && merged.kind == request.kind && merged.fields == request.fields
    && forall field | field in SecretFields(request.kind) ::
         field in merged.secrets &&
         (if field in request.secrets then merged.secrets[field] == request.secrets[field]
          else stored.kind == request.kind && field in stored.secrets && merged.secrets[field] == stored.secrets[field])
  }

  ghost predicate ConnectionIsCreated(db: Db, t: Db, group: int, name: string, kind: string, auth: AuthData, id: int) {
    && Adds(db.connections, t.connections, id, Connection(group, name, kind)) && group in db.groups
    && Adds(db.credentials, t.credentials, id, auth) && Untouched(db, t, {Connections, Credentials})
  }

  ghost predicate ConnectionIsUpdated(db: Db, t: Db, id: int, name: string, kind: string, request: AuthRequest) {
    && id in db.connections && id in db.credentials && id in t.credentials
    && Changes(db.connections, t.connections, id, Connection(db.connections[id].group, name, kind))
    && Changes(db.credentials, t.credentials, id, t.credentials[id])
    && IsMergeOf(t.credentials[id], db.credentials[id], request) && Untouched(db, t, {Connections, Credentials})
  }

  ghost predicate ConnectionIsDeleted(db: Db, t: Db, id: int) {
    && Drops(db.connections, t.connections, id) && CredentialsFollow(db, t)
    && Untouched(db, t, {Connections, Credentials})
  }

  /** The copy has the origin's type and no credentials; with removal the origin goes, and whatever was linked to it. */
  ghost predicate ConnectionIsCopied(
      db: Db, t: Db, origin: int, group: int, newName: Option<string>, removeSource: bool, id: int) {
    && origin in db.connections && id !in db.connections && id in t.connections && group in db.groups
    && t.connections[id] == Connection(group, NameOr(newName, db.connections[origin].name), db.connections[origin].kind)
    && (origin in t.connections <==> !removeSource)
    && (forall other | other != id && (other != origin || !removeSource) ::
          SameRow(db.connections, t.connections, other))
    && CredentialsFollow(db, t) && RunsFollow(db, t)
    && (if removeSource then TransfersWithout(db, t, origin) else t.transfers == db.transfers)
    && Untouched(db, t, {Connections, Credentials, Transfers, Runs})
  }

  lemma CreateConnectionDoes(db: Db, actor: int, group: int, name: string, kind: string, auth: AuthData)
    requires Consistent(db) && AfterCreateConnection(db, actor, group, name, kind, auth).1.Ok?
    ensures var (t, answer) := AfterCreateConnection(db, actor, group, name, kind, auth);
            ConnectionIsCreated(db, t, group, name, kind, auth, answer.value)
  {
  }

  lemma UpdateConnectionDoes(db: Db, actor: int, id: int, name: string, kind: string, request: AuthRequest)
    requires AfterUpdateConnection(db, actor, id, name, kind, request).1.Ok?
    ensures AfterUpdateConnection(db, actor, id, name, kind, request).1 == Ok(id)
    ensures ConnectionIsUpdated(db, AfterUpdateConnection(db, actor, id, name, kind, request).0, id, name, kind,
                                request)
  {
  }

  /** A cascade that starts from other tables leaves members and queues alone. */
  lemma CascadeSparesGroups(cut: Db)
    requires forall m | m in cut.members :: m.group in cut.groups
    requires forall id | id in cut.queues :: cut.queues[id].group in cut.groups
    ensures Cascade(cut).members == cut.members && Cascade(cut).queues == cut.queues
  {
    var t := Cascade(cut);
    assert forall id | id in cut.queues :: id in t.queues;
    SameMap(t.members, cut.members);
    SameMap(t.queues, cut.queues);
  }

  lemma CascadeSparesConnections(cut: Db)
    requires forall id | id in cut.connections :: cut.connections[id].group in cut.groups
    requires forall id | id in cut.credentials :: id in cut.connections
    ensures Cascade(cut).connections == cut.connections && Cascade(cut).credentials == cut.credentials
  {
    var t := Cascade(cut);
    assert forall id | id in cut.connections :: id in t.connections;
    assert forall id | id in cut.credentials :: id in t.credentials;
    SameMap(t.connections, cut.connections);
    SameMap(t.credentials, cut.credentials);
  }

  lemma DeleteConnectionDoes(db: Db, actor: int, id: int)
    requires Consistent(db) && AfterDeleteConnection(db, actor, id).1.Ok?
    ensures AfterDeleteConnection(db, actor, id).1 == Ok(id)
    ensures ConnectionIsDeleted(db, AfterDeleteConnection(db, actor, id).0, id)
  {
    DeleteConnectionDestroysNothing(db, actor, id);
    CascadeSparesGroups(db.(connections := db.connections - {id}));
  }

  /** Which transfers stay when a connection goes. */
  lemma CascadeFollowsConnection(db: Db, cut: Db, id: int)
    requires Consistent(db) && cut.groups == db.groups && cut.queues == db.queues && cut.transfers == db.transfers
    requires cut.runs == db.runs && cut.credentials == db.credentials && cut.members == db.members
    requires forall c | c in db.connections && c != id ::
             c in cut.connections && cut.connections[c] == db.connections[c]
    requires id !in cut.connections && forall c | c in cut.connections :: cut.connections[c].group in db.groups
    ensures var t := Cascade(cut);
            && TransfersWithout(db, t, id) && RunsFollow(db, t)
            && (forall c :: SameRow(cut.connections, t.connections, c))
            && CredentialsFollow(db, t)
            && Untouched(db, t, {Users, Connections, Credentials, Transfers, Runs})
  {
    var t := Cascade(cut);
    CascadeSparesGroups(cut);
    forall x | x in db.transfers
      ensures x in t.transfers <==> !UsesConnection(db.transfers[x], id)
    {
      assert CoherentTransfer(db.connections, db.queues, db.transfers[x]);
    }
  }

  lemma CopyConnectionDoes(db: Db, actor: int, origin: int, group: int, newName: Option<string>, removeSource: bool)
    requires Consistent(db) && AfterCopyConnection(db, actor, origin, group, newName, removeSource).1.Ok?
    ensures var (t, answer) := AfterCopyConnection(db, actor, origin, group, newName, removeSource);
            ConnectionIsCopied(db, t, origin, group, newName, removeSource, answer.value)
  {
    var copied := CopiedConnection(db, origin, group, newName).0;
    if removeSource {
      CascadeFollowsConnection(db, copied.(connections := copied.connections - {origin}), origin);
    }
  }

  // ---------------------------------------------------------------------------
  // Queues
  // ---------------------------------------------------------------------------

  ghost predicate QueueIsUpdated(db: Db, t: Db, id: int, name: string) {
    && id in db.queues && Untouched(db, t, {Queues})
    && Changes(db.queues, t.queues, id, Queue(db.queues[id].group, name, db.queues[id].slug))
  }

  /** With a queue go the transfers that use it, which its guard may have missed, and their runs. */
  ghost predicate QueueIsDeleted(db: Db, t: Db, id: int) {
    && Drops(db.queues, t.queues, id) && RunsFollow(db, t) && Untouched(db, t, {Queues, Transfers, Runs})
    && forall x :: (x in t.transfers <==> x in db.transfers && db.transfers[x].queue != id) &&
                   (x in t.transfers ==> t.transfers[x] == db.transfers[x])
  }

  lemma CreateQueueDoes(db: Db, actor: int, group: int, name: string, slug: string)
    requires Consistent(db) && AfterCreateQueue(db, actor, group, name, slug).1.Ok?
    ensures var (t, answer) := AfterCreateQueue(db, actor, group, name, slug);
            Adds(db.queues, t.queues, answer.value, Queue(group, name, slug)) && Untouched(db, t, {Queues})
  {
  }

  lemma UpdateQueueDoes(db: Db, actor: int, id: int, name: string)
    requires AfterUpdateQueue(db, actor, id, name).1.Ok?
    ensures AfterUpdateQueue(db, actor, id, name).1 == Ok(id)
    ensures QueueIsUpdated(db, AfterUpdateQueue(db, actor, id, name).0, id, name)
  {
  }

  lemma CascadeSparesMembers(cut: Db)
    requires forall m | m in cut.members :: m.group in cut.groups
    ensures Cascade(cut).members == cut.members
  {
    SameMap(Cascade(cut).members, cut.members);
  }

  lemma DeleteQueueDoes(db: Db, actor: int, id: int)
    requires Consistent(db) && AfterDeleteQueue(db, actor, id).1.Ok?
    ensures AfterDeleteQueue(db, actor, id).1 == Ok(id) && QueueIsDeleted(db, AfterDeleteQueue(db, actor, id).0, id)
  {
    var cut, t := db.(queues := db.queues - {id}), AfterDeleteQueue(db, actor, id).0;
    CascadeSparesGroups(cut);
    CascadeSparesConnections(cut);
    forall x | x in db.transfers
      ensures x in t.transfers <==> db.transfers[x].queue != id
    {
      assert CoherentTransfer(db.connections, db.queues, db.transfers[x]);
    }
  }

  // ---------------------------------------------------------------------------
  // Transfers and runs
  // ---------------------------------------------------------------------------

  /** The row that the request describes, in this group. */
  predicate Describes(data: TransferData, row: Transfer, group: int) {
    && row.group == group && row.name == data.name && row.source == data.source && row.target == data.target
    && row.queue == data.queue && row.sourceKind == data.sourceKind && row.targetKind == data.targetKind
    && row.settings == data.settings
  }

  ghost predicate TransferIsCreated(db: Db, t: Db, data: TransferData, id: int) {
    && id in t.transfers && Describes(data, t.transfers[id], data.group)
    && Adds(db.transfers, t.transfers, id, t.transfers[id]) && Untouched(db, t, {Transfers})
  }

  ghost predicate TransferIsUpdated(db: Db, t: Db, id: int, data: TransferData) {
    && id in db.transfers && id in t.transfers && Describes(data, t.transfers[id], db.transfers[id].group)
    && Changes(db.transfers, t.transfers, id, t.transfers[id]) && Untouched(db, t, {Transfers})
  }

  ghost predicate TransferIsDeleted(db: Db, t: Db, id: int) {
    && Drops(db.transfers, t.transfers, id) && RunsFollow(db, t) && Untouched(db, t, {Transfers, Runs})
  }

  /** A new connection that copies an old one into the group. */
  predicate IsEndCopy(db: Db, t: Db, origin: int, copy: int, group: int, newName: Option<string>) {
    && origin in db.connections && copy !in db.connections && copy in t.connections
    && t.connections[copy] ==
         Connection(group, NameOr(newName, db.connections[origin].name), db.connections[origin].kind)
  }

  /** The new row copies its origin, between copies of its connections; with removal the origin goes with its runs. */
  ghost predicate TransferIsCopied(db: Db, t: Db, origin: int, copy: CopyData, id: int) {
    && origin in db.transfers && id !in db.transfers && id in t.transfers
    && var from, row := db.transfers[origin], t.transfers[id];
       && row == from.(group := copy.newGroup, name := NameOr(copy.newName, from.name), queue := copy.newQueue,
                      source := row.source, target := row.target)
       && (row.source == row.target <==> from.source == from.target)
       && IsEndCopy(db, t, from.source, row.source, copy.newGroup, copy.newSourceName)
       && (from.source != from.target ==> IsEndCopy(db, t, from.target, row.target, copy.newGroup, copy.newTargetName))
       && (forall c | c != row.source && c != row.target :: SameRow(db.connections, t.connections, c))
       && (origin in t.transfers <==> !copy.removeSource)
       && (forall x | x != id && (x != origin || !copy.removeSource) :: SameRow(db.transfers, t.transfers, x))
       && RunsFollow(db, t) && Untouched(db, t, {Connections, Transfers, Runs})
  }

  lemma CreateTransferDoes(db: Db, actor: int, data: TransferData)
    requires Consistent(db) && AfterCreateTransfer(db, actor, data).1.Ok?
    ensures var (t, answer) := AfterCreateTransfer(db, actor, data); TransferIsCreated(db, t, data, answer.value)
  {
  }

  lemma UpdateTransferDoes(db: Db, actor: int, id: int, data: TransferData)
    requires AfterUpdateTransfer(db, actor, id, data).1.Ok?
    ensures AfterUpdateTransfer(db, actor, id, data).1 == Ok(id)
    ensures TransferIsUpdated(db, AfterUpdateTransfer(db, actor, id, data).0, id, data)
  {
  }

  /** When only transfers are cut, only their runs follow. */
  lemma CascadeOfTransfers(db: Db, transfers: map<int, Transfer>)
    requires Consistent(db) && transfers.Keys <= db.transfers.Keys
    requires forall id | id in transfers :: transfers[id] == db.transfers[id]
    ensures var t := Cascade(db.(transfers := transfers));
            t.transfers == transfers && RunsFollow(db, t) && Untouched(db, t, {Transfers, Runs})
  {
    var cut := db.(transfers := transfers);
    CascadeSparesGroups(cut);
    CascadeSparesConnections(cut);
    forall id | id in transfers
      ensures id in Cascade(cut).transfers
    {
      assert CoherentTransfer(db.connections, db.queues, db.transfers[id]);
    }
    SameMap(Cascade(cut).transfers, transfers);
  }

  lemma DeleteTransferDoes(db: Db, actor: int, id: int)
    requires Consistent(db) && AfterDeleteTransfer(db, actor, id).1.Ok?
    ensures AfterDeleteTransfer(db, actor, id).1 == Ok(id)
    ensures TransferIsDeleted(db, AfterDeleteTransfer(db, actor, id).0, id)
  {
    CascadeOfTransfers(db, db.transfers - {id});
  }

  lemma CopyOfConnectionIs(db: Db, id: int, group: int, newName: Option<string>)
    requires Allocated(db) && id in db.connections && CopiedConnection(db, id, group, newName).1.Ok?
    ensures var (t, answer) := CopiedConnection(db, id, group, newName);
            && IsEndCopy(db, t, id, answer.value, group, newName) && Untouched(db, t, {Connections})
            && (forall c | c != answer.value :: SameRow(db.connections, t.connections, c))
            && answer.value == db.nextId < t.nextId && Allocated(t)
  {
  }

  /** The two ends of a copied transfer. */
  ghost predicate EndsAreCopied(db: Db, t: Db, origin: Transfer, copy: CopyData, ends: (int, int)) {
    && (ends.0 == ends.1 <==> origin.source == origin.target)
    && IsEndCopy(db, t, origin.source, ends.0, copy.newGroup, copy.newSourceName)
    && (origin.source != origin.target ==> IsEndCopy(db, t, origin.target, ends.1, copy.newGroup, copy.newTargetName))
    && (forall c | c != ends.0 && c != ends.1 :: SameRow(db.connections, t.connections, c))
    && Untouched(db, t, {Connections})
  }

  lemma EndsAreCopiedOnce(db: Db, origin: Transfer, copy: CopyData)
    requires Allocated(db) && origin.source in db.connections && origin.target in db.connections
    requires CopiedEndpoints(db, origin, copy).1.Ok?
    ensures EndsAreCopied(db, CopiedEndpoints(db, origin, copy).0, origin, copy,
                          CopiedEndpoints(db, origin, copy).1.value)
  {
    CopyOfConnectionIs(db, origin.source, copy.newGroup, copy.newSourceName);
    if origin.source != origin.target {
      var one := CopiedConnection(db, origin.source, copy.newGroup, copy.newSourceName).0;
      CopyOfConnectionIs(one, origin.target, copy.newGroup, copy.newTargetName);
    }
  }

  /** A row more, and with removal one row less and its runs. */
  ghost predicate RowIsMoved(db: Db, t: Db, origin: int, id: int, row: Transfer, removeSource: bool) {
    && id !in db.transfers && id in t.transfers && t.transfers[id] == row
    && (origin in t.transfers <==> !removeSource)
    && (forall x | x != id && (x != origin || !removeSource) :: SameRow(db.transfers, t.transfers, x))
    && RunsFollow(db, t) && Untouched(db, t, {Transfers, Runs})
  }

  lemma AddedRowIsThere(db: Db, origin: int, row: Transfer)
    requires Allocated(db) && Referential(db) && origin in db.transfers
    ensures RowIsMoved(db, Added(db, row), origin, db.nextId, row, false)
  {
  }

  lemma RemovedRowIsGone(db: Db, origin: int, row: Transfer)
    requires Consistent(db) && CoherentTransfer(db.connections, db.queues, row) && row.group in db.groups
    requires origin in db.transfers
    ensures var added := Added(db, row);
            RowIsMoved(db, Cascade(added.(transfers := added.transfers - {origin})), origin, db.nextId, row, true)
  {
    var added := Added(db, row);
    PutTransferKeepsConsistent(db, db.nextId, row);
    assert added == db.(transfers := db.transfers[db.nextId := row], nextId := db.nextId + 1);
    CascadeOfTransfers(added, added.transfers - {origin});
  }

  lemma BothMakeCopy(db: Db, copied: Db, t: Db, origin: int, copy: CopyData, ends: (int, int), id: int)
    requires origin in db.transfers && EndsAreCopied(db, copied, db.transfers[origin], copy, ends)
    requires RowIsMoved(copied, t, origin, id, Moved(db.transfers[origin], copy, ends), copy.removeSource)
    ensures TransferIsCopied(db, t, origin, copy, id)
  {
  }

  lemma CopyTransferDoes(db: Db, actor: int, origin: int, copy: CopyData)
    requires Consistent(db) && AfterCopyTransfer(db, actor, origin, copy).1.Ok?
    ensures var (t, answer) := AfterCopyTransfer(db, actor, origin, copy);
            TransferIsCopied(db, t, origin, copy, answer.value)
  {
    var t, from := AfterCopyTransfer(db, actor, origin, copy).0, db.transfers[origin];
    assert CoherentTransfer(db.connections, db.queues, from);
    var (copied, ends) := CopiedEndpoints(db, from, copy);
    CopiedEndpointsAreCoherent(db, from, copy);
    EndsAreCopiedOnce(db, from, copy);
    if copy.removeSource {
      RemovedRowIsGone(copied, origin, Moved(from, copy, ends.value));
    } else {
      AddedRowIsThere(copied, origin, Moved(from, copy, ends.value));
    }
    BothMakeCopy(db, copied, t, origin, copy, ends.value, copied.nextId);
  }

  lemma NewRunDoes(db: Db, transfer: int)
    requires Consistent(db) && transfer in db.transfers && WithNewRun(db, transfer).1.Ok?
    ensures var (t, answer) := WithNewRun(db, transfer);
            Adds(db.runs, t.runs, answer.value, transfer) && Untouched(db, t, {Runs})
  {
  }

  // ---------------------------------------------------------------------------
  // Any request
  // ---------------------------------------------------------------------------

  ghost predicate ResourceEffect(db: Db, t: Db, op: Op, id: int) {
    match op
    case CreateConnection(_, group, name, kind, auth) => ConnectionIsCreated(db, t, group, name, kind, auth, id)
    case UpdateConnection(_, connection, name, kind, request) =>
      id == connection && ConnectionIsUpdated(db, t, id, name, kind, request)
    case DeleteConnection(_, connection) => id == connection && ConnectionIsDeleted(db, t, id)
    case CopyConnection(_, origin, group, newName, removeSource) =>
      ConnectionIsCopied(db, t, origin, group, newName, removeSource, id)
    case CreateQueue(_, group, name, slug) =>
      Adds(db.queues, t.queues, id, Queue(group, name, slug)) && Untouched(db, t, {Queues})
    case UpdateQueue(_, queue, name) => id == queue && QueueIsUpdated(db, t, id, name)
    case DeleteQueue(_, queue) => id == queue && QueueIsDeleted(db, t, id)
    case CreateTransfer(_, data) => TransferIsCreated(db, t, data, id)
    case UpdateTransfer(_, transfer, data) => id == transfer && TransferIsUpdated(db, t, id, data)
    case CopyTransfer(_, origin, copy) => TransferIsCopied(db, t, origin, copy, id)
    case DeleteTransfer(_, transfer) => id == transfer && TransferIsDeleted(db, t, id)
    case StartRun(_, transfer) => Adds(db.runs, t.runs, id, transfer) && Untouched(db, t, {Runs})
    case RunOnSchedule(transfer) => Adds(db.runs, t.runs, id, transfer) && Untouched(db, t, {Runs})
    case _ => true
  }

  lemma ConnectionRequestDoes(db: Db, op: Op)
    requires Consistent(db) && After(db, op).1.Ok?
    requires op.CreateConnection? || op.UpdateConnection? || op.DeleteConnection? || op.CopyConnection?
    ensures ResourceEffect(db, Apply(db, op), op, After(db, op).1.value)
  {
    match op
    case CreateConnection(actor, group, name, kind, auth) =>
      CreateConnectionDoes(db, actor, group, name, kind, auth);
    case UpdateConnection(actor, id, name, kind, request) =>
      UpdateConnectionDoes(db, actor, id, name, kind, request);
    case DeleteConnection(actor, id) =>
      DeleteConnectionDoes(db, actor, id);
    case CopyConnection(actor, origin, group, newName, removeSource) =>
      CopyConnectionDoes(db, actor, origin, group, newName, removeSource);
  }

  lemma QueueRequestDoes(db: Db, op: Op)
    requires Consistent(db) && After(db, op).1.Ok? && (op.CreateQueue? || op.UpdateQueue? || op.DeleteQueue?)
    ensures ResourceEffect(db, Apply(db, op), op, After(db, op).1.value)
  {
    match op
    case CreateQueue(actor, group, name, slug) =>
      CreateQueueDoes(db, actor, group, name, slug);
    case UpdateQueue(actor, id, name) =>
      UpdateQueueDoes(db, actor, id, name);
    case DeleteQueue(actor, id) =>
      DeleteQueueDoes(db, actor, id);
  }

  lemma TransferRequestDoes(db: Db, op: Op)
    requires Consistent(db) && After(db, op).1.Ok?
    requires op.CreateTransfer? || op.UpdateTransfer? || op.CopyTransfer? || op.DeleteTransfer?
    ensures ResourceEffect(db, Apply(db, op), op, After(db, op).1.value)
  {
    match op
    case CreateTransfer(actor, data) =>
      CreateTransferDoes(db, actor, data);
    case UpdateTransfer(actor, id, data) =>
      UpdateTransferDoes(db, actor, id, data);
    case CopyTransfer(actor, id, copy) =>
      CopyTransferDoes(db, actor, id, copy);
    case DeleteTransfer(actor, id) =>
      DeleteTransferDoes(db, actor, id);
  }

  /** Whatever succeeds has done what was asked, to the rows it names, and nothing to any other. */
  lemma SuccessMeansEffect(db: Db, op: Op)
    requires Consistent(db) && After(db, op).1.Ok?
    ensures GroupEffect(db, Apply(db, op), op, After(db, op).1.value)
    ensures ResourceEffect(db, Apply(db, op), op, After(db, op).1.value)
  {
    if op.RegisterUser? || op.CreateGroup? {
      GroupRequestDoes(db, op);
    } else if op.UpdateGroup? {
      UpdateGroupDoes(db, op.actor, op.group, op.name, op.owner);
    } else if op.DeleteGroup? {
      DeleteGroupDoes(db, op.actor, op.group);
    } else if op.AddMember? || op.UpdateMember? || op.RemoveMember? {
      MemberRequestDoes(db, op);
    } else if op.CreateConnection? || op.UpdateConnection? || op.DeleteConnection? || op.CopyConnection? {
      ConnectionRequestDoes(db, op);
    } else if op.CreateQueue? || op.UpdateQueue? || op.DeleteQueue? {
      QueueRequestDoes(db, op);
    } else if op.StartRun? || op.RunOnSchedule? {
      NewRunDoes(db, op.transfer);
    } else {
      TransferRequestDoes(db, op);
    }
  }
}
