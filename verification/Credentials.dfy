/** Auth data of connections: merging an update with what is stored, and what every request keeps. */
module Credentials {
  import opened Wrappers
  import opened Database
  import opened Operations

  /** An update is refused exactly when it leaves a secret out and changes the type of auth data. */
  lemma MergeIsRefusedIff(existing: AuthData, request: AuthRequest)
    requires HasSecrets(existing)
    ensures MergeError(existing, request) != Some(MissingSecret)
    ensures MergeError(existing, request).Some? <==>
            existing.kind != request.kind && exists field ::
              field in SecretFields(request.kind) && field !in request.secrets
  {
  }

  /** Merging keeps each secret that the request leaves out, takes each that it gives, and misses none. */
  lemma MergingKeepsSecrets(existing: AuthData, request: AuthRequest)
    requires MergeError(existing, request).None?
    ensures var merged := Merged(existing, request);
            && HasSecrets(merged) && merged.kind == request.kind && merged.fields == request.fields
            && (forall field | field in SecretFields(request.kind) && field in request.secrets ::
                  merged.secrets[field] == request.secrets[field])
            && (forall field | field in SecretFields(request.kind) && field !in request.secrets ::
                  existing.kind == request.kind && merged.secrets[field] == existing.secrets[field])
  {
  }

  lemma UpdateKeepsComplete(db: Db, actor: int, id: int, name: string, kind: string, auth: AuthRequest)
    requires Complete(db.credentials)
    ensures Complete(AfterUpdateConnection(db, actor, id, name, kind, auth).0.credentials)
  {
    if AfterUpdateConnection(db, actor, id, name, kind, auth).1.Ok? {
      MergingKeepsSecrets(db.credentials[id], auth);
    }
  }

  /** No row of auth data is new or changed. */
  ghost predicate NoNewCredentials(db: Db, t: Db) {
    forall id | id in t.credentials :: id in db.credentials && t.credentials[id] == db.credentials[id]
  }

  lemma CopyTransferCopiesNoCredentials(db: Db, actor: int, id: int, copy: CopyData)
    ensures NoNewCredentials(db, AfterCopyTransfer(db, actor, id, copy).0)
  {
    if AfterCopyTransfer(db, actor, id, copy).1.Ok? {
      var (copied, ends) := CopiedEndpoints(db, db.transfers[id], copy);
      assert copied.credentials == db.credentials;
      assert Added(copied, Moved(db.transfers[id], copy, ends.value)).credentials == db.credentials;
    }
  }

  lemma DeletionAddsNoCredentials(db: Db, op: Op)
    requires op.DeleteGroup? || op.DeleteConnection? || op.DeleteQueue? || op.DeleteTransfer?
    ensures NoNewCredentials(db, Apply(db, op))
  {
  }

  lemma CopyConnectionCopiesNoCredentials(db: Db, actor: int, id: int, newGroup: int, newName: Option<string>,
      removeSource: bool)
    ensures NoNewCredentials(db, AfterCopyConnection(db, actor, id, newGroup, newName, removeSource).0)
  {
  }

  lemma MemberOpAddsNoCredentials(db: Db, op: Op)
    requires op.RegisterUser? || op.CreateGroup? || op.UpdateGroup? || op.AddMember? || op.UpdateMember? ||
             op.RemoveMember?
    ensures NoNewCredentials(db, Apply(db, op))
  {
  }

  lemma RowOpAddsNoCredentials(db: Db, op: Op)
    requires op.CreateQueue? || op.UpdateQueue? || op.CreateTransfer? || op.UpdateTransfer? || op.StartRun? ||
             op.RunOnSchedule?
    ensures NoNewCredentials(db, Apply(db, op))
  {
  }

  lemma OtherRequestsAddNoCredentials(db: Db, op: Op)
    requires !op.CreateConnection? && !op.UpdateConnection?
    ensures NoNewCredentials(db, Apply(db, op))
  {
    if op.CopyTransfer? {
      CopyTransferCopiesNoCredentials(db, op.actor, op.transfer, op.copy);
    } else if op.CopyConnection? {
      CopyConnectionCopiesNoCredentials(db, op.actor, op.connection, op.newGroup, op.newName, op.removeSource);
    } else if op.DeleteGroup? || op.DeleteConnection? || op.DeleteQueue? || op.DeleteTransfer? {
      DeletionAddsNoCredentials(db, op);
    } else if op.CreateQueue? || op.UpdateQueue? || op.CreateTransfer? || op.UpdateTransfer? {
      RowOpAddsNoCredentials(db, op);
    } else if op.StartRun? || op.RunOnSchedule? {
      RowOpAddsNoCredentials(db, op);
    } else {
      MemberOpAddsNoCredentials(db, op);
    }
  }

  /** Stored auth data always has every secret of its type, so filling up a request never meets a missing one. */
  lemma RequestKeepsComplete(db: Db, op: Op)
    requires Complete(db.credentials) && WellFormed(db, op)
    ensures Complete(Apply(db, op).credentials)
  {
    if op.UpdateConnection? {
      UpdateKeepsComplete(db, op.actor, op.connection, op.name, op.kind, op.request);
    } else if !op.CreateConnection? {
      OtherRequestsAddNoCredentials(db, op);
    }
  }
}
