/**
 * MySoftDeletes: the columns a soft delete or a restore writes. The model
 * methods that use them live in BaseModel.Model; the query-builder variants
 * in MySoftDeletingScope.
 */
module MySoftDeletes {
  import opened Wrappers
  import opened Schema

  /** A stored row: the BaseModel columns plus `updated_at`. */
  datatype StoredRow = StoredRow(meta: Meta, updatedAt: Option<Time>)

  /**
   * A soft delete sets `deleted_at` to the current time and `deleted_by` to
   * the ACL user, and touches `updated_at` when the model keeps timestamps.
   */
  function SoftDeleted(r: StoredRow, now: Time, deleter: Option<UserId>, timestamps: bool): (d: StoredRow)
    ensures !Live(d.meta) && d.meta.deletedAt == Some(now) && d.meta.deletedBy == deleter
    ensures d.meta.createdBy == r.meta.createdBy && d.meta.updatedBy == r.meta.updatedBy
    ensures d.updatedAt == (if timestamps then Some(now) else r.updatedAt)
  {
    StoredRow(r.meta.(deletedAt := Some(now), deletedBy := deleter), if timestamps then Some(now) else r.updatedAt)
  }

  /** A restore clears `deleted_at` and `deleted_by`. */
  function Restored(r: StoredRow, now: Time, timestamps: bool): (d: StoredRow)
    ensures Live(d.meta) && d.meta.deletedBy.None?
    ensures d.meta.createdBy == r.meta.createdBy && d.meta.updatedBy == r.meta.updatedBy
    ensures d.updatedAt == (if timestamps then Some(now) else r.updatedAt)
  {
    StoredRow(r.meta.(deletedAt := None, deletedBy := None), if timestamps then Some(now) else r.updatedAt)
  }

  /**
   * Restoring a soft-deleted row brings back every audit column it had
   * before the delete except `updated_at`.
   */
  lemma RestoreUndoesSoftDelete(r: StoredRow, t1: Time, t2: Time, deleter: Option<UserId>, timestamps: bool)
    requires Live(r.meta) && r.meta.deletedBy.None?
    ensures Restored(SoftDeleted(r, t1, deleter, timestamps), t2, timestamps).meta == r.meta
  {
  }
}
