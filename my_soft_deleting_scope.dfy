/**
 * MySoftDeletingScope: a query builder over one table whose `delete()` is
 * replaced by an update stamping the deletion columns, and whose `restore()`
 * macro widens the query to trashed rows and clears them.
 */
module MySoftDeletingScope {
  import opened Wrappers
  import opened Schema
  import opened MySoftDeletes
  import opened BaseModel
  import ACL

  /** Which rows the soft-deleting constraint lets through. */
  datatype Trashed = WithoutTrashed | WithTrashed | OnlyTrashed

  predicate InScope(r: StoredRow, mode: Trashed)
  {
    match mode
    case WithoutTrashed => Live(r.meta)
    case WithTrashed => true
    case OnlyTrashed => !Live(r.meta)
  }

  class Builder {
    const table: Table
    /** The model's `timestamps`: whether an update also touches `updated_at`. */
    const timestamps: bool
    /** The keys the builder's own where-clauses select. */
    const selected: set<nat>
    var mode: Trashed

    /** A new query starts under the global scope: trashed rows are hidden. */
    constructor (t: Table, withTimestamps: bool, keys: set<nat>)
      ensures table == t && timestamps == withTimestamps && selected == keys && mode == WithoutTrashed
    {
      table, timestamps, selected, mode := t, withTimestamps, keys, WithoutTrashed;
    }

    predicate Matches(k: nat)
      reads this, table
    {
      k in table.rows && k in selected && InScope(table.rows[k], mode)
    }

    /** `withTrashed()`. */
    method IncludeTrashed()
      modifies this`mode
      ensures mode == WithTrashed
    {
      mode := WithTrashed;
    }

    /**
     * The `onDelete` replacement: every matched row gets `deleted_at` = now
     * and `deleted_by` = the ACL user; no row leaves the table.
     */
    method OnDelete(ctx: ACL.IdentityContext, w: ACL.World, now: Time)
      modifies table, ctx`user
      ensures var deleter := (if old(ctx.user).Some? then old(ctx.user) else w.auth);
        table.rows == map k | k in old(table.rows) ::
          if k in selected && InScope(old(table.rows)[k], mode)
          then SoftDeleted(old(table.rows)[k], now, deleter, timestamps)
          else old(table.rows)[k]
    {
      var deleter := ctx.GetUserId(w);
      table.rows := map k | k in table.rows ::
        if k in selected && InScope(table.rows[k], mode) then SoftDeleted(table.rows[k], now, deleter, timestamps)
        else table.rows[k];
    }

    /** The `restore` macro: include trashed rows, then clear the deletion columns of every selected row. */
    method Restore(now: Time)
      modifies this`mode, table
      ensures mode == WithTrashed
      ensures table.rows == map k | k in old(table.rows) ::
        if k in selected then Restored(old(table.rows)[k], now, timestamps) else old(table.rows)[k]
    {
      IncludeTrashed();
      table.rows := map k | k in table.rows ::
        if k in selected then Restored(table.rows[k], now, timestamps) else table.rows[k];
    }
  }

  /**
   * Through the builder, a delete never removes a row and a restore brings
   * back every selected row, trashed or not.
   */
  lemma DeleteKeepsRowsRestoreRevives(rows: map<nat, StoredRow>, selected: set<nat>, mode: Trashed,
                                      now: Time, deleter: Option<UserId>, timestamps: bool, k: nat)
    requires k in rows && k in selected
    ensures var deleted := map j | j in rows ::
        if j in selected && InScope(rows[j], mode) then SoftDeleted(rows[j], now, deleter, timestamps) else rows[j];
      var restored := map j | j in deleted ::
        if j in selected then Restored(deleted[j], now, timestamps) else deleted[j];
      && deleted.Keys == rows.Keys
      && Live(restored[k].meta)
      && restored[k].meta.createdBy == rows[k].meta.createdBy
  {
  }
}
