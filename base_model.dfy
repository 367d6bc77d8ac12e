/**
 * BaseModel: an in-memory model instance with the BaseModel columns, the
 * table it is stored in, the ModelMetaData hooks, MySoftDeletes'
 * `runSoftDelete` and `restore`, Eloquent's `save`, and `getFields`.
 */
module BaseModel {
  import opened Wrappers
  import opened Seqs
  import opened Schema
  import opened ModelMetaData
  import opened MySoftDeletes
  import ACL

  /** A table: the stored columns of each row, by primary key. */
  class Table {
    var rows: map<nat, StoredRow>

    constructor (rows0: map<nat, StoredRow>)
      ensures rows == rows0
    {
      rows := rows0;
    }
  }

  /** `$this->isDirty($column)` for one column: the current value wins where it differs from the original. */
  function Pick<T(==)>(current: T, original: T, stored: T): (r: T)
  {
    if current != original then current else stored
  }

  /**
   * What `performUpdate` writes: `update($this->getDirty())` sets only the
   * columns whose current value differs from the original attributes, so
   * every other column keeps what the stored row holds.
   */
  function WriteDirty(stored: StoredRow, current: StoredRow, original: StoredRow): (r: StoredRow)
    ensures current == original ==> r == stored
    ensures stored == original ==> r == current
    ensures r.meta.deletedAt == current.meta.deletedAt || r.meta.deletedAt == stored.meta.deletedAt
  {
    var c, o, st := current.meta, original.meta, stored.meta;
    StoredRow(Meta(Pick(c.createdBy, o.createdBy, st.createdBy), Pick(c.updatedBy, o.updatedBy, st.updatedBy),
                   Pick(c.deletedAt, o.deletedAt, st.deletedAt), Pick(c.deletedBy, o.deletedBy, st.deletedBy)),
              Pick(current.updatedAt, original.updatedAt, stored.updatedAt))
  }

  /**
   * The instance after `performUpdate`'s preparations: the `updating` hook
   * stamps it, then `updateTimestamps` sets `updated_at` unless that column
   * is already dirty.
   */
  function Touched(current: StoredRow, original: StoredRow, auth: Option<UserId>, now: Time, timestamps: bool): (r: StoredRow)
  {
    StoredRow(StampUpdated(current.meta, auth),
              if timestamps && current.updatedAt == original.updatedAt then Some(now) else current.updatedAt)
  }

  /**
   * `restore` on an instance with columns `current` and original attributes
   * `original`, whose row holds `stored`: the instance and the row after it.
   * The deletion columns are cleared on the instance and `save` writes what
   * is dirty against the original, if anything.
   */
  function RestoreOutcome(stored: StoredRow, current: StoredRow, original: StoredRow,
                          auth: Option<UserId>, now: Time, timestamps: bool): (r: (StoredRow, StoredRow))
    ensures Live(r.0.meta) && r.0.meta.deletedBy.None?
    ensures r.0.meta.createdBy == current.meta.createdBy
    ensures stored == original ==> r.1 == r.0
    ensures Live(original.meta) && original.meta.deletedBy.None? && Live(current.meta) && current.meta.deletedBy.None? ==>
      r.1.meta.deletedAt == stored.meta.deletedAt
  {
    var cleared := StoredRow(current.meta.(deletedAt := None, deletedBy := None), current.updatedAt);
    if cleared == original then (cleared, stored)
    else
      var t := Touched(cleared, original, auth, now, timestamps);
      (t, WriteDirty(stored, t, original))
  }

  /**
   * `delete()` then `restore()` on the same live instance: `runSoftDelete`
   * leaves the original attributes as loaded, so clearing the deletion
   * columns makes them clean again and the save never writes them. The
   * instance reads as live while its row stays trashed from the delete.
   */
  lemma RestoreAfterOwnDeleteLeavesRowTrashed(r: StoredRow, t1: Time, deleter: Option<UserId>, timestamps: bool,
                                              auth: Option<UserId>, t2: Time)
    requires Live(r.meta) && r.meta.deletedBy.None?
    ensures var d := SoftDeleted(r, t1, deleter, timestamps);
      var (inst, row) := RestoreOutcome(d, d, r, auth, t2, timestamps);
      Live(inst.meta) && row.meta.deletedAt == Some(t1)
  {
    var d := SoftDeleted(r, t1, deleter, timestamps);
    var cleared := StoredRow(d.meta.(deletedAt := None, deletedBy := None), d.updatedAt);
    assert cleared.meta == r.meta;
    if cleared != r {
      var t := Touched(cleared, r, auth, t2, timestamps);
      assert t.meta.deletedAt == r.meta.deletedAt;
    }
  }

  class Model {
    const key: nat
    const timestamps: bool
    const table: Table
    var createdBy: Option<UserId>
    var updatedBy: Option<UserId>
    var deletedAt: Option<Time>
    var deletedBy: Option<UserId>
    var updatedAt: Option<Time>
    var persisted: bool
    /** The attributes last read from or written to the database by this instance. */
    var original: StoredRow

    /** The instance's columns as a row. */
    function Columns(): (r: StoredRow)
      reads this
    {
      StoredRow(Meta(createdBy, updatedBy, deletedAt, deletedBy), updatedAt)
    }

    /** An existing instance has a stored row. */
    ghost predicate Valid()
      reads this, table
    {
      persisted ==> key in table.rows
    }

    /** A new instance, or one whose columns differ from its original attributes. */
    predicate IsDirty()
      reads this
    {
      !persisted || Columns() != original
    }

    /** An instance loaded from the row stored under `key`. */
    constructor Load(t: Table, k: nat, withTimestamps: bool)
      requires k in t.rows
      ensures key == k && table == t && timestamps == withTimestamps && persisted
      ensures Columns() == t.rows[k] && original == t.rows[k] && Valid()
    {
      key, table, timestamps := k, t, withTimestamps;
      var r := t.rows[k];
      createdBy, updatedBy, deletedAt, deletedBy, updatedAt := r.meta.createdBy, r.meta.updatedBy,
        r.meta.deletedAt, r.meta.deletedBy, r.updatedAt;
      persisted := true;
      original := r;
    }

    /** The `creating` hook of ModelMetaData. */
    method Creating(auth: Option<UserId>)
      modifies this`createdBy, this`updatedBy
      ensures Columns().meta == StampCreated(old(Columns()).meta, auth)
      ensures updatedAt == old(updatedAt)
    {
      var created := auth.GetOr(createdBy.GetOr(0));
      createdBy := Some(created);
      updatedBy := Some(auth.GetOr(createdBy.value));
    }

    /** The `updating` hook of ModelMetaData. */
    method Updating(auth: Option<UserId>)
      modifies this`updatedBy
      ensures Columns().meta == StampUpdated(old(Columns()).meta, auth)
    {
      updatedBy := Some(auth.GetOr(updatedBy.GetOr(0)));
    }

    /**
     * Eloquent's `save`. A new instance runs `creating`, gets its
     * timestamps and is inserted. An existing one is written only when dirty
     * against its original attributes: `updating` stamps it, `updated_at` is
     * touched unless already dirty, and only the dirty columns are written.
     * Either way the original attributes are then synced.
     */
    method Save(auth: Option<UserId>, now: Time) returns (saved: bool)
      requires Valid()
      modifies this, table
      ensures Valid() && persisted && saved && original == Columns()
      ensures old(!persisted) ==>
        && Columns() == StoredRow(StampCreated(old(Columns()).meta, auth),
                                  if timestamps then Some(now) else old(updatedAt))
        && table.rows == old(table.rows)[key := Columns()]
      ensures old(persisted && IsDirty()) ==>
        && Columns() == Touched(old(Columns()), old(original), auth, now, timestamps)
        && table.rows == old(table.rows)[key := WriteDirty(old(table.rows)[key], Columns(), old(original))]
      ensures old(persisted && !IsDirty()) ==> Columns() == old(Columns()) && table.rows == old(table.rows)
    {
      if !persisted {
        Creating(auth);
        if timestamps {
          updatedAt := Some(now);
        }
        table.rows := table.rows[key := Columns()];
        persisted := true;
      } else if Columns() != original {
        Updating(auth);
        if timestamps && updatedAt == original.updatedAt {
          updatedAt := Some(now);
        }
        table.rows := table.rows[key := WriteDirty(table.rows[key], Columns(), original)];
      }
      original := Columns();
      saved := true;
    }

    /**
     * `runSoftDelete`: the instance and the row stored under its key get
     * the soft-delete columns; the row is matched by key alone, trashed or
     * not. The original attributes are left as they were.
     */
    method RunSoftDelete(ctx: ACL.IdentityContext, w: ACL.World, now: Time)
      modifies this`deletedAt, this`deletedBy, this`updatedAt, table, ctx`user
      ensures var deleter := (if old(ctx.user).Some? then old(ctx.user) else w.auth);
        && Columns() == SoftDeleted(old(Columns()), now, deleter, timestamps)
        && table.rows == (if key in old(table.rows)
                          then old(table.rows)[key := SoftDeleted(old(table.rows)[key], now, deleter, timestamps)]
                          else old(table.rows))
    {
      var deleter := ctx.GetUserId(w);
      deletedAt := Some(now);
      deletedBy := deleter;
      if timestamps {
        updatedAt := Some(now);
      }
      if key in table.rows {
        table.rows := table.rows[key := SoftDeleted(table.rows[key], now, deleter, timestamps)];
      }
    }

    /**
     * `restore`: unless a `restoring` listener vetoes, clear the deletion
     * columns, mark the instance existing and save it. The row is revived
     * only as far as the cleared columns are dirty against the original
     * attributes (see RestoreOutcome).
     */
    method Restore(vetoed: bool, auth: Option<UserId>, now: Time) returns (result: bool)
      requires key in table.rows
      modifies this, table
      ensures vetoed ==> !result && Columns() == old(Columns()) && original == old(original) && table.rows == old(table.rows)
      ensures !vetoed ==> result && persisted && Valid() && original == Columns()
      ensures !vetoed ==>
        var (inst, row) := RestoreOutcome(old(table.rows[key]), old(Columns()), old(original), auth, now, timestamps);
        Columns() == inst && table.rows == old(table.rows)[key := row]
    {
      if vetoed {
        return false;
      }
      deletedAt := None;
      deletedBy := None;
      persisted := true;
      result := Save(auth, now);
    }
  }

  /**
   * `getFields`: the raw columns and the joined columns, minus the hidden
   * ones, with every key column replaced by an exact filter.
   */
  method GetFields(raw: seq<string>, joined: Option<seq<string>>, hidden: seq<string>, tableName: string)
    returns (cols: seq<Field>)
    ensures cols == Fields(raw, joined, hidden, tableName)
  {
    var joinedColumns := if joined.Some? then joined.value else [];
    var listed := ArrayDiff(raw + joinedColumns, hidden);
    cols := seq(|listed|, i requires 0 <= i < |listed| => Plain(listed[i]));
    var k := 0;
    while k < |listed|
      invariant 0 <= k <= |listed| && |cols| == |listed|
      invariant forall i :: 0 <= i < k ==> cols[i] == FieldFor(listed[i], joinedColumns, tableName)
      invariant forall i :: k <= i < |listed| ==> cols[i] == Plain(listed[i])
    {
      var col := listed[k];
      if col == "id" || LastThree(col) in ["_id", "_by"] {
        cols := cols[k := Exact(col, if col in joinedColumns then None else Some(tableName + "." + col))];
      }
      k := k + 1;
    }
  }
}
