/**
 * ModelMetaData: the audit stamps written by the `creating` and `updating`
 * hooks, and the filter list `getFields` derives from a table's columns.
 */
module ModelMetaData {
  import opened Wrappers
  import opened Seqs
  import opened Schema

  /**
   * `creating`: `created_by = Auth::id() ?? created_by ?? 0`, then
   * `updated_by = Auth::id() ?? created_by ?? 0` with the new `created_by`.
   */
  function StampCreated(m: Meta, auth: Option<UserId>): (r: Meta)
    ensures r.createdBy.Some? && r.updatedBy == r.createdBy
    ensures auth.Some? ==> r.createdBy == auth
    ensures auth.None? ==> r.createdBy == Some(m.createdBy.GetOr(0))
    ensures r.deletedAt == m.deletedAt && r.deletedBy == m.deletedBy
  {
    var created := auth.GetOr(m.createdBy.GetOr(0));
    m.(createdBy := Some(created), updatedBy := Some(auth.GetOr(created)))
  }

  /** `updating`: `updated_by = Auth::id() ?? updated_by ?? 0`; nothing else moves. */
  function StampUpdated(m: Meta, auth: Option<UserId>): (r: Meta)
    ensures r.updatedBy.Some?
    ensures auth.Some? ==> r.updatedBy == auth
    ensures auth.None? ==> r.updatedBy == Some(m.updatedBy.GetOr(0))
    ensures r.createdBy == m.createdBy && r.deletedAt == m.deletedAt && r.deletedBy == m.deletedBy
  {
    m.(updatedBy := Some(auth.GetOr(m.updatedBy.GetOr(0))))
  }

  /** Stamping twice for the same request changes nothing more. */
  lemma StampsIdempotent(m: Meta, auth: Option<UserId>)
    ensures StampUpdated(StampUpdated(m, auth), auth) == StampUpdated(m, auth)
    ensures StampUpdated(StampCreated(m, auth), auth) == StampCreated(m, auth)
  {
  }

  // ---- getFields ----

  /** An entry of the filter list: a column name, or an exact-match filter on it. */
  datatype Field = Plain(name: string) | Exact(name: string, internalName: Option<string>)

  /** PHP's `substr($col, -3)`: the last three characters, or all of a shorter string. */
  function LastThree(col: string): (r: string)
    ensures |col| >= 3 ==> r == col[|col| - 3..]
    ensures |col| < 3 ==> r == col
  {
    if |col| >= 3 then col[|col| - 3..] else col
  }

  /** `id`, and every column ending in `_id` or `_by`, gets an exact filter. */
  predicate IsKeyColumn(col: string)
  {
    col == "id" || LastThree(col) in ["_id", "_by"]
  }

  /** The entry for one listed column. */
  function FieldFor(col: string, joined: seq<string>, tableName: string): (f: Field)
    ensures f.name == col
    ensures f.Exact? <==> IsKeyColumn(col)
    ensures f.Exact? ==> (f.internalName.None? <==> col in joined)
    ensures f.Exact? && col !in joined ==> f.internalName == Some(tableName + "." + col)
  {
    if IsKeyColumn(col) then Exact(col, if col in joined then None else Some(tableName + "." + col))
    else Plain(col)
  }

  /** The joined columns when they form an array, else none (`is_array(...) ? ... : []`). */
  function JoinedOrEmpty(joined: Option<seq<string>>): (r: seq<string>)
  {
    joined.GetOr([])
  }

  /** The columns `getFields` lists: raw then joined, without the hidden ones. */
  function ListedColumns(raw: seq<string>, joined: Option<seq<string>>, hidden: seq<string>): (r: seq<string>)
  {
    ArrayDiff(raw + JoinedOrEmpty(joined), hidden)
  }

  /** What `getFields` returns: one entry per listed column, in order. */
  function Fields(raw: seq<string>, joined: Option<seq<string>>, hidden: seq<string>, tableName: string): (r: seq<Field>)
    ensures |r| == |ListedColumns(raw, joined, hidden)|
    ensures forall i :: 0 <= i < |r| ==> r[i].name == ListedColumns(raw, joined, hidden)[i]
  {
    var cols := ListedColumns(raw, joined, hidden);
    seq(|cols|, i requires 0 <= i < |cols| => FieldFor(cols[i], JoinedOrEmpty(joined), tableName))
  }

  /**
   * No hidden column is ever offered as a filter, every offered column is a
   * raw or joined column, and a key column is filtered exactly on the
   * table-qualified name unless it is a joined column.
   */
  lemma FieldsRespectHidden(raw: seq<string>, joined: Option<seq<string>>, hidden: seq<string>,
                            tableName: string, i: nat)
    requires i < |Fields(raw, joined, hidden, tableName)|
    ensures var f := Fields(raw, joined, hidden, tableName)[i];
      && f.name !in hidden
      && (f.name in raw || f.name in JoinedOrEmpty(joined))
      && (f.Exact? <==> IsKeyColumn(f.name))
      && (f.Exact? && f.name !in JoinedOrEmpty(joined) ==> f.internalName == Some(tableName + "." + f.name))
  {
    var cols := ListedColumns(raw, joined, hidden);
    assert cols[i] in cols;
  }

  /**
   * The converse: a column is offered exactly when it is a raw or joined
   * column that is not hidden, so `getFields` lists raw plus joined minus
   * hidden and nothing else.
   */
  lemma FieldsListVisibleColumns(raw: seq<string>, joined: Option<seq<string>>, hidden: seq<string>,
                                 tableName: string, c: string)
    ensures (exists i :: 0 <= i < |Fields(raw, joined, hidden, tableName)| && Fields(raw, joined, hidden, tableName)[i].name == c)
      <==> (c in raw || c in JoinedOrEmpty(joined)) && c !in hidden
  {
    var f := Fields(raw, joined, hidden, tableName);
    var cols := ListedColumns(raw, joined, hidden);
    if (c in raw || c in JoinedOrEmpty(joined)) && c !in hidden {
      assert c in raw + JoinedOrEmpty(joined);
      var i :| 0 <= i < |cols| && cols[i] == c;
      assert f[i].name == c;
    }
    if exists i :: 0 <= i < |f| && f[i].name == c {
      var i :| 0 <= i < |f| && f[i].name == c;
      assert cols[i] in cols;
    }
  }
}
