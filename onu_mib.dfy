/**
 * The per-ONU MIB cache (`OnuMIB`): the entities the agent has created, set or read back on one
 * ONU, keyed by (entity class, entity instance), in insertion order. Two classes carry a table
 * attribute whose Set messages add, replace or remove one row at a time.
 */
module OnuMib {
  import opened Wrappers
  import opened Dicts

  /**
   * `managed_tables`: the table attribute of each class whose rows are kept one by one, for
   * the extended VLAN tagging operation configuration data (class 171, ITU-T G.988 section
   * 9.3.13) and the multicast GEM interworking termination point (class 281, section 9.2.5).
   */
  const ManagedTables: map<nat, string> := map[
    171 := "received_frame_vlan_tagging_operation_table",
    281 := "ipv4_multicast_address_table"
  ]

  /**
   * One row operation of a table attribute: the key `index()` reports, the flag `is_delete()`
   * reports, and the rest of the row.
   */
  datatype Row = Row(index: nat, isDelete: bool, rest: seq<int>)

  /**
   * An attribute value: Python's `None`, a plain value, a list of rows (a table kept by the
   * cache), or a single row operation (what a Set of a table attribute carries).
   */
  datatype Attr = Null | Num(n: int) | Rows(rows: seq<Row>) | Op(row: Row)

  type Entity = map<string, Attr>

  datatype Key = Key(cls: nat, id: nat)

  datatype MsgKind = MibUploadNextResponse | Set | Create | GetResponse | Delete | Other

  /** A decoded OMCI message: its class name, the addressed entity and its attribute data. */
  datatype Message = Message(kind: MsgKind, cls: nat, id: nat, data: Entity)

  /** `entity.get(field)`: an absent field reads as `None`. */
  function FieldGet(e: Entity, field: string): Attr
  {
    if field in e then e[field] else Null
  }

  /** No two rows share an index. */
  predicate UniqueIndexes(rows: seq<Row>)
  {
    forall a, b :: 0 <= a < b < |rows| ==> rows[a].index != rows[b].index
  }

  /** The rows whose index differs from `idx`, order kept. */
  function Purged(rows: seq<Row>, idx: nat): (r: seq<Row>)
  {
    if |rows| == 0 then []
    else (if rows[0].index == idx then [] else [rows[0]]) + Purged(rows[1..], idx)
  }

  lemma {:induction false} PurgedAppend(a: seq<Row>, b: seq<Row>, idx: nat)
    ensures Purged(a + b, idx) == Purged(a, idx) + Purged(b, idx)
  {
    if |a| > 0 {
      assert (a + b)[1..] == a[1..] + b;
      PurgedAppend(a[1..], b, idx);
    } else {
      assert a + b == b;
    }
  }

  /** What `Purged` keeps: exactly the rows of another index, and no row of index `idx`. */
  lemma {:induction false} PurgedMembers(rows: seq<Row>, idx: nat)
    ensures forall x :: x in Purged(rows, idx) <==> x in rows && x.index != idx
    ensures UniqueIndexes(rows) ==> UniqueIndexes(Purged(rows, idx))
  {
    if |rows| > 0 {
      PurgedMembers(rows[1..], idx);
      assert forall x :: x in rows <==> x == rows[0] || x in rows[1..];
      if UniqueIndexes(rows) {
        assert UniqueIndexes(rows[1..]) by {
          forall a, b | 0 <= a < b < |rows[1..]|
            ensures rows[1..][a].index != rows[1..][b].index
          {
            assert rows[1..][a] == rows[a + 1] && rows[1..][b] == rows[b + 1];
          }
        }
        var t := Purged(rows[1..], idx);
        var h: seq<Row> := if rows[0].index == idx then [] else [rows[0]];
        forall a, b | 0 <= a < b < |h + t|
          ensures (h + t)[a].index != (h + t)[b].index
        {
          if a < |h| {
            assert (h + t)[b] in rows[1..];
            var k :| 0 <= k < |rows[1..]| && rows[1..][k] == (h + t)[b];
            assert rows[1..][k] == rows[k + 1];
          }
        }
      }
    }
  }

  /**
   * The table after one Set row operation, on a table without repeated indexes: the row of the
   * same index, if any, is dropped, and the operation is appended unless it is a delete.
   */
  function Treated(rows: seq<Row>, op: Row): seq<Row>
  {
    Purged(rows, op.index) + (if op.isDelete then [] else [op])
  }

  /**
   * A Set row operation keeps the table free of repeated indexes and leaves the operation's
   * row there exactly when it is not a delete; every other row stays.
   */
  lemma TreatedUnique(rows: seq<Row>, op: Row)
    requires UniqueIndexes(rows)
    ensures UniqueIndexes(Treated(rows, op))
    ensures !op.isDelete <==> op in Treated(rows, op)
    ensures forall x :: x in Treated(rows, op) && x.index == op.index ==> x == op
    ensures forall x :: x in rows && x.index != op.index ==> x in Treated(rows, op)
  {
    PurgedMembers(rows, op.index);
    var p := Purged(rows, op.index);
    if !op.isDelete {
      forall a, b | 0 <= a < b < |p + [op]|
        ensures (p + [op])[a].index != (p + [op])[b].index
      {
        if b == |p| {
          assert (p + [op])[a] in p;
        }
      }
    } else {
      assert p + [] == p;
    }
  }

  /** The entity stored under `k`, or an empty one. */
  function StoredOr(mib: Dict<Key, Entity>, k: Key): Entity
  {
    if k in mib.m then mib.m[k] else map[]
  }

  /** The ids of class `cls` in the order their keys were inserted. */
  function ClassIds(order: seq<Key>, cls: nat): (r: seq<nat>)
  {
    if |order| == 0 then []
    else ClassIds(order[..|order| - 1], cls) + (if order[|order| - 1].cls == cls then [order[|order| - 1].id] else [])
  }

  /** The ids of a class are exactly the instances stored for it, each once. */
  lemma {:induction false} ClassIdsMembers(order: seq<Key>, cls: nat)
    requires Distinct(order)
    ensures forall i :: i in ClassIds(order, cls) <==> Key(cls, i) in order
    ensures Distinct(ClassIds(order, cls))
  {
    if |order| > 0 {
      var init, last := order[..|order| - 1], order[|order| - 1];
      assert order == init + [last];
      assert forall k :: k in order <==> k in init || k == last;
      assert Distinct(init) by {
        forall a, b | 0 <= a < b < |init| ensures init[a] != init[b] {
          assert init[a] == order[a] && init[b] == order[b];
        }
      }
      assert last !in init;
      ClassIdsMembers(init, cls);
      var r := ClassIds(init, cls);
      var r' := r + (if last.cls == cls then [last.id] else []);
      forall a, b | 0 <= a < b < |r'| ensures r'[a] != r'[b] {
        if b == |r| {
          assert r'[a] in r;
        }
      }
    }
  }

  class OnuMIB {
    var mib: Dict<Key, Entity>

    ghost predicate Valid()
      reads this
    {
      mib.Valid()
    }

    constructor ()
      ensures Valid() && mib == Empty()
    {
      mib := Empty();
    }

    /**
     * `_tableEntry_treatment(key, field, op)`: the entity and its table are created when
     * missing, every row with the operation's index is removed while iterating over the list,
     * and the operation is appended unless it deletes. A stored value that is not a list, or an
     * operation that is not a row, raises (`ok` false) once the entity and table exist.
     */
    method TableEntryTreatment(key: Key, field: string, op: Attr) returns (ok: bool)
      requires Valid()
      modifies this
      ensures Valid()
      ensures var e0 := StoredOr(old(mib), key);
        var e1 := if field in e0 then e0 else e0[field := Rows([])];
        ok <==> e1[field].Rows? && op.Op?
      ensures var e0 := StoredOr(old(mib), key);
        var e1 := if field in e0 then e0 else e0[field := Rows([])];
        !ok ==> mib == old(mib).Put(key, e1)
      ensures var e0 := StoredOr(old(mib), key);
        var rows := if field in e0 && e0[field].Rows? then e0[field].rows else [];
        ok && UniqueIndexes(rows) ==> mib == old(mib).Put(key, e0[field := Rows(Treated(rows, op.row))])
      ensures ok ==> mib.m.Keys == old(mib.m.Keys) + {key} && mib.m[key].Keys == StoredOr(old(mib), key).Keys + {field}
    {
      var e := if key in mib.m then mib.m[key] else map[];
      if field !in e {
        e := e[field := Rows([])];
      }
      if !e[field].Rows? || !op.Op? {
        mib := mib.Put(key, e);
        return false;
      }
      var rows := RemoveIndex(e[field].rows, op.row.index);
      ghost var treated := Treated(e[field].rows, op.row);
      if !op.row.isDelete {
        rows := rows + [op.row];
      } else {
        assert rows + [] == rows;
      }
      assert UniqueIndexes(e[field].rows) ==> rows == treated;
      assert e[field := Rows(rows)] == StoredOr(old(mib), key)[field := Rows(rows)];
      mib := mib.Put(key, e[field := Rows(rows)]);
      return true;
    }

    /**
     * `add_modify_entity(msg)`: a Create, a GetResponse or a MIB upload answer inserts its data
     * under a new key and merges it into an existing one; a Set does the same, except that the
     * row operation of a managed table goes through `TableEntryTreatment` first and is not
     * merged as a plain attribute; a Delete removes the key, and does nothing for an absent one;
     * any other message leaves the cache alone. `ok` is false when the table treatment raises.
     */
    method AddModifyEntity(msg: Message) returns (ok: bool)
      requires Valid()
      modifies this
      ensures Valid()
      ensures msg.kind == Other ==> ok && mib == old(mib)
      ensures msg.kind == Delete ==> ok && mib.m == old(mib.m) - {Key(msg.cls, msg.id)}
      ensures msg.kind == Delete && Key(msg.cls, msg.id) !in old(mib.m) ==> mib == old(mib)
      ensures var key := Key(msg.cls, msg.id);
        && msg.kind in {Create, GetResponse, MibUploadNextResponse, Set}
        && !(msg.kind == Set && msg.cls in ManagedTables && ManagedTables[msg.cls] in msg.data)
        ==> ok && mib == old(mib).Put(key, if key in old(mib.m) then old(mib.m)[key] + msg.data else msg.data)
      ensures var key := Key(msg.cls, msg.id);
        msg.kind == Set && msg.cls in ManagedTables && ManagedTables[msg.cls] in msg.data ==>
          var field := ManagedTables[msg.cls];
          var e0 := StoredOr(old(mib), key);
          var rows := if field in e0 && e0[field].Rows? then e0[field].rows else [];
          ok && UniqueIndexes(rows) ==>
            msg.data[field].Op? &&
            mib == old(mib).Put(key, e0[field := Rows(Treated(rows, msg.data[field].row))] + (msg.data - {field}))
    {
      if msg.kind == Other {
        return true;
      }
      var key := Key(msg.cls, msg.id);
      var data := msg.data;
      if msg.kind == Set && msg.cls in ManagedTables && ManagedTables[msg.cls] in data {
        // the row operation is stored by the treatment and popped from the data, which the
        // entity, present from then on, absorbs
        var field := ManagedTables[msg.cls];
        ok := TableEntryTreatment(key, field, data[field]);
        if !ok {
          return;
        }
        data := data - {field};
        PutPut(old(mib), key, mib.m[key], mib.m[key] + data);
        mib := mib.Put(key, mib.m[key] + data);
        return;
      }
      if key in mib.m {
        if msg.kind == Delete {
          mib := mib.Pop(key);
        } else {
          mib := mib.Put(key, mib.m[key] + data);
        }
      } else if msg.kind != Delete {
        mib := mib.Put(key, data);
      }
      return true;
    }

    /** `get_entity_ids(cls)`: the instances of the class, in insertion order. */
    method GetEntityIds(cls: nat) returns (ids: seq<nat>)
      requires Valid()
      ensures ids == ClassIds(mib.order, cls)
      ensures forall i :: i in ids <==> EntityExists(cls, i)
      ensures Distinct(ids)
    {
      ids := [];
      var k := 0;
      while k < |mib.order|
        invariant 0 <= k <= |mib.order|
        invariant ids == ClassIds(mib.order[..k], cls)
      {
        assert mib.order[..k + 1][..k] == mib.order[..k];
        if mib.order[k].cls == cls {
          ids := ids + [mib.order[k].id];
        }
        k := k + 1;
      }
      assert mib.order[..k] == mib.order;
      ClassIdsMembers(mib.order, cls);
    }

    /** `entity_exists(cls, id)`. */
    predicate EntityExists(cls: nat, id: nat)
      reads this
    {
      Key(cls, id) in mib.m
    }

    /** Whether instance `id` of class `cls` is stored with `field` reading as `value`. */
    predicate Configured(cls: nat, id: nat, field: string, value: Attr)
      reads this
    {
      Key(cls, id) in mib.m && FieldGet(mib.m[Key(cls, id)], field) == value
    }

    /**
     * `entityID_get_configured_field(cls, field, value)`: the first instance, in insertion
     * order, whose field reads as `value`; `None` when no instance of the class has it.
     */
    method EntityIdGetConfiguredField(cls: nat, field: string, value: Attr) returns (r: Option<nat>)
      requires Valid()
      ensures r.Some? ==> Configured(cls, r.value, field, value)
      ensures r.None? <==> forall i :: !Configured(cls, i, field, value)
      ensures r.Some? ==> exists k :: 0 <= k < |ClassIds(mib.order, cls)| && ClassIds(mib.order, cls)[k] == r.value
                            && forall j :: 0 <= j < k ==> !Configured(cls, ClassIds(mib.order, cls)[j], field, value)
    {
      var ids := GetEntityIds(cls);
      var k := 0;
      while k < |ids|
        invariant 0 <= k <= |ids|
        invariant forall j :: 0 <= j < k ==> !Configured(cls, ids[j], field, value)
      {
        assert ids[k] in ids;
        if FieldGet(mib.m[Key(cls, ids[k])], field) == value {
          return Some(ids[k]);
        }
        k := k + 1;
      }
      forall i | EntityExists(cls, i) ensures !Configured(cls, i, field, value) {
        var j :| 0 <= j < |ids| && ids[j] == i;
      }
      return None;
    }

    /** `entity_field_configured(cls, field, value)`: some instance of the class has it. */
    method EntityFieldConfigured(cls: nat, field: string, value: Attr) returns (b: bool)
      requires Valid()
      ensures b <==> exists i :: Configured(cls, i, field, value)
    {
      var ids := GetEntityIds(cls);
      var k := 0;
      while k < |ids|
        invariant 0 <= k <= |ids|
        invariant forall j :: 0 <= j < k ==> !Configured(cls, ids[j], field, value)
      {
        assert ids[k] in ids;
        if FieldGet(mib.m[Key(cls, ids[k])], field) == value {
          assert Configured(cls, ids[k], field, value);
          return true;
        }
        k := k + 1;
      }
      forall i | EntityExists(cls, i) ensures !Configured(cls, i, field, value) {
        var j :| 0 <= j < |ids| && ids[j] == i;
      }
      return false;
    }

    /** `get_entity_value(cls, id, field)`; `None` stands for the KeyError of an absent entity. */
    function GetEntityValue(cls: nat, id: nat, field: string): (r: Option<Attr>)
      reads this
      ensures r.Some? <==> EntityExists(cls, id)
      ensures r.Some? ==> (field !in mib.m[Key(cls, id)] ==> r.value == Null)
    {
      if Key(cls, id) in mib.m then Some(FieldGet(mib.m[Key(cls, id)], field)) else None
    }

    /** `get_entity_data(cls, id)`; `None` stands for the KeyError of an absent entity. */
    function GetEntityData(cls: nat, id: nat): (r: Option<Entity>)
      reads this
      ensures r.Some? <==> EntityExists(cls, id)
      ensures r.Some? ==> forall f :: GetEntityValue(cls, id, f) == Some(FieldGet(r.value, f))
    {
      if Key(cls, id) in mib.m then Some(mib.m[Key(cls, id)]) else None
    }
  }

  /**
   * The loop `for entry in rows: if entry.index() == idx: rows.remove(entry)`, which removes
   * from the list it iterates over: after a removal the iteration skips the next row. On a
   * table without repeated indexes that row cannot match, and the loop drops exactly the rows
   * of index `idx`.
   */
  method RemoveIndex(rows0: seq<Row>, idx: nat) returns (rows: seq<Row>)
    ensures forall x :: x in rows ==> x in rows0
    ensures UniqueIndexes(rows0) ==> rows == Purged(rows0, idx)
  {
    rows := rows0;
    var i := 0;
    while i < |rows|
      invariant 0 <= i <= |rows| + 1
      invariant forall x :: x in rows ==> x in rows0
      invariant UniqueIndexes(rows0) ==> UniqueIndexes(rows)
      invariant UniqueIndexes(rows0) ==> forall k :: 0 <= k < i && k < |rows| ==> rows[k].index != idx
      invariant UniqueIndexes(rows0) ==> Purged(rows, idx) == Purged(rows0, idx)
    {
      var entry := rows[i];
      i := i + 1;
      if entry.index == idx {
        var j := FirstOf(rows, entry);
        RemoveMatch(rows, rows0, i - 1, j, idx);
        assert forall x :: x in rows[..j] + rows[j + 1..] ==> x in rows;
        rows := rows[..j] + rows[j + 1..];
      }
    }
    if UniqueIndexes(rows0) {
      NoneLeft(rows, idx);
    }
  }

  /** `list.remove(entry)` looks for the first element equal to the entry. */
  method FirstOf(rows: seq<Row>, x: Row) returns (j: nat)
    requires x in rows
    ensures j < |rows| && rows[j] == x && x !in rows[..j]
  {
    j := 0;
    while rows[j] != x
      invariant j < |rows| && x !in rows[..j]
      invariant x in rows[j..]
      decreases |rows| - j
    {
      assert rows[..j + 1] == rows[..j] + [rows[j]];
      assert rows[j..] == [rows[j]] + rows[j + 1..];
      j := j + 1;
    }
  }

  /**
   * On a table without repeated indexes the row found at `i` is the only one equal to itself,
   * so removing it keeps the table free of repeats, the rows before `i` and the purge.
   */
  lemma RemoveMatch(rows: seq<Row>, rows0: seq<Row>, i: nat, j: nat, idx: nat)
    requires i < |rows| && j < |rows| && rows[j] == rows[i] && rows[i].index == idx
    requires UniqueIndexes(rows0) ==> UniqueIndexes(rows)
    requires UniqueIndexes(rows0) ==> forall k :: 0 <= k < i && k < |rows| ==> rows[k].index != idx
    requires UniqueIndexes(rows0) ==> Purged(rows, idx) == Purged(rows0, idx)
    ensures var rows' := rows[..j] + rows[j + 1..];
      && (UniqueIndexes(rows0) ==> UniqueIndexes(rows'))
      && (UniqueIndexes(rows0) ==> forall k :: 0 <= k < i + 1 && k < |rows'| ==> rows'[k].index != idx)
      && (UniqueIndexes(rows0) ==> Purged(rows', idx) == Purged(rows0, idx))
  {
    if UniqueIndexes(rows0) {
      assert j == i;
      var rows' := rows[..j] + rows[j + 1..];
      forall a, b | 0 <= a < b < |rows'| ensures rows'[a].index != rows'[b].index {
        var a', b' := if a < j then a else a + 1, if b < j then b else b + 1;
        assert rows'[a] == rows[a'] && rows'[b] == rows[b'];
      }
      forall k | 0 <= k < i + 1 && k < |rows'| ensures rows'[k].index != idx {
        if k == i {
          assert rows'[k] == rows[i + 1];
        }
      }
      assert rows == rows[..j] + [rows[j]] + rows[j + 1..];
      PurgedAppend(rows[..j] + [rows[j]], rows[j + 1..], idx);
      PurgedAppend(rows[..j], [rows[j]], idx);
      PurgedAppend(rows[..j], rows[j + 1..], idx);
      assert Purged([rows[j]], idx) == [];
    }
  }

  /** A table none of whose rows has index `idx` is its own purge. */
  lemma {:induction false} NoneLeft(rows: seq<Row>, idx: nat)
    requires forall k :: 0 <= k < |rows| ==> rows[k].index != idx
    ensures Purged(rows, idx) == rows
  {
    if |rows| > 0 {
      NoneLeft(rows[1..], idx);
      assert rows == [rows[0]] + rows[1..];
    }
  }
}
