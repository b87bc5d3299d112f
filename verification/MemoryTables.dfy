/** The in-memory tables of src/database/sqliteAdapter.web.ts on the heap: what a transaction copies, and what stays
    shared. The order in which works and writes take effect is in TransactionQueue.dfy. */
module MemoryTables {
  import opened JsNumbers
  import opened OrderedMaps
  import Q = TransactionQueue

  type TableName = Q.TableName
  type RowId = Q.RowId

  datatype Field =
    | Text(text: string)
    | Number(number: int)
    | Null
    | Bytes(data: array<Byte>)

  /** A field as a value: the bytes and not the array that holds them. */
  datatype Value =
    | TextValue(text: string)
    | NumberValue(number: int)
    | NullValue
    | BytesValue(bytes: seq<Byte>)

  type RowValue = map<string, Value>

  type TableValues = Q.Tables<RowValue>

  type Tables = OrderedMap<TableName, OrderedMap<RowId, Row>>

  /** A row is an object that whoever holds it can change. */
  class Row {
    var fields: map<string, Field>

    constructor (fields: map<string, Field>)
      ensures this.fields == fields
    {
      this.fields := fields;
    }
  }

  // ---------- What is stored, and where ----------

  /** The row, and every array in it, is one of the objects. */
  ghost predicate RowIn(r: Row, repr: set<object>)
    reads repr
  {
    r in repr && forall k | k in r.fields :: r.fields[k].Bytes? ==> r.fields[k].data in repr
  }

  ghost function FieldValue(f: Field): Value
    reads if f.Bytes? then {f.data} else {}
  {
    match f
    case Text(t) => TextValue(t)
    case Number(n) => NumberValue(n)
    case Null => NullValue
    case Bytes(a) => BytesValue(a[..])
  }

  ghost function ValueOf(r: Row, repr: set<object>): RowValue
    requires RowIn(r, repr)
    reads repr
  {
    map k | k in r.fields :: FieldValue(r.fields[k])
  }

  ghost predicate RowsIn(rows: OrderedMap<RowId, Row>, repr: set<object>)
    reads repr
  {
    forall id | id in rows.table :: RowIn(rows.table[id], repr)
  }

  ghost function RowValues(rows: OrderedMap<RowId, Row>, repr: set<object>): OrderedMap<RowId, RowValue>
    requires RowsIn(rows, repr)
    reads repr
  {
    OrderedMap(map id | id in rows.table :: ValueOf(rows.table[id], repr), rows.order)
  }

  ghost predicate TablesIn(tables: Tables, repr: set<object>)
    reads repr
  {
    forall t | t in tables.table :: RowsIn(tables.table[t], repr)
  }

  ghost function Contents(tables: Tables, repr: set<object>): TableValues
    requires TablesIn(tables, repr)
    reads repr
  {
    OrderedMap(map t | t in tables.table :: RowValues(tables.table[t], repr), tables.order)
  }

  // ---------- Copying ----------

  method CopyBytes(data: array<Byte>) returns (copy: array<Byte>)
    ensures fresh(copy) && copy[..] == data[..]
  {
    copy := new Byte[data.Length](i requires 0 <= i < data.Length reads data => data[i]);
  }

  /** Byte arrays are copied; every other field is taken over as it is. */
  method CopyRow(r: Row, ghost repr: set<object>) returns (copy: Row, ghost copies: set<object>)
    requires RowIn(r, repr)
    ensures fresh(copies) && RowIn(copy, copies) && ValueOf(copy, copies) == ValueOf(r, repr)
  {
    hide FieldValue;
    ghost var values := ValueOf(r, repr);
    var fields: map<string, Field> := map[];
    var keys := r.fields.Keys;
    copies := {};
    while keys != {}
      invariant fields.Keys == r.fields.Keys - keys && keys <= r.fields.Keys
      invariant fresh(copies) && CopiedFields(fields, copies, values)
      decreases |keys|
    {
      var k :| k in keys;
      keys := keys - {k};
      ghost var before, beforeCopies := fields, copies;
      var field, more := CopyField(r.fields[k], repr);
      fields := fields[k := field];
      copies := copies + more;
      CopiedField(before, beforeCopies, values, k, field, more);
    }
    copy := new Row(fields);
    ghost var data := copies;
    copies := copies + {copy};
    RowOfFields(copy, data, copies, values);
  }

  /** A byte array is copied; any other field is taken over as it is. */
  method CopyField(f: Field, ghost repr: set<object>) returns (copy: Field, ghost copies: set<object>)
    requires f.Bytes? ==> f.data in repr
    ensures fresh(copies) && FieldIn(copy, copies) && FieldValue(copy) == FieldValue(f)
  {
    if f.Bytes? {
      var data := CopyBytes(f.data);
      return Bytes(data), {data};
    }
    return f, {};
  }

  predicate FieldIn(f: Field, copies: set<object>) { f.Bytes? ==> f.data in copies }

  ghost predicate CopiedFields(fields: map<string, Field>, copies: set<object>, values: RowValue)
    reads copies
  {
    forall k | k in fields :: FieldIn(fields[k], copies) && k in values && FieldValue(fields[k]) == values[k]
  }

  lemma CopiedField(fields: map<string, Field>, copies: set<object>, values: RowValue, k: string, field: Field,
                    more: set<object>)
    requires CopiedFields(fields, copies, values)
    requires k in values && FieldIn(field, more) && FieldValue(field) == values[k]
    ensures CopiedFields(fields[k := field], copies + more, values)
  {
    hide FieldValue;
  }

  lemma RowOfFields(r: Row, copies: set<object>, repr: set<object>, values: RowValue)
    requires CopiedFields(r.fields, copies, values) && repr == copies + {r} && r.fields.Keys == values.Keys
    ensures RowIn(r, repr) && ValueOf(r, repr) == values
  {
    hide FieldValue;
  }

  /** A prefix of the rows has been copied, object by object, to new objects. */
  ghost predicate Copied(copy: OrderedMap<RowId, Row>, copies: set<object>, values: map<RowId, RowValue>,
                         order: seq<RowId>)
    reads copies
  {
    && copy.order == order && WellFormed(copy) && RowsIn(copy, copies)
    && forall id | id in copy.table :: id in values && ValueOf(copy.table[id], copies) == values[id]
  }

  method CopyRows(rows: OrderedMap<RowId, Row>, ghost repr: set<object>)
    returns (copy: OrderedMap<RowId, Row>, ghost copies: set<object>)
    requires WellFormed(rows) && RowsIn(rows, repr)
    ensures fresh(copies) && WellFormed(copy) && RowsIn(copy, copies)
    ensures RowValues(copy, copies) == RowValues(rows, repr)
  {
    ghost var values := RowValues(rows, repr).table;
    copy, copies := NoEntries(), {};
    CopiedNothing(values);
    hide Copied, RowIn, ValueOf, WellFormed, RowsIn, RowValues;
    for i := 0 to |rows.order|
      invariant fresh(copies) && Copied(copy, copies, values, rows.order[..i])
    {
      var id := rows.order[i];
      ListedRow(rows, repr, i);
      assert rows.order[..i + 1] == rows.order[..i] + [id];
      ghost var more;
      ghost var before, beforeCopies := copy, copies;
      var row;
      row, more := CopyRow(rows.table[id], repr);
      copy := Set(copy, id, row);
      copies := copies + more;
      CopiedMore(before, beforeCopies, id, row, more, values, rows.order[..i]);
    }
    assert rows.order[..|rows.order|] == rows.order;
    CopiedAll(copy, copies, rows, repr);
  }

  lemma ListedRow(rows: OrderedMap<RowId, Row>, repr: set<object>, i: nat)
    requires WellFormed(rows) && RowsIn(rows, repr) && i < |rows.order|
    ensures var id := rows.order[i];
            && id in rows.table && id !in rows.order[..i] && RowIn(rows.table[id], repr)
            && id in RowValues(rows, repr).table
            && RowValues(rows, repr).table[id] == ValueOf(rows.table[id], repr)
  {
    hide RowIn, ValueOf;
    assert rows.order[i] in rows.order;
  }

  lemma CopiedNothing(values: map<RowId, RowValue>)
    ensures Copied(NoEntries(), {}, values, [])
  {
  }

  lemma CopiedAll(copy: OrderedMap<RowId, Row>, copies: set<object>, rows: OrderedMap<RowId, Row>, repr: set<object>)
    requires WellFormed(rows) && RowsIn(rows, repr) && Copied(copy, copies, RowValues(rows, repr).table, rows.order)
    ensures WellFormed(copy) && RowsIn(copy, copies) && RowValues(copy, copies) == RowValues(rows, repr)
  {
    hide RowIn, ValueOf;
    assert copy.table.Keys == rows.table.Keys;
    assert RowValues(copy, copies).table == RowValues(rows, repr).table;
  }

  lemma CopiedMore(copy: OrderedMap<RowId, Row>, copies: set<object>, id: RowId, row: Row, more: set<object>,
                   values: map<RowId, RowValue>, order: seq<RowId>)
    requires Copied(copy, copies, values, order) && id !in order
    requires RowIn(row, more) && id in values && ValueOf(row, more) == values[id]
    ensures Copied(Set(copy, id, row), copies + more, values, order + [id])
  {
    hide WellFormed;
    SetKeeps(copy, id, row);
    assert id !in copy.table by { InTable(copy, id); }
    forall k | k in Set(copy, id, row).table
      ensures RowIn(Set(copy, id, row).table[k], copies + more)
      ensures k in values && ValueOf(Set(copy, id, row).table[k], copies + more) == values[k]
    {
      if k == id {
        Wider(row, more, copies + more);
      } else {
        Wider(copy.table[k], copies, copies + more);
      }
    }
  }

  lemma InTable(copy: OrderedMap<RowId, Row>, id: RowId)
    requires WellFormed(copy)
    ensures id in copy.table <==> id in copy.order
  {
  }

  lemma Wider(r: Row, repr: set<object>, wider: set<object>)
    requires RowIn(r, repr) && repr <= wider
    ensures RowIn(r, wider) && ValueOf(r, wider) == ValueOf(r, repr)
  {
  }

  /** Every table is well formed, as a JavaScript `Map` always is. */
  ghost predicate Formed(tables: Tables) {
    WellFormed(tables) && forall t | t in tables.table :: WellFormed(tables.table[t])
  }

  ghost predicate CopiedTables(copy: Tables, copies: set<object>, values: map<TableName, OrderedMap<RowId, RowValue>>,
                               order: seq<TableName>)
    reads copies
  {
    && copy.order == order && Formed(copy) && TablesIn(copy, copies)
    && forall t | t in copy.table :: t in values && RowValues(copy.table[t], copies) == values[t]
  }

  /** Every row object and every byte array of the copy is new; the contents are the same. */
  method CloneTables(tables: Tables, ghost repr: set<object>) returns (copy: Tables, ghost copies: set<object>)
    requires Formed(tables) && TablesIn(tables, repr)
    ensures fresh(copies) && Formed(copy) && TablesIn(copy, copies)
    ensures Contents(copy, copies) == Contents(tables, repr)
  {
    ghost var values := Contents(tables, repr).table;
    copy, copies := NoEntries(), {};
    CopiedNoTables(values);
    hide CopiedTables, RowsIn, RowValues, Formed, TablesIn, Contents, WellFormed;
    for i := 0 to |tables.order|
      invariant fresh(copies) && CopiedTables(copy, copies, values, tables.order[..i])
    {
      var t := tables.order[i];
      ListedTable(tables, repr, i);
      assert tables.order[..i + 1] == tables.order[..i] + [t];
      ghost var more;
      ghost var before, beforeCopies := copy, copies;
      var rows;
      rows, more := CopyRows(tables.table[t], repr);
      copy := Set(copy, t, rows);
      copies := copies + more;
      CopiedTablesMore(before, beforeCopies, t, rows, more, values, tables.order[..i]);
    }
    assert tables.order[..|tables.order|] == tables.order;
    CopiedAllTables(copy, copies, tables, repr);
  }

  lemma ListedTable(tables: Tables, repr: set<object>, i: nat)
    requires Formed(tables) && TablesIn(tables, repr) && i < |tables.order|
    ensures var t := tables.order[i];
            && t in tables.table && t !in tables.order[..i] && WellFormed(tables.table[t])
            && RowsIn(tables.table[t], repr) && t in Contents(tables, repr).table
            && Contents(tables, repr).table[t] == RowValues(tables.table[t], repr)
  {
    hide RowsIn, RowValues;
    assert tables.order[i] in tables.order;
  }

  lemma CopiedNoTables(values: map<TableName, OrderedMap<RowId, RowValue>>)
    ensures CopiedTables(NoEntries(), {}, values, [])
  {
  }

  lemma CopiedAllTables(copy: Tables, copies: set<object>, tables: Tables, repr: set<object>)
    requires Formed(tables) && TablesIn(tables, repr)
    requires CopiedTables(copy, copies, Contents(tables, repr).table, tables.order)
    ensures Formed(copy) && TablesIn(copy, copies) && Contents(copy, copies) == Contents(tables, repr)
  {
    hide RowsIn, RowValues;
    assert copy.table.Keys == tables.table.Keys;
    assert Contents(copy, copies).table == Contents(tables, repr).table;
  }

  lemma CopiedTablesMore(copy: Tables, copies: set<object>, t: TableName, rows: OrderedMap<RowId, Row>,
                         more: set<object>, values: map<TableName, OrderedMap<RowId, RowValue>>,
                         order: seq<TableName>)
    requires CopiedTables(copy, copies, values, order) && t !in order && WellFormed(rows)
    requires RowsIn(rows, more) && t in values && RowValues(rows, more) == values[t]
    ensures CopiedTables(Set(copy, t, rows), copies + more, values, order + [t])
  {
    hide RowsIn, RowValues;
    SetKeeps(copy, t, rows);
    forall k | k in Set(copy, t, rows).table
      ensures RowsIn(Set(copy, t, rows).table[k], copies + more)
      ensures k in values && RowValues(Set(copy, t, rows).table[k], copies + more) == values[k]
    {
      if k == t {
        WiderRows(rows, more, copies + more);
      } else {
        WiderRows(copy.table[k], copies, copies + more);
      }
    }
  }

  lemma WiderRows(rows: OrderedMap<RowId, Row>, repr: set<object>, wider: set<object>)
    requires RowsIn(rows, repr) && repr <= wider
    ensures RowsIn(rows, wider) && RowValues(rows, wider) == RowValues(rows, repr)
  {
    forall id | id in rows.table
      ensures RowIn(rows.table[id], wider) && ValueOf(rows.table[id], wider) == ValueOf(rows.table[id], repr)
    {
      Wider(rows.table[id], repr, wider);
    }
  }

  lemma WiderTables(tables: Tables, repr: set<object>, wider: set<object>)
    requires TablesIn(tables, repr) && repr <= wider
    ensures TablesIn(tables, wider) && Contents(tables, wider) == Contents(tables, repr)
  {
    hide RowsIn, RowValues;
    forall t | t in tables.table
      ensures RowsIn(tables.table[t], wider) && RowValues(tables.table[t], wider) == RowValues(tables.table[t], repr)
    {
      WiderRows(tables.table[t], repr, wider);
    }
  }

  // ---------- Operations on contents ----------

  function PutOf(t: TableName, id: RowId, v: RowValue): Q.Write<RowValue> { Q.Write(t, rows => Set(rows, id, v)) }

  function DeleteOf(t: TableName, id: RowId): Q.Write<RowValue> { Q.Write(t, rows => Delete(rows, id)) }

  function Upsert(c: TableValues, t: TableName, id: RowId, v: RowValue): TableValues { Q.Whole(c, PutOf(t, id, v)) }

  function DeleteById(c: TableValues, t: TableName, id: RowId): TableValues { Q.Whole(c, DeleteOf(t, id)) }

  /** An upsert leaves the row under its id, and a deletion none; other rows and other tables stay. */
  lemma WritesAre(c: TableValues, t: TableName, id: RowId, v: RowValue)
    ensures var d := Upsert(c, t, id, v);
            && t in d.table && id in d.table[t].table && d.table[t].table[id] == v
            && (forall j | j != id :: j in d.table[t].table <==> j in Q.RowsOf(c, t).table)
            && (forall j | j != id && j in d.table[t].table :: d.table[t].table[j] == Q.RowsOf(c, t).table[j])
            && forall u | u != t :: (u in d.table <==> u in c.table) && Q.RowsOf(d, u) == Q.RowsOf(c, u)
    ensures var d := DeleteById(c, t, id);
            && t in d.table && d.table[t].table == Q.RowsOf(c, t).table - {id}
            && forall u | u != t :: (u in d.table <==> u in c.table) && Q.RowsOf(d, u) == Q.RowsOf(c, u)
  {
    Q.WholeRows(c, PutOf(t, id, v));
    Q.WholeRows(c, DeleteOf(t, id));
    hide Q.Whole;
  }

  /** What a work does with the backend it is given. */
  datatype Operation =
    | PutRow(table: TableName, id: RowId, row: Row)
    | DeleteRow(table: TableName, id: RowId)
    | Throw

  /** The rows of the work and their arrays are among the objects it holds. */
  ghost predicate WorkIn(work: seq<Operation>, held: set<object>)
    reads held
  {
    forall op <- work :: op.PutRow? ==> RowIn(op.row, held)
  }

  predicate Throws(work: seq<Operation>) { Throw in work }

  ghost function Apply(c: TableValues, work: seq<Operation>, held: set<object>): TableValues
    requires WorkIn(work, held)
    reads held
  {
    if work == [] then c else ApplyOne(Apply(c, work[..|work| - 1], held), work[|work| - 1], held)
  }

  ghost function ApplyOne(c: TableValues, op: Operation, held: set<object>): TableValues
    requires op.PutRow? ==> RowIn(op.row, held)
    reads held
  {
    match op
    case PutRow(t, id, row) => Upsert(c, t, id, ValueOf(row, held))
    case DeleteRow(t, id) => DeleteById(c, t, id)
    case Throw => c
  }

  /** Each operation of a work: a stored row is under its id, a deleted one is not, and the rest stays. */
  lemma OperationIs(c: TableValues, op: Operation, held: set<object>)
    requires op.PutRow? ==> RowIn(op.row, held)
    ensures var d := ApplyOne(c, op, held);
            && (op.Throw? ==> d == c)
            && (!op.Throw? ==>
                  && op.table in d.table
                  && (op.PutRow? ==> op.id in d.table[op.table].table
                                     && d.table[op.table].table[op.id] == ValueOf(op.row, held))
                  && (op.DeleteRow? ==> op.id !in d.table[op.table].table)
                  && (forall j | j != op.id :: j in d.table[op.table].table <==> j in Q.RowsOf(c, op.table).table)
                  && (forall j | j != op.id && j in d.table[op.table].table ::
                        d.table[op.table].table[j] == Q.RowsOf(c, op.table).table[j])
                  && (forall t | t != op.table :: Q.RowsOf(d, t) == Q.RowsOf(c, t)))
  {
    if !op.Throw? {
      WritesAre(c, op.table, op.id, if op.PutRow? then ValueOf(op.row, held) else map[]);
    }
    hide Upsert, DeleteById, ValueOf;
  }

  lemma ApplyNone(c: TableValues, held: set<object>)
    ensures WorkIn([], held) && Apply(c, [], held) == c && !Throws([])
  {
  }

  lemma ApplyMore(c: TableValues, work: seq<Operation>, i: nat, held: set<object>)
    requires WorkIn(work, held) && i < |work|
    ensures WorkIn(work[..i], held) && WorkIn(work[..i + 1], held) && (work[i].PutRow? ==> RowIn(work[i].row, held))
    ensures Apply(c, work[..i + 1], held) == ApplyOne(Apply(c, work[..i], held), work[i], held)
    ensures !Throws(work[..i]) && !work[i].Throw? ==> !Throws(work[..i + 1])
  {
    hide ApplyOne, RowIn;
    assert work[i] in work && work[..i + 1] == work[..i] + [work[i]] && work[..i + 1][..i] == work[..i];
  }

  class MemoryTableBackend {
    var tables: Tables
    ghost var Repr: set<object>  // the rows stored here and their arrays

    ghost predicate Valid()
      reads this, Repr
    {
      this !in Repr && Formed(tables) && TablesIn(tables, Repr)
    }

    ghost function Stored(): TableValues
      requires Valid()
      reads this, Repr
    {
      Contents(tables, Repr)
    }

    constructor (tables: Tables, ghost repr: set<object>)
      requires Formed(tables) && TablesIn(tables, repr)
      ensures Valid() && Repr == repr && Stored() == Contents(tables, repr)
    {
      this.tables, Repr := tables, repr;
    }

    /** Tables are made on first use. */
    method EnsureTableExists(t: TableName)
      requires Valid()
      modifies this
      ensures Valid() && Repr == old(Repr) && t in tables.table && Stored() == Q.EnsureTable(old(Stored()), t)
    {
      hide Formed, TablesIn, Contents, Q.EnsureTable;
      EnsureIn(tables, t, Repr);
      if t !in tables.table {
        tables := Set(tables, t, NoEntries());
      }
    }

    /** The second half of a put: the row object itself is stored, not a copy of it, if the table is there. */
    method StorePut(t: TableName, id: RowId, row: Row, ghost held: set<object>)
      requires Valid() && RowIn(row, held) && this !in held
      modifies this
      ensures Valid() && Repr == old(Repr) + held && tables.table.Keys == old(tables).table.Keys
      ensures Stored() == Q.StoreRows(old(Stored()), PutOf(t, id, ValueOf(row, held)))
      ensures t in tables.table ==> id in tables.table[t].table && tables.table[t].table[id] == row
    {
      hide Formed, TablesIn, Contents, RowIn, ValueOf, Q.RowsOf;
      WiderTables(tables, Repr, Repr + held);
      Wider(row, held, Repr + held);
      TableKeys(tables, Repr + held);
      if t in tables.table {
        PutIn(tables, t, id, row, Repr + held);
        tables := Set(tables, t, Set(tables.table[t], id, row));
      }
      Repr := Repr + held;
    }

    method StoreDelete(t: TableName, id: RowId)
      requires Valid()
      modifies this
      ensures Valid() && Repr == old(Repr) && Stored() == Q.StoreRows(old(Stored()), DeleteOf(t, id))
    {
      hide Formed, TablesIn, Contents, Q.RowsOf, Delete;
      TableKeys(tables, Repr);
      if t in tables.table {
        DeleteIn(tables, t, id, Repr);
        tables := Set(tables, t, Delete(tables.table[t], id));
      }
    }

    /** A put that nothing comes between: the table is made, and the row stored in it. */
    method Put(t: TableName, id: RowId, row: Row, ghost held: set<object>)
      requires Valid() && RowIn(row, held) && this !in held
      modifies this
      ensures Valid() && Repr == old(Repr) + held
      ensures Stored() == Upsert(old(Stored()), t, id, ValueOf(row, held))
      ensures t in tables.table && id in tables.table[t].table && tables.table[t].table[id] == row
    {
      hide Formed, TablesIn, Contents, RowIn, ValueOf, Q.EnsureTable, Q.StoreRows;
      EnsureTableExists(t);
      StorePut(t, id, row, held);
    }

    method Remove(t: TableName, id: RowId)
      requires Valid()
      modifies this
      ensures Valid() && Repr == old(Repr) && Stored() == DeleteById(old(Stored()), t, id)
    {
      hide Formed, TablesIn, Contents, Q.EnsureTable, Q.StoreRows;
      EnsureTableExists(t);
      StoreDelete(t, id);
    }

    method Perform(op: Operation, ghost held: set<object>)
      requires Valid() && !op.Throw? && this !in held && (op.PutRow? ==> RowIn(op.row, held))
      modifies this
      ensures Valid() && Repr <= old(Repr) + held && Stored() == ApplyOne(old(Stored()), op, held)
    {
      hide Formed, TablesIn, Contents, RowIn, ValueOf, Upsert, DeleteById;
      match op {
        case PutRow(t, id, row) => Put(t, id, row, held);
        case DeleteRow(t, id) => Remove(t, id);
      }
    }

    /** The backend a work is given: the same contents in objects of its own. */
    method Begin() returns (transaction: MemoryTableBackend)
      requires Valid()
      ensures fresh(transaction) && fresh(transaction.Repr) && transaction.Valid() && transaction.Stored() == Stored()
    {
      hide Formed, TablesIn, Contents;
      ghost var copies;
      var copy;
      copy, copies := CloneTables(tables, Repr);
      transaction := new MemoryTableBackend(copy, copies);
    }

    /** Takes over a copy of what the work has stored. */
    method Commit(transaction: MemoryTableBackend)
      requires transaction.Valid()
      modifies this
      ensures Valid() && fresh(Repr) && Stored() == old(transaction.Stored())
    {
      hide Formed, TablesIn, Contents;
      tables, Repr := CloneTables(transaction.tables, transaction.Repr);
    }

    /** Runs the work on a transaction's backend and commits it unless the work throws. All rows stored
        afterwards are new objects: none is a row the work put in or could have read. */
    method WithTransaction(work: seq<Operation>, ghost held: set<object>)
      returns (ok: bool, transaction: MemoryTableBackend)
      requires Valid() && WorkIn(work, held) && this !in held
      modifies this
      ensures Valid() && (ok <==> !Throws(work)) && fresh(transaction)
      ensures ok ==> Stored() == Apply(old(Stored()), work, held) && fresh(Repr)
      ensures ok ==> Repr !! transaction.Repr && Repr !! held
      ensures !ok ==> tables == old(tables) && Repr == old(Repr) && Stored() == old(Stored())
    {
      hide Formed, TablesIn, Contents, RowIn, ValueOf, Apply, ApplyOne, WorkIn;
      transaction := Begin();
      ghost var start := Stored();
      ApplyNone(start, held);
      for i := 0 to |work|
        invariant fresh(transaction) && transaction.Valid() && transaction != this && !Throws(work[..i])
        invariant tables == old(tables) && Repr == old(Repr)
        invariant WorkIn(work[..i], held) && transaction.Stored() == Apply(start, work[..i], held)
      {
        if work[i].Throw? {
          assert work[i] in work;
          return false, transaction;
        }
        ApplyMore(start, work, i, held);
        transaction.Perform(work[i], held);
      }
      assert work[..|work|] == work;
      Commit(transaction);
      ok := true;
    }
  }

  lemma EnsureIn(tables: Tables, t: TableName, repr: set<object>)
    requires Formed(tables) && TablesIn(tables, repr)
    ensures Q.EnsureTable(Contents(tables, repr), t) ==
              if t in tables.table then Contents(tables, repr) else Set(Contents(tables, repr), t, NoEntries())
    ensures var after: Tables := if t in tables.table then tables else Set(tables, t, NoEntries());
            && t in after.table && Formed(after) && TablesIn(after, repr)
            && Contents(after, repr) == Q.EnsureTable(Contents(tables, repr), t)
  {
    if t !in tables.table {
      NoRows(repr);
      AddTable(tables, t, NoEntries(), repr);
    }
  }

  lemma NoRows(repr: set<object>)
    ensures var none: OrderedMap<RowId, Row> := NoEntries();
            WellFormed(none) && RowsIn(none, repr) && RowValues(none, repr) == NoEntries()
  {
    var none: OrderedMap<RowId, Row> := NoEntries();
    assert RowValues(none, repr).table == map[];
  }

  lemma AddTable(tables: Tables, t: TableName, rows: OrderedMap<RowId, Row>, repr: set<object>)
    requires Formed(tables) && TablesIn(tables, repr) && t !in tables.table && WellFormed(rows) && RowsIn(rows, repr)
    ensures Formed(Set(tables, t, rows)) && TablesIn(Set(tables, t, rows), repr)
    ensures Contents(Set(tables, t, rows), repr) == Set(Contents(tables, repr), t, RowValues(rows, repr))
  {
    hide RowsIn, RowValues, WellFormed;
    SetKeeps(tables, t, rows);
  }

  lemma TableKeys(tables: Tables, repr: set<object>)
    requires TablesIn(tables, repr)
    ensures Contents(tables, repr).table.Keys == tables.table.Keys
    ensures forall t | t in tables.table :: Contents(tables, repr).table[t] == Q.RowsOf(Contents(tables, repr), t)
  {
  }

  lemma SetRow(rows: OrderedMap<RowId, Row>, id: RowId, row: Row, repr: set<object>)
    requires RowsIn(rows, repr) && RowIn(row, repr)
    ensures RowsIn(Set(rows, id, row), repr)
    ensures RowValues(Set(rows, id, row), repr) == Set(RowValues(rows, repr), id, ValueOf(row, repr))
  {
    hide RowIn, ValueOf;
  }

  lemma PutIn(tables: Tables, t: TableName, id: RowId, row: Row, repr: set<object>)
    requires Formed(tables) && TablesIn(tables, repr) && t in tables.table && RowIn(row, repr)
    ensures var c, after := Contents(tables, repr), Set(tables, t, Set(tables.table[t], id, row));
            && Formed(after) && TablesIn(after, repr)
            && Contents(after, repr) == Set(c, t, Set(Q.RowsOf(c, t), id, ValueOf(row, repr)))
  {
    TableAt(tables, t, repr);
    hide TablesIn, Contents, Formed, Q.RowsOf, RowIn, ValueOf;
    SetKeeps(tables.table[t], id, row);
    var rows := Set(tables.table[t], id, row);
    SetRow(tables.table[t], id, row, repr);
    hide RowsIn, RowValues, WellFormed;
    ReplaceTable(tables, t, rows, repr);
  }

  lemma DeleteIn(tables: Tables, t: TableName, id: RowId, repr: set<object>)
    requires Formed(tables) && TablesIn(tables, repr) && t in tables.table
    ensures var c, after := Contents(tables, repr), Set(tables, t, Delete(tables.table[t], id));
            Formed(after) && TablesIn(after, repr) && Contents(after, repr) == Set(c, t, Delete(Q.RowsOf(c, t), id))
  {
    TableAt(tables, t, repr);
    hide TablesIn, Contents, Formed, Q.RowsOf;
    DeleteKeeps(tables.table[t], id);
    var rows := Delete(tables.table[t], id);
    assert RowsIn(rows, repr);
    assert RowValues(rows, repr) == Delete(RowValues(tables.table[t], repr), id);
    ReplaceTable(tables, t, rows, repr);
  }

  lemma TableAt(tables: Tables, t: TableName, repr: set<object>)
    requires Formed(tables) && TablesIn(tables, repr) && t in tables.table
    ensures WellFormed(tables.table[t]) && RowsIn(tables.table[t], repr)
    ensures Q.RowsOf(Contents(tables, repr), t) == RowValues(tables.table[t], repr)
  {
  }

  lemma ReplaceTable(tables: Tables, t: TableName, rows: OrderedMap<RowId, Row>, repr: set<object>)
    requires Formed(tables) && TablesIn(tables, repr) && t in tables.table && WellFormed(rows) && RowsIn(rows, repr)
    ensures Formed(Set(tables, t, rows)) && TablesIn(Set(tables, t, rows), repr)
    ensures Contents(Set(tables, t, rows), repr) == Set(Contents(tables, repr), t, RowValues(rows, repr))
  {
    hide RowsIn, RowValues;
    SetKeeps(tables, t, rows);
  }

  // ---------- Who can still change what is stored ----------

  /** After a commit, a work that overwrites a byte array it put in changes nothing that is stored. */
  method OverwriteAfterCommit(backend: MemoryTableBackend, work: seq<Operation>, ghost held: set<object>,
                              data: array<Byte>, i: nat, b: Byte)
    requires backend.Valid() && WorkIn(work, held) && backend !in held && !Throws(work)
    requires data in held && i < data.Length
    modifies backend, data
    ensures backend.Valid() && backend.Stored() == old(Apply(backend.Stored(), work, held))
  {
    hide Formed, TablesIn, Contents, RowIn, ValueOf, Apply;
    var ok, transaction := backend.WithTransaction(work, held);
    data[i] := b;
  }

  /** A row stored without a transaction stays shared: overwriting its bytes changes the stored row. */
  method OverwriteAfterPut(backend: MemoryTableBackend, t: TableName, id: RowId, row: Row, key: string, i: nat, b: Byte,
                           ghost held: set<object>)
    requires backend.Valid() && RowIn(row, held) && backend !in held
    requires key in row.fields && row.fields[key].Bytes? && i < row.fields[key].data.Length
    modifies backend, row.fields[key].data
    ensures backend.Valid() && t in backend.Stored().table && id in backend.Stored().table[t].table
    ensures var stored := backend.Stored().table[t].table[id];
            key in stored && stored[key] == BytesValue(old(row.fields[key].data[..])[i := b])
  {
    hide Formed, Contents, Upsert;
    backend.Put(t, id, row, held);
    row.fields[key].data[i] := b;
    StoredAt(backend.tables, t, id, backend.Repr);
  }

  lemma StoredAt(tables: Tables, t: TableName, id: RowId, repr: set<object>)
    requires TablesIn(tables, repr) && t in tables.table && id in tables.table[t].table
    ensures var c := Contents(tables, repr);
            && t in c.table && id in c.table[t].table && RowIn(tables.table[t].table[id], repr)
            && c.table[t].table[id] == ValueOf(tables.table[t].table[id], repr)
  {
  }
}
