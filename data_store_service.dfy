/** The data-store service: user tables ("data stores") kept per project, the name checks made
    when one is created or renamed, and the validation of rows against a store's column schema
    before they are inserted or upserted.

    The repositories the service consults are an in-memory map from store id to store. */
module DataStoreService {
  import opened Wrappers
  import opened Text

  // Columns and rows

  datatype ColumnType = BooleanType | DateType | StringType | NumberType | OtherType(typeName: string)

  datatype Column = Column(name: string, columnType: ColumnType)

  /** A cell of a row: `null`, or a value of one of the JavaScript types a column can hold. A
      date is its time value (milliseconds since the epoch). */
  datatype Cell = Null | BooleanCell(b: bool) | DateCell(time: int) | StringCell(s: string) | NumberCell(n: real)

  datatype Entry = Entry(key: string, cell: Cell)

  /** A row: its keys, in the order `Object.keys` lists them, with their cells. */
  type Row = seq<Entry>

  datatype ValidationError =
    | NoColumns
    | MismatchedKeyCount
    | UnknownColumnName
    | TypeMismatch(value: Cell, expected: ColumnType)

  function KeysOf(row: Row): (r: seq<string>)
    ensures |r| == |row| && forall j :: 0 <= j < |row| ==> r[j] == row[j].key
  {
    if row == [] then [] else [row[0].key] + KeysOf(row[1..])
  }

  /** The names of the columns. */
  function ColumnNames(columns: seq<Column>): (r: set<string>)
    ensures forall k :: 0 <= k < |columns| ==> columns[k].name in r
  {
    if columns == [] then {} else ColumnNames(columns[..|columns| - 1]) + {columns[|columns| - 1].name}
  }

  /** The type of the column called `name`; when two columns share a name, the later one wins,
      as when a `Map` is built from a list of pairs. */
  function ColumnTypeOf(columns: seq<Column>, name: string): (r: Option<ColumnType>)
    ensures r.Some? <==> name in ColumnNames(columns)
  {
    if columns == [] then None
    else if columns[|columns| - 1].name == name then Some(columns[|columns| - 1].columnType)
    else ColumnTypeOf(columns[..|columns| - 1], name)
  }

  // What the validator accepts

  /** A cell fits a column type: `null` fits every type, a type other than the four known ones
      accepts anything, and otherwise the cell has that JavaScript type. */
  predicate CellMatches(t: ColumnType, c: Cell) {
    c.Null? ||
    match t
    case BooleanType => c.BooleanCell?
    case DateType => c.DateCell?
    case StringType => c.StringCell?
    case NumberType => c.NumberCell?
    case OtherType(_) => true
  }

  /** An entry's key names a column, and its cell fits that column's type. */
  predicate EntryConforms(e: Entry, columns: seq<Column>) {
    ColumnTypeOf(columns, e.key).Some? && CellMatches(ColumnTypeOf(columns, e.key).value, e.cell)
  }

  /** A row fits the schema: as many keys as there are columns, every key a column name, and
      every cell fitting its column's type. */
  predicate RowConforms(row: Row, columns: seq<Column>) {
    |row| == |columns| && forall j :: 0 <= j < |row| ==> EntryConforms(row[j], columns)
  }

  /** A cell as it is stored: a date in a date column becomes its ISO-8601 text. */
  function StoredCell(t: ColumnType, c: Cell, toIso: int -> string): Cell {
    if t == DateType && c.DateCell? then StringCell(toIso(c.time)) else c
  }

  function StoredEntry(e: Entry, columns: seq<Column>, toIso: int -> string): Entry {
    match ColumnTypeOf(columns, e.key)
    case Some(t) => Entry(e.key, StoredCell(t, e.cell, toIso))
    case None => e
  }

  /** A row as it is stored once it has passed: each entry stored. */
  function StoredRow(row: Row, columns: seq<Column>, toIso: int -> string): (r: Row)
    ensures |r| == |row| && forall j :: 0 <= j < |row| ==> r[j] == StoredEntry(row[j], columns, toIso)
  {
    seq(|row|, j requires 0 <= j < |row| => StoredEntry(row[j], columns, toIso))
  }

  // The validator, step by step

  /** The check of one cell against its column's type. */
  function CheckCell(t: ColumnType, c: Cell, toIso: int -> string): (r: Result<Cell, ValidationError>)
    ensures r.Success? <==> CellMatches(t, c)
    ensures r.Success? ==> r.value == StoredCell(t, c, toIso)
    ensures r.Failure? ==> r.error == TypeMismatch(c, t)
  {
    if c.Null? then Success(c)
    else
      match t
      case BooleanType => if c.BooleanCell? then Success(c) else Failure(TypeMismatch(c, t))
      case DateType => if c.DateCell? then Success(StringCell(toIso(c.time))) else Failure(TypeMismatch(c, t))
      case StringType => if c.StringCell? then Success(c) else Failure(TypeMismatch(c, t))
      case NumberType => if c.NumberCell? then Success(c) else Failure(TypeMismatch(c, t))
      case OtherType(_) => Success(c)
  }

  /** Checking the keys of `row` from index `j` on, storing each converted cell as soon as it
      is checked: the row as it is left, and the error that stopped the check, if any. */
  function ConvertFrom(row: Row, j: nat, columns: seq<Column>, toIso: int -> string): (r: (Row, Option<ValidationError>))
    requires j <= |row|
    ensures |r.0| == |row| && KeysOf(r.0) == KeysOf(row)
    decreases |row| - j
  {
    if j == |row| then (row, None)
    else if row[j].key !in ColumnNames(columns) then (row, Some(UnknownColumnName))
    else
      match CheckCell(ColumnTypeOf(columns, row[j].key).value, row[j].cell, toIso)
      case Failure(e) => (row, Some(e))
      case Success(c) => ConvertFrom(row[j := Entry(row[j].key, c)], j + 1, columns, toIso)
  }

  /** What is left after the check of row `i` ended with `converted`. */
  function AfterRow(rows: seq<Row>, i: nat, converted: (Row, Option<ValidationError>), columns: seq<Column>, toIso: int -> string): (r: (seq<Row>, Option<ValidationError>))
    requires i < |rows| && |converted.0| == |rows[i]|
    ensures |r.0| == |rows|
    decreases |rows| - i, 0
  {
    if converted.1.Some? then (rows[i := converted.0], converted.1)
    else ValidateFrom(rows[i := converted.0], i + 1, columns, toIso)
  }

  /** Checking the rows from index `i` on. */
  function ValidateFrom(rows: seq<Row>, i: nat, columns: seq<Column>, toIso: int -> string): (r: (seq<Row>, Option<ValidationError>))
    requires i <= |rows|
    ensures |r.0| == |rows|
    decreases |rows| - i, 1
  {
    if i == |rows| then (rows, None)
    else if |rows[i]| != |columns| then (rows, Some(MismatchedKeyCount))
    else AfterRow(rows, i, ConvertFrom(rows[i], 0, columns, toIso), columns, toIso)
  }

  /** The whole check: the rows as they are left, and the error, if any. */
  function ValidateRowsSpec(rows: seq<Row>, columns: seq<Column>, toIso: int -> string): (seq<Row>, Option<ValidationError>) {
    if |columns| == 0 then (rows, Some(NoColumns)) else ValidateFrom(rows, 0, columns, toIso)
  }

  // What the validator promises

  /** A row's check from `j` on succeeds exactly when every entry from `j` on conforms. */
  lemma {:induction false} ConvertFromPasses(row: Row, j: nat, columns: seq<Column>, toIso: int -> string)
    requires j <= |row|
    ensures ConvertFrom(row, j, columns, toIso).1.None? <==> forall k :: j <= k < |row| ==> EntryConforms(row[k], columns)
    decreases |row| - j
  {
    if j < |row| && EntryConforms(row[j], columns) {
      var c := StoredCell(ColumnTypeOf(columns, row[j].key).value, row[j].cell, toIso);
      ConvertFromPasses(row[j := Entry(row[j].key, c)], j + 1, columns, toIso);
    }
  }

  /** When it succeeds, the entries before `j` are kept and those from `j` on are stored. */
  lemma {:induction false} ConvertFromStores(row: Row, j: nat, columns: seq<Column>, toIso: int -> string)
    requires j <= |row|
    requires forall k :: j <= k < |row| ==> EntryConforms(row[k], columns)
    ensures forall k :: 0 <= k < j ==> ConvertFrom(row, j, columns, toIso).0[k] == row[k]
    ensures forall k :: j <= k < |row| ==> ConvertFrom(row, j, columns, toIso).0[k] == StoredEntry(row[k], columns, toIso)
    decreases |row| - j
  {
    if j < |row| {
      var c := StoredCell(ColumnTypeOf(columns, row[j].key).value, row[j].cell, toIso);
      ConvertFromStores(row[j := Entry(row[j].key, c)], j + 1, columns, toIso);
    }
  }

  /** When a row's check fails, it fails at the first entry that does not conform: with
      "unknown column name" when its key is not a column, and otherwise with a type mismatch
      naming the cell and the column's type. */
  lemma {:induction false} ConvertFromError(row: Row, j: nat, columns: seq<Column>, toIso: int -> string) returns (bad: nat)
    requires j <= |row| && ConvertFrom(row, j, columns, toIso).1.Some?
    ensures j <= bad < |row| && !EntryConforms(row[bad], columns)
    ensures forall k :: j <= k < bad ==> EntryConforms(row[k], columns)
    ensures row[bad].key !in ColumnNames(columns) ==> ConvertFrom(row, j, columns, toIso).1 == Some(UnknownColumnName)
    ensures row[bad].key in ColumnNames(columns) ==>
              ConvertFrom(row, j, columns, toIso).1 == Some(TypeMismatch(row[bad].cell, ColumnTypeOf(columns, row[bad].key).value))
    decreases |row| - j
  {
    if EntryConforms(row[j], columns) {
      var next := row[j := StoredEntry(row[j], columns, toIso)];
      bad := ConvertFromError(next, j + 1, columns, toIso);
      forall k | j < k < |row|
        ensures next[k] == row[k]
      {
      }
    } else {
      bad := j;
    }
  }

  /** A row that passes is stored with its dates converted; whether it passes is `RowConforms`. */
  lemma ConvertRowOutcome(row: Row, columns: seq<Column>, toIso: int -> string)
    requires |row| == |columns|
    ensures ConvertFrom(row, 0, columns, toIso).1.None? <==> RowConforms(row, columns)
    ensures RowConforms(row, columns) ==> ConvertFrom(row, 0, columns, toIso).0 == StoredRow(row, columns, toIso)
  {
    ConvertFromPasses(row, 0, columns, toIso);
    if RowConforms(row, columns) {
      ConvertFromStores(row, 0, columns, toIso);
    }
  }

  /** Checking rows from `i` on: the rows before `i` and the keys of every row are untouched,
      and the check passes exactly when every row from `i` on conforms, storing each converted. */
  lemma {:induction false} ValidateFromOutcome(rows: seq<Row>, i: nat, columns: seq<Column>, toIso: int -> string)
    requires i <= |rows|
    ensures |ValidateFrom(rows, i, columns, toIso).0| == |rows|
    ensures forall k :: 0 <= k < i ==> ValidateFrom(rows, i, columns, toIso).0[k] == rows[k]
    ensures forall k :: 0 <= k < |rows| ==> KeysOf(ValidateFrom(rows, i, columns, toIso).0[k]) == KeysOf(rows[k])
    ensures ValidateFrom(rows, i, columns, toIso).1.None? <==> forall k :: i <= k < |rows| ==> RowConforms(rows[k], columns)
    ensures ValidateFrom(rows, i, columns, toIso).1.None? ==>
              forall k :: i <= k < |rows| ==> ValidateFrom(rows, i, columns, toIso).0[k] == StoredRow(rows[k], columns, toIso)
    decreases |rows| - i
  {
    if i < |rows| && |rows[i]| == |columns| {
      var converted := ConvertFrom(rows[i], 0, columns, toIso);
      ConvertRowOutcome(rows[i], columns, toIso);
      if converted.1.None? {
        ValidateFromOutcome(rows[i := converted.0], i + 1, columns, toIso);
      }
    }
  }

  /** The validator passes exactly when the store has columns and every row conforms to them;
      then every row is stored with its date cells converted to ISO text. */
  lemma ValidateRowsAccepts(rows: seq<Row>, columns: seq<Column>, toIso: int -> string)
    ensures ValidateRowsSpec(rows, columns, toIso).1.None? <==>
              |columns| > 0 && forall k :: 0 <= k < |rows| ==> RowConforms(rows[k], columns)
    ensures ValidateRowsSpec(rows, columns, toIso).1.None? ==>
              forall k :: 0 <= k < |rows| ==> ValidateRowsSpec(rows, columns, toIso).0[k] == StoredRow(rows[k], columns, toIso)
    ensures |columns| == 0 ==> ValidateRowsSpec(rows, columns, toIso) == (rows, Some(NoColumns))
  {
    if |columns| > 0 {
      ValidateFromOutcome(rows, 0, columns, toIso);
    }
  }

  /** The validator never adds, removes or renames a key, whatever its outcome. */
  lemma ValidateRowsKeepsKeys(rows: seq<Row>, columns: seq<Column>, toIso: int -> string)
    ensures |ValidateRowsSpec(rows, columns, toIso).0| == |rows|
    ensures forall k :: 0 <= k < |rows| ==> KeysOf(ValidateRowsSpec(rows, columns, toIso).0[k]) == KeysOf(rows[k])
  {
    if |columns| > 0 {
      ValidateFromOutcome(rows, 0, columns, toIso);
    }
  }

  /** Validation is not all-or-nothing: when it fails at row `i`, the rows before `i` are left
      converted, and the rows after `i` untouched. */
  lemma {:induction false} ValidateFromFailure(rows: seq<Row>, i: nat, columns: seq<Column>, toIso: int -> string) returns (failed: nat)
    requires i <= |rows|
    requires ValidateFrom(rows, i, columns, toIso).1.Some?
    ensures i <= failed < |rows| && !RowConforms(rows[failed], columns)
    ensures forall k :: i <= k < failed ==> RowConforms(rows[k], columns)
    ensures forall k :: i <= k < failed ==> ValidateFrom(rows, i, columns, toIso).0[k] == StoredRow(rows[k], columns, toIso)
    ensures forall k :: failed < k < |rows| ==> ValidateFrom(rows, i, columns, toIso).0[k] == rows[k]
    ensures ValidateFrom(rows, i, columns, toIso).1 ==
              if |rows[failed]| != |columns| then Some(MismatchedKeyCount) else ConvertFrom(rows[failed], 0, columns, toIso).1
    decreases |rows| - i
  {
    if |rows[i]| != |columns| {
      failed := i;
    } else {
      var converted := ConvertFrom(rows[i], 0, columns, toIso);
      ConvertRowOutcome(rows[i], columns, toIso);
      if converted.1.Some? {
        failed := i;
      } else {
        var next := rows[i := converted.0];
        failed := ValidateFromFailure(next, i + 1, columns, toIso);
        ValidateFromOutcome(next, i + 1, columns, toIso);
        forall k | i < k < |rows|
          ensures next[k] == rows[k]
        {
        }
      }
    }
  }

  // The service

  datatype DataStore = DataStore(id: string, projectId: string, name: string, columns: seq<Column>)

  datatype ServiceError = NameAlreadyExists(name: string) | EmptyName | NoSuchDataStore

  /** Some store of `projectId` is called `name`. */
  predicate NameInProject(stores: map<string, DataStore>, projectId: string, name: string) {
    exists id :: id in stores && stores[id].projectId == projectId && stores[id].name == name
  }

  /** Each store is filed under its own id, and no two stores of one project share a name. */
  ghost predicate StoresValid(stores: map<string, DataStore>) {
    && (forall id :: id in stores ==> stores[id].id == id)
    && (forall a, b :: a in stores && b in stores && a != b && stores[a].projectId == stores[b].projectId
          ==> stores[a].name != stores[b].name)
  }

  /** The outcome of a rename: the trimmed name must be non-empty, the store must exist, and no
      store of its project may have the new name yet, the renamed store included. */
  function RenameOutcome(stores: map<string, DataStore>, id: string, newName: string): Result<DataStore, ServiceError> {
    var name := Trim(newName);
    if name == [] then Failure(EmptyName)
    else if id !in stores then Failure(NoSuchDataStore)
    else if NameInProject(stores, stores[id].projectId, name) then Failure(NameAlreadyExists(name))
    else Success(stores[id].(name := name))
  }

  /** A rename that goes through changes the name and nothing else, and keeps names unique per
      project; a rename to the store's current name is refused. */
  lemma RenameKeepsValid(stores: map<string, DataStore>, id: string, newName: string)
    requires StoresValid(stores)
    ensures RenameOutcome(stores, id, newName).Success? ==>
              var s := RenameOutcome(stores, id, newName).value;
              && s.id == id && s.projectId == stores[id].projectId && s.columns == stores[id].columns
              && s.name == Trim(newName) && s.name != []
              && StoresValid(stores[id := s])
    ensures id in stores && Trim(newName) != [] && Trim(newName) == stores[id].name ==>
              RenameOutcome(stores, id, newName) == Failure(NameAlreadyExists(Trim(newName)))
  {
  }

  /** A store created under a name its project does not use yet keeps names unique per project. */
  lemma CreateKeepsValid(stores: map<string, DataStore>, store: DataStore)
    requires StoresValid(stores) && store.id !in stores
    requires !NameInProject(stores, store.projectId, store.name)
    ensures StoresValid(stores[store.id := store])
  {
  }

  class Service {
    /** The data-store table, by id. */
    var stores: map<string, DataStore>

    ghost predicate Valid()
      reads this
    {
      StoresValid(stores)
    }

    constructor ()
      ensures Valid() && stores == map[]
    {
      stores := map[];
    }

    /** The columns of a store; none when there is no such store. */
    function ColumnsOf(dataStoreId: string): seq<Column>
      reads this
    {
      if dataStoreId in stores then stores[dataStoreId].columns else []
    }

    /** Creates a store named `name` in `projectId`, unless a store of that project already has
        that name. The id the new table gets is `newId`. */
    method CreateDataStore(projectId: string, name: string, columns: seq<Column>, newId: string)
      returns (r: Result<DataStore, ServiceError>)
      requires Valid() && newId !in stores
      modifies this
      ensures Valid()
      ensures NameInProject(old(stores), projectId, name) <==> r.Failure?
      ensures r.Failure? ==> r.error == NameAlreadyExists(name) && stores == old(stores)
      ensures r.Success? ==> r.value == DataStore(newId, projectId, name, columns)
                             && stores == old(stores)[newId := r.value]
    {
      if NameInProject(stores, projectId, name) {
        return Failure(NameAlreadyExists(name));
      }
      var store := DataStore(newId, projectId, name, columns);
      CreateKeepsValid(stores, store);
      stores := stores[newId := store];
      r := Success(store);
    }

    /** Renames a store to the trimmed `newName`. */
    method UpdateDataStore(dataStoreId: string, newName: string) returns (r: Result<bool, ServiceError>)
      requires Valid()
      modifies this
      ensures Valid()
      ensures RenameOutcome(old(stores), dataStoreId, newName).Failure? ==>
                r == Failure(RenameOutcome(old(stores), dataStoreId, newName).error) && stores == old(stores)
      ensures RenameOutcome(old(stores), dataStoreId, newName).Success? ==>
                r == Success(true) && stores == old(stores)[dataStoreId := RenameOutcome(old(stores), dataStoreId, newName).value]
    {
      var name := Trim(newName);
      if name == [] {
        return Failure(EmptyName);
      }
      if dataStoreId !in stores {
        return Failure(NoSuchDataStore);
      }
      var projectId := stores[dataStoreId].projectId;
      if exists id :: id in stores && stores[id].projectId == projectId && stores[id].name == name {
        return Failure(NameAlreadyExists(name));
      }
      RenameKeepsValid(stores, dataStoreId, newName);
      stores := stores[dataStoreId := stores[dataStoreId].(name := name)];
      r := Success(true);
    }

    /** Checks `rows` against the columns of the store, converting date cells to ISO text in
        place as it goes; stops at the first error, leaving the rows converted so far. */
    method ValidateRows(dataStoreId: string, rows: array<Row>, toIso: int -> string)
      returns (err: Option<ValidationError>)
      modifies rows
      ensures rows[..] == ValidateRowsSpec(old(rows[..]), ColumnsOf(dataStoreId), toIso).0
      ensures err == ValidateRowsSpec(old(rows[..]), ColumnsOf(dataStoreId), toIso).1
    {
      var columns := ColumnsOf(dataStoreId);
      if |columns| == 0 {
        return Some(NoColumns);
      }
      ghost var goal := ValidateFrom(rows[..], 0, columns, toIso);
      var i := 0;
      while i < rows.Length
        invariant 0 <= i <= rows.Length
        invariant ValidateFrom(rows[..], i, columns, toIso).0 == goal.0
        invariant ValidateFrom(rows[..], i, columns, toIso).1 == goal.1
      {
        if |rows[i]| != |columns| {
          return Some(MismatchedKeyCount);
        }
        ghost var before := rows[..];
        err := ConvertRow(rows, i, columns, toIso);
        assert rows[..] == before[i := ConvertFrom(before[i], 0, columns, toIso).0];
        if err.Some? {
          return;
        }
        i := i + 1;
      }
      err := None;
    }
  }

  /** A key that passes is stored, and the check goes on with the next key. */
  lemma ConvertStep(row: Row, j: nat, columns: seq<Column>, toIso: int -> string)
    requires j < |row| && EntryConforms(row[j], columns)
    ensures ConvertFrom(row, j, columns, toIso).0 == ConvertFrom(row[j := StoredEntry(row[j], columns, toIso)], j + 1, columns, toIso).0
    ensures ConvertFrom(row, j, columns, toIso).1 == ConvertFrom(row[j := StoredEntry(row[j], columns, toIso)], j + 1, columns, toIso).1
  {
  }

  /** Checks the keys of `rows[i]` one by one, storing each converted cell in place. */
  method ConvertRow(rows: array<Row>, i: nat, columns: seq<Column>, toIso: int -> string)
    returns (err: Option<ValidationError>)
    requires i < rows.Length
    modifies rows
    ensures rows[..] == old(rows[..])[i := ConvertFrom(old(rows[i]), 0, columns, toIso).0]
    ensures err == ConvertFrom(old(rows[i]), 0, columns, toIso).1
  {
    var names := ColumnNames(columns);
    ghost var goal := ConvertFrom(rows[i], 0, columns, toIso);
    var j := 0;
    while j < |rows[i]|
      invariant 0 <= j <= |rows[i]|
      invariant rows[..] == old(rows[..])[i := rows[i]]
      invariant ConvertFrom(rows[i], j, columns, toIso).0 == goal.0
      invariant ConvertFrom(rows[i], j, columns, toIso).1 == goal.1
    {
      ghost var row := rows[i];
      var entry := rows[i][j];
      if entry.key !in names {
        return Some(UnknownColumnName);
      }
      var cell := entry.cell;
      if !cell.Null? {
        match ColumnTypeOf(columns, entry.key).value {
          case BooleanType =>
            if !cell.BooleanCell? {
              return Some(TypeMismatch(cell, BooleanType));
            }
          case DateType =>
            if !cell.DateCell? {
              return Some(TypeMismatch(cell, DateType));
            }
            rows[i] := rows[i][j := Entry(entry.key, StringCell(toIso(cell.time)))];
          case StringType =>
            if !cell.StringCell? {
              return Some(TypeMismatch(cell, StringType));
            }
          case NumberType =>
            if !cell.NumberCell? {
              return Some(TypeMismatch(cell, NumberType));
            }
          case OtherType(_) =>
        }
      }
      assert rows[i] == row[j := StoredEntry(row[j], columns, toIso)];
      ConvertStep(row, j, columns, toIso);
      j := j + 1;
    }
    err := None;
  }
}
