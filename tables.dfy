/** The table registry: the table document (models/tableModel.js) and its
    handlers (controllers/tableController.js). */
module Tables {
  import opened Seqs
  import opened OrderModel

  type TableId = nat

  /** The values the `status` enum admits. */
  datatype TableStatus = Free | Occupied | Reserved

  function TableStatusName(s: TableStatus): string {
    match s
    case Free => "free"
    case Occupied => "occupied"
    case Reserved => "reserved"
  }

  /** The enum validator run on save: a string is accepted exactly when it is
      the name of one of the three statuses. */
  function ParseTableStatus(name: string): (r: Option<TableStatus>)
    ensures r.Some? ==> TableStatusName(r.value) == name
    ensures r.None? ==> forall s: TableStatus :: TableStatusName(s) != name
  {
    if name == "free" then Some(Free)
    else if name == "occupied" then Some(Occupied)
    else if name == "reserved" then Some(Reserved)
    else None
  }

  /** Every status name parses back to its status. */
  lemma TableStatusNamesRoundTrip(s: TableStatus)
    ensures ParseTableStatus(TableStatusName(s)) == Some(s)
  {
  }

  /** A stored table. `status` is kept as the string the store holds, since an
      update may write a value outside the enum. `number` is not unique. */
  datatype Table = Table(id: TableId, number: int, status: string, orders: seq<OrderId>, qrCode: string)

  /** The request body of createTable, field by field. */
  datatype TableInput = TableInput(number: Option<int>, status: Option<string>, orders: seq<OrderId>, qrCode: Option<string>)

  /** Whether `new Table(body).save()` succeeds: number present, status present
      and in the enum, qrCode a present non-empty string that no stored table
      already holds (the unique index). Nothing is said about `number`. */
  predicate Admissible(tables: seq<Table>, input: TableInput) {
    && input.number.Some?
    && input.status.Some? && ParseTableStatus(input.status.value).Some?
    && input.qrCode.Some? && input.qrCode.value != ""
    && forall i :: 0 <= i < |tables| ==> tables[i].qrCode != input.qrCode.value
  }

  /** No two stored tables share a qrCode. */
  ghost predicate QrCodesUnique(tables: seq<Table>) {
    forall i, j :: 0 <= i < j < |tables| ==> tables[i].qrCode != tables[j].qrCode
  }

  function TableIdOf(t: Table): int {
    t.id
  }

  function TableHasId(id: TableId): Table -> bool {
    (t: Table) => t.id == id
  }

  function TableIdIsNot(id: TableId): Table -> bool {
    (t: Table) => t.id != id
  }

  /** The query filter `{ status: s }`. */
  function HasStatus(s: string): Table -> bool {
    (t: Table) => t.status == s
  }

  /** Deleting a table twice is deleting it once. */
  lemma DeleteTableIdempotent(tables: seq<Table>, id: TableId)
    ensures Filter(TableIdIsNot(id), Filter(TableIdIsNot(id), tables)) == Filter(TableIdIsNot(id), tables)
  {
    FilterIdempotent(TableIdIsNot(id), tables);
  }

  /** Deleting a table that is not stored changes nothing. */
  lemma DeleteAbsentTableIsIdentity(tables: seq<Table>, id: TableId)
    requires FindFirst(TableHasId(id), tables).None?
    ensures Filter(TableIdIsNot(id), tables) == tables
  {
    FilterKeepsAll(TableIdIsNot(id), tables);
  }

  /** Filtering keeps qrCodes pairwise distinct. */
  lemma {:induction false} FilterKeepsQrCodesUnique(p: Table -> bool, tables: seq<Table>)
    requires QrCodesUnique(tables)
    ensures QrCodesUnique(Filter(p, tables))
  {
    if tables != [] {
      var tail := tables[1..];
      assert QrCodesUnique(tail) by {
        forall i, j | 0 <= i < j < |tail| ensures tail[i].qrCode != tail[j].qrCode {
          assert tail[i] == tables[i + 1] && tail[j] == tables[j + 1];
        }
      }
      FilterKeepsQrCodesUnique(p, tail);
      var rest := Filter(p, tail);
      if p(tables[0]) {
        forall y | y in rest ensures y.qrCode != tables[0].qrCode {
          var j :| 0 <= j < |tail| && tail[j] == y;
          assert tables[j + 1] == y;
        }
        var r := [tables[0]] + rest;
        forall i, j | 0 <= i < j < |r| ensures r[i].qrCode != r[j].qrCode {
          if i == 0 {
            assert r[j] == rest[j - 1] && r[j] in rest;
          } else {
            assert r[i] == rest[i - 1] && r[j] == rest[j - 1];
          }
        }
      }
    }
  }

  class TableRegistry {
    var tables: seq<Table>
    var nextId: TableId

    /** qrCode is unique across tables; table ids are fresh when issued. */
    ghost predicate Valid()
      reads this
    {
      && QrCodesUnique(tables)
      && StrictlyIncreasing(TableIdOf, tables)
      && forall i :: 0 <= i < |tables| ==> tables[i].id < nextId
    }

    constructor ()
      ensures Valid() && tables == []
    {
      tables := [];
      nextId := 0;
    }

    /** getAllTables: every table, with its count. */
    method GetAllTables() returns (code: int, count: int, data: seq<Table>)
      ensures code == 200 && data == tables && count == |tables|
    {
      return 200, |tables|, tables;
    }

    /** createTable: stores exactly one table built from the body, or answers
        409 and stores nothing when the save is rejected. */
    method CreateTable(input: TableInput) returns (code: int, created: Option<Table>)
      requires Valid()
      modifies this`tables, this`nextId
      ensures Valid()
      ensures !Admissible(old(tables), input) ==>
        code == 409 && created.None? && tables == old(tables)
      ensures Admissible(old(tables), input) ==>
        && code == 201
        && created == Some(Table(old(nextId), input.number.value, input.status.value, input.orders, input.qrCode.value))
        && tables == old(tables) + [created.value]
        && (forall i :: 0 <= i < |old(tables)| ==> old(tables)[i].id != created.value.id)
    {
      if !Admissible(tables, input) {
        return 409, None;
      }
      var t := Table(nextId, input.number.value, input.status.value, input.orders, input.qrCode.value);
      tables := tables + [t];
      nextId := nextId + 1;
      return 201, Some(t);
    }

    /** getTablesStatus: the tables whose status is exactly `status`, with their
        count; an empty answer is still a success. */
    method GetTablesStatus(status: string) returns (code: int, count: int, data: seq<Table>)
      ensures code == 200 && count == |data|
      ensures forall i :: 0 <= i < |data| ==> data[i].status == status && data[i] in tables
      ensures forall i :: 0 <= i < |tables| && tables[i].status == status ==> tables[i] in data
      ensures data == Filter(HasStatus(status), tables)
    {
      var matching := Filter(HasStatus(status), tables);
      return 200, |matching|, matching;
    }

    /** changeTableStatus: writes `status` into the identified table, with no
        transition rule and no enum check; 404 for an unknown id. */
    method ChangeTableStatus(id: TableId, status: string) returns (code: int, updated: Option<Table>)
      requires Valid()
      modifies this`tables
      ensures Valid()
      ensures FindFirst(TableHasId(id), old(tables)).None? ==>
        code == 404 && updated.None? && tables == old(tables)
      ensures FindFirst(TableHasId(id), old(tables)).Some? ==>
        var i := FindFirst(TableHasId(id), old(tables)).value;
        && code == 200
        && tables == old(tables)[i := old(tables)[i].(status := status)]
        && updated == Some(tables[i])
    {
      var found := FindFirst(TableHasId(id), tables);
      if found.None? {
        return 404, None;
      }
      var i := found.value;
      tables := tables[i := tables[i].(status := status)];
      assert forall k :: 0 <= k < |tables| ==>
        tables[k].id == old(tables)[k].id && tables[k].qrCode == old(tables)[k].qrCode;
      return 200, Some(tables[i]);
    }

    /** deleteTable: removes the table if it is stored, and succeeds either way. */
    method DeleteTable(id: TableId) returns (code: int)
      requires Valid()
      modifies this`tables
      ensures Valid()
      ensures code == 200
      ensures tables == Filter(TableIdIsNot(id), old(tables))
    {
      FilterKeepsQrCodesUnique(TableIdIsNot(id), tables);
      FilterKeepsIncreasing(TableIdOf, TableIdIsNot(id), tables);
      tables := Filter(TableIdIsNot(id), tables);
      return 200;
    }
  }

  /** Two tables may carry the same number: both creations succeed. */
  method SharedNumberScenario() returns (first: int, second: int)
    ensures first == 201 && second == 201
  {
    var registry := new TableRegistry();
    var a, b;
    first, a := registry.CreateTable(TableInput(Some(5), Some("free"), [], Some("qr-a")));
    second, b := registry.CreateTable(TableInput(Some(5), Some("free"), [], Some("qr-b")));
  }

  /** The status update is not validated: a value outside the enum is stored. */
  method OffEnumStatusScenario() returns (code: int, stored: string)
    ensures code == 200 && stored == "broken" && ParseTableStatus(stored).None?
  {
    var registry := new TableRegistry();
    var status, created := registry.CreateTable(TableInput(Some(1), Some("free"), [], Some("qr")));
    var updated;
    code, updated := registry.ChangeTableStatus(created.value.id, "broken");
    stored := updated.value.status;
  }
}
