/**
 * The order provider's edits and lookups over a job's mappings and schemas: `EnsureMapping`,
 * removing the external-ID column mappings before the move to the main tables,
 * `GetMappingsByName`, and the columns the original source and destination schemas gain.
 */
module ProviderMappings {
  import opened Wrappers
  import opened Text
  import opened Integration

  // ---------------------------------------------------------------------------------------
  // EnsureMapping

  /** Some active column mapping targets `name`, ignoring case. */
  predicate ActivelyTargets(columnMappings: seq<ColumnMapping>, name: string) {
    exists i :: 0 <= i < |columnMappings| && columnMappings[i].active &&
                EqualsIgnoreCase(columnMappings[i].destinationColumn.name, name)
  }

  /**
   * The column mapping `mapping.AddMapping(column, column, false)` adds: the column onto
   * itself, active, with no script.
   */
  function SelfMapping(column: Column): (cm: ColumnMapping)
    ensures cm.sourceColumn == Some(column) && cm.destinationColumn == column && cm.active
  {
    ColumnMapping(Some(column), column, true, NoScript, "", false)
  }

  /** The column mappings after `EnsureMapping(columnMappings, mapping, column)` on the same list. */
  function Ensured(columnMappings: seq<ColumnMapping>, column: Column): seq<ColumnMapping> {
    if ActivelyTargets(columnMappings, column.name) then columnMappings
    else columnMappings + [SelfMapping(column)]
  }

  /**
   * Afterwards an active mapping targets the column; at most one mapping was added, at the
   * end, and only when none targeted it before; and a second call changes nothing.
   */
  lemma EnsuredTargetsOnce(columnMappings: seq<ColumnMapping>, column: Column)
    ensures ActivelyTargets(Ensured(columnMappings, column), column.name)
    ensures ActivelyTargets(columnMappings, column.name) ==> Ensured(columnMappings, column) == columnMappings
    ensures !ActivelyTargets(columnMappings, column.name) ==>
      Ensured(columnMappings, column) == columnMappings + [SelfMapping(column)]
    ensures Ensured(Ensured(columnMappings, column), column) == Ensured(columnMappings, column)
  {
    var r := Ensured(columnMappings, column);
    if !ActivelyTargets(columnMappings, column.name) {
      assert r[|columnMappings|] == SelfMapping(column);
    }
  }

  /**
   * `EnsureMapping`: with a mapping, a column-mapping list and a column (any of them may be
   * null), adds the column's self-mapping to the mapping unless an active column mapping in
   * the list already targets it. The list is the one the caller fetched from the mapping.
   */
  method EnsureMapping(columnMappings: Option<seq<ColumnMapping>>, mapping: Mapping?, destinationColumn: Option<Column>)
    modifies mapping
    ensures mapping != null ==>
      mapping.columnMappings ==
        if destinationColumn.None? || columnMappings.None? ||
           ActivelyTargets(columnMappings.value, destinationColumn.value.name)
        then old(mapping.columnMappings)
        else old(mapping.columnMappings) + [SelfMapping(destinationColumn.value)]
    ensures mapping != null ==> mapping.conditionals == old(mapping.conditionals)
  {
    if destinationColumn.None? || mapping == null || columnMappings.None? {
      return;
    }
    var found := false;
    var i := 0;
    var cms := columnMappings.value;
    while i < |cms| && !found
      invariant 0 <= i <= |cms|
      invariant found <==> exists j :: 0 <= j < i && cms[j].active &&
                                       EqualsIgnoreCase(cms[j].destinationColumn.name, destinationColumn.value.name)
    {
      if cms[i].active && EqualsIgnoreCase(cms[i].destinationColumn.name, destinationColumn.value.name) {
        found := true;
      }
      i := i + 1;
    }
    if !found {
      mapping.columnMappings := mapping.columnMappings + [SelfMapping(destinationColumn.value)];
    }
  }

  // ---------------------------------------------------------------------------------------
  // Removing the external-ID column mappings

  /** The `RemoveAll` condition: a destination column named OrderCustomerAccessUserExternalId, ignoring case. */
  predicate TargetsExternalId(cm: ColumnMapping) {
    EqualsIgnoreCase(cm.destinationColumn.name, ExternalIdColumnName)
  }

  function WithoutExternalIdMappings(columnMappings: seq<ColumnMapping>): (r: seq<ColumnMapping>)
    ensures |r| <= |columnMappings|
  {
    if columnMappings == [] then []
    else
      var rest := WithoutExternalIdMappings(columnMappings[..|columnMappings| - 1]);
      var last := columnMappings[|columnMappings| - 1];
      if TargetsExternalId(last) then rest else rest + [last]
  }

  /** Exactly the other column mappings remain, so none onto the external ID is left. */
  lemma {:induction false} WithoutExternalIdMappingsKeepsOthers(columnMappings: seq<ColumnMapping>)
    ensures forall cm :: cm in WithoutExternalIdMappings(columnMappings) <==>
                         cm in columnMappings && !TargetsExternalId(cm)
  {
    if columnMappings != [] {
      var front := columnMappings[..|columnMappings| - 1];
      WithoutExternalIdMappingsKeepsOthers(front);
      assert columnMappings == front + [columnMappings[|columnMappings| - 1]];
    }
  }

  /** The removal works piece by piece, so the kept mappings stay in their relative order. */
  lemma {:induction false} WithoutExternalIdMappingsAppend(a: seq<ColumnMapping>, b: seq<ColumnMapping>)
    ensures WithoutExternalIdMappings(a + b) == WithoutExternalIdMappings(a) + WithoutExternalIdMappings(b)
  {
    if b != [] {
      var b' := b[..|b| - 1];
      assert (a + b)[..|a + b| - 1] == a + b';
      WithoutExternalIdMappingsAppend(a, b');
    } else {
      assert a + b == a;
    }
  }

  /**
   * `job.Mappings.Find(m => m.DestinationTable.Name == "EcomOrders")`: the first mapping whose
   * destination table is exactly EcomOrders; a null destination table met before it throws.
   */
  function FindOrdersMapping(mappings: seq<Mapping>): (r: Result<Option<nat>, Fault>)
    ensures r.Success? && r.value.Some? ==>
      r.value.value < |mappings| && mappings[r.value.value].destinationTable.Some? &&
      mappings[r.value.value].destinationTable.value.name == OrdersTable &&
      forall j :: 0 <= j < r.value.value ==>
        mappings[j].destinationTable.Some? && mappings[j].destinationTable.value.name != OrdersTable
    ensures r.Success? && r.value.None? ==>
      forall j :: 0 <= j < |mappings| ==>
        mappings[j].destinationTable.Some? && mappings[j].destinationTable.value.name != OrdersTable
    ensures r.Failure? ==>
      r.error == NullReference && exists j :: 0 <= j < |mappings| && mappings[j].destinationTable.None?
  {
    if mappings == [] then Success(None)
    else if mappings[0].destinationTable.None? then Failure(NullReference)
    else if mappings[0].destinationTable.value.name == OrdersTable then Success(Some(0))
    else
      match FindOrdersMapping(mappings[1..])
      case Failure(e) => Failure(e)
      case Success(None) => Success(None)
      case Success(Some(i)) => Success(Some(i + 1))
  }

  /**
   * `RemoveColumnMappingsFromJobThatShouldBeSkippedInMoveToMainTables`: the EcomOrders mapping
   * loses its column mappings onto OrderCustomerAccessUserExternalId; every mapping else is
   * untouched.
   */
  method RemoveColumnMappingsFromJob(mappings: seq<Mapping>) returns (outcome: Result<Option<nat>, Fault>)
    modifies set m | m in mappings
    ensures outcome == FindOrdersMapping(mappings)
    ensures outcome.Success? && outcome.value.Some? ==>
      var m := mappings[outcome.value.value];
      m.columnMappings == WithoutExternalIdMappings(old(m.columnMappings)) &&
      forall cm :: cm in m.columnMappings ==> !TargetsExternalId(cm)
    ensures forall m :: m in mappings && (outcome.Failure? || outcome.value.None? || m != mappings[outcome.value.value])
                        ==> m.columnMappings == old(m.columnMappings)
    ensures forall m :: m in mappings ==> m.conditionals == old(m.conditionals)
  {
    outcome := FindOrdersMapping(mappings);
    if outcome.Success? && outcome.value.Some? {
      var m := mappings[outcome.value.value];
      WithoutExternalIdMappingsKeepsOthers(m.columnMappings);
      m.columnMappings := WithoutExternalIdMappings(m.columnMappings);
    }
  }

  // ---------------------------------------------------------------------------------------
  // GetMappingsByName

  /** The table a mapping is looked up by: its source table or its destination table. */
  function LookupTable(m: Mapping, isSourceLookup: bool): Option<Table> {
    if isSourceLookup then m.sourceTable else m.destinationTable
  }

  predicate IsNamed(m: Mapping, name: string, isSourceLookup: bool) {
    LookupTable(m, isSourceLookup).Some? && LookupTable(m, isSourceLookup).value.name == name
  }

  /** `GetMappingsByName`: `FindAll` of the mappings whose looked-up table is exactly `name`. */
  function GetMappingsByName(collection: seq<Mapping>, name: string, isSourceLookup: bool): (r: seq<Mapping>)
    ensures |r| <= |collection|
    ensures forall i :: 0 <= i < |r| ==> r[i] in collection && IsNamed(r[i], name, isSourceLookup)
    ensures forall i :: 0 <= i < |collection| && IsNamed(collection[i], name, isSourceLookup) ==> collection[i] in r
  {
    if collection == [] then []
    else
      var rest := GetMappingsByName(collection[..|collection| - 1], name, isSourceLookup);
      var last := collection[|collection| - 1];
      assert collection == collection[..|collection| - 1] + [last];
      if IsNamed(last, name, isSourceLookup) then rest + [last] else rest
  }

  /** `FindAll` keeps the collection's order: it distributes over concatenation. */
  lemma {:induction false} GetMappingsByNameAppend(a: seq<Mapping>, b: seq<Mapping>, name: string, isSourceLookup: bool)
    ensures GetMappingsByName(a + b, name, isSourceLookup)
            == GetMappingsByName(a, name, isSourceLookup) + GetMappingsByName(b, name, isSourceLookup)
  {
    if b != [] {
      var b' := b[..|b| - 1];
      assert (a + b)[..|a + b| - 1] == a + b';
      GetMappingsByNameAppend(a, b', name, isSourceLookup);
    } else {
      assert a + b == a;
    }
  }

  // ---------------------------------------------------------------------------------------
  // The original schemas

  /** The index of the first table named `name`, ignoring case (`FirstOrDefault`). */
  function FirstTableNamed(tables: seq<Table>, name: string): (r: Option<nat>)
    ensures r.Some? ==> r.value < |tables| && EqualsIgnoreCase(tables[r.value].name, name) &&
                        forall j :: 0 <= j < r.value ==> !EqualsIgnoreCase(tables[j].name, name)
    ensures r.None? ==> forall j :: 0 <= j < |tables| ==> !EqualsIgnoreCase(tables[j].name, name)
  {
    if tables == [] then None
    else if EqualsIgnoreCase(tables[0].name, name) then Some(0)
    else
      match FirstTableNamed(tables[1..], name)
      case None => None
      case Some(i) => Some(i + 1)
  }

  /** A string column of the given name, as the `SqlColumn(name, typeof(string), ...)` the provider adds. */
  function StringColumn(name: string): Column {
    Column(name, "System.String")
  }

  /** The order columns copied onto the order lines table: every one but the external ID, as strings. */
  function CopiedOrderColumns(orderColumns: seq<Column>): (r: seq<Column>)
    ensures |r| <= |orderColumns|
  {
    if orderColumns == [] then []
    else
      var rest := CopiedOrderColumns(orderColumns[..|orderColumns| - 1]);
      var last := orderColumns[|orderColumns| - 1];
      if EqualsIgnoreCase(last.name, ExternalIdColumnName) then rest else rest + [StringColumn(last.name)]
  }

  /** A column is copied exactly when an order column other than the external ID has its name. */
  lemma {:induction false} CopiedOrderColumnsSpec(orderColumns: seq<Column>)
    ensures forall c :: c in CopiedOrderColumns(orderColumns) <==>
      c.clrType == "System.String" && !EqualsIgnoreCase(c.name, ExternalIdColumnName) &&
      exists j :: 0 <= j < |orderColumns| && orderColumns[j].name == c.name
  {
    if orderColumns != [] {
      var front := orderColumns[..|orderColumns| - 1];
      CopiedOrderColumnsSpec(front);
      assert forall j :: 0 <= j < |front| ==> front[j] == orderColumns[j];
      var last := orderColumns[|orderColumns| - 1];
      forall c: Column | c.clrType == "System.String" && !EqualsIgnoreCase(c.name, ExternalIdColumnName) &&
                 exists j :: 0 <= j < |orderColumns| && orderColumns[j].name == c.name
        ensures c in CopiedOrderColumns(orderColumns)
      {
        var j :| 0 <= j < |orderColumns| && orderColumns[j].name == c.name;
        if j == |orderColumns| - 1 {
          assert c == StringColumn(last.name);
        }
      }
    }
  }

  /**
   * `GetOriginalSourceSchema` over the tables the SQL schema reader returns: when both an
   * EcomOrderLines and an EcomOrders table exist (names ignoring case), the first lines table
   * gains a string copy of every order column except OrderCustomerAccessUserExternalId.
   */
  function OriginalSourceTables(tables: seq<Table>): (r: seq<Table>)
    ensures |r| == |tables|
    ensures var lines := FirstTableNamed(tables, OrderLinesTable);
      var orders := FirstTableNamed(tables, OrdersTable);
      forall i :: 0 <= i < |tables| ==>
        r[i] == if lines == Some(i) && orders.Some?
                then tables[i].(columns := tables[i].columns + CopiedOrderColumns(tables[orders.value].columns))
                else tables[i]
  {
    var lines := FirstTableNamed(tables, OrderLinesTable);
    var orders := FirstTableNamed(tables, OrdersTable);
    if lines.Some? && orders.Some? then
      var t := tables[lines.value];
      tables[lines.value := t.(columns := t.columns + CopiedOrderColumns(tables[orders.value].columns))]
    else tables
  }

  /**
   * `GetOriginalDestinationSchema`: every table named exactly EcomOrders gains a string
   * OrderCustomerAccessUserExternalId column; the other tables are unchanged.
   */
  function OriginalDestinationTables(tables: seq<Table>): (r: seq<Table>)
    ensures |r| == |tables|
    ensures forall i :: 0 <= i < |tables| ==>
      r[i].name == tables[i].name && r[i].sqlSchema == tables[i].sqlSchema &&
      r[i].columns == tables[i].columns + (if tables[i].name == OrdersTable then [StringColumn(ExternalIdColumnName)] else [])
  {
    seq(|tables|, i requires 0 <= i < |tables| =>
      if tables[i].name == OrdersTable
      then tables[i].(columns := tables[i].columns + [StringColumn(ExternalIdColumnName)])
      else tables[i])
  }

  /**
   * The external ID is a destination-only column: the source schema never copies it onto the
   * order lines, while the destination schema gives it to the orders table.
   */
  lemma ExternalIdIsDestinationOnly(tables: seq<Table>)
    ensures var lines := FirstTableNamed(tables, OrderLinesTable);
      var orders := FirstTableNamed(tables, OrdersTable);
      lines.Some? && orders.Some? ==>
        forall c :: (c in OriginalSourceTables(tables)[lines.value].columns && c !in tables[lines.value].columns)
                    ==> !EqualsIgnoreCase(c.name, ExternalIdColumnName)
    ensures forall i :: 0 <= i < |tables| && tables[i].name == OrdersTable ==>
      StringColumn(ExternalIdColumnName) in OriginalDestinationTables(tables)[i].columns
  {
    var lines := FirstTableNamed(tables, OrderLinesTable);
    var orders := FirstTableNamed(tables, OrdersTable);
    if lines.Some? && orders.Some? {
      CopiedOrderColumnsSpec(tables[orders.value].columns);
    }
    forall i | 0 <= i < |tables| && tables[i].name == OrdersTable
      ensures StringColumn(ExternalIdColumnName) in OriginalDestinationTables(tables)[i].columns
    {
      var cs := OriginalDestinationTables(tables)[i].columns;
      assert cs[|cs| - 1] == StringColumn(ExternalIdColumnName);
    }
  }
}
