/**
 * The order destination writer: the staging-table shape it derives from a mapping, the
 * staging-table name, the staged-row count kept by FinishWriting, and the merge request it
 * forwards to the shared base-class merge.
 */
module DestinationWriter {
  import opened Wrappers
  import opened Text
  import opened Integration

  const TempTableMarker := "TempTableForBulkImport"
  const AssortmentPermissionsTable := "EcomAssortmentPermissions"
  const AssortmentPermissionUserColumn := Column("AssortmentPermissionAccessUserID", "System.String")
  const CommandTimeoutSeconds := 1200

  /** `TempTablePrefix`: the marker followed by the mapping's ID. */
  function TempTablePrefix(mappingId: string): string {
    TempTableMarker + mappingId
  }

  /** The name both the bulk copier and the in-memory table use for a mapping's staging table. */
  function StagingTableName(destinationTableName: string, mappingId: string): string {
    destinationTableName + TempTablePrefix(mappingId)
  }

  predicate HasColumnNamed(columns: seq<Column>, name: string) {
    exists i :: 0 <= i < |columns| && columns[i].name == name
  }

  predicate DistinctNames(columns: seq<Column>) {
    forall i, j :: 0 <= i < j < |columns| ==> columns[i].name != columns[j].name
  }

  /** `DistinctBy(cm => cm.DestinationColumn.Name)` projected on the destination columns. */
  function DistinctDestinationColumns(columnMappings: seq<ColumnMapping>): seq<Column> {
    if columnMappings == [] then []
    else
      var previous := DistinctDestinationColumns(columnMappings[..|columnMappings| - 1]);
      var column := columnMappings[|columnMappings| - 1].destinationColumn;
      if HasColumnNamed(previous, column.name) then previous else previous + [column]
  }

  /** Mapping `k` is the first whose destination column has its name. */
  predicate IsFirstOfName(columnMappings: seq<ColumnMapping>, k: int)
    requires 0 <= k < |columnMappings|
  {
    forall j :: 0 <= j < k ==> columnMappings[j].destinationColumn.name != columnMappings[k].destinationColumn.name
  }

  /** A reference definition: the destination columns of the first mappings of each name, by index. */
  function FirstOfEachName(columnMappings: seq<ColumnMapping>): seq<Column> {
    if columnMappings == [] then []
    else
      var n := |columnMappings| - 1;
      FirstOfEachName(columnMappings[..n])
        + (if IsFirstOfName(columnMappings, n) then [columnMappings[n].destinationColumn] else [])
  }

  /** The staging columns have distinct names, and a name is present exactly when some mapping targets it. */
  lemma {:induction false} DistinctDestinationColumnsNames(columnMappings: seq<ColumnMapping>)
    ensures DistinctNames(DistinctDestinationColumns(columnMappings))
    ensures forall name :: HasColumnNamed(DistinctDestinationColumns(columnMappings), name)
                       <==> exists k :: 0 <= k < |columnMappings| && columnMappings[k].destinationColumn.name == name
  {
    if columnMappings != [] {
      var n := |columnMappings| - 1;
      var prefix := columnMappings[..n];
      DistinctDestinationColumnsNames(prefix);
      var previous := DistinctDestinationColumns(prefix);
      var column := columnMappings[n].destinationColumn;
      var result := DistinctDestinationColumns(columnMappings);
      forall k | 0 <= k < |columnMappings|
        ensures HasColumnNamed(result, columnMappings[k].destinationColumn.name)
      {
        var name := columnMappings[k].destinationColumn.name;
        if k < n {
          assert prefix[k].destinationColumn.name == name;
          assert HasColumnNamed(previous, name);
          var i :| 0 <= i < |previous| && previous[i].name == name;
          assert result[i] == previous[i];
        } else if !HasColumnNamed(previous, column.name) {
          assert result[|previous|] == column;
        } else {
          var i :| 0 <= i < |previous| && previous[i].name == name;
          assert result[i] == previous[i];
        }
      }
      forall i | 0 <= i < |result|
        ensures exists k :: 0 <= k < |columnMappings| && columnMappings[k].destinationColumn.name == result[i].name
      {
        if i < |previous| {
          assert result[i] == previous[i];
          assert HasColumnNamed(previous, previous[i].name);
          var k :| 0 <= k < |prefix| && prefix[k].destinationColumn.name == previous[i].name;
          assert columnMappings[k].destinationColumn.name == result[i].name;
        } else {
          assert columnMappings[n].destinationColumn.name == result[i].name;
        }
      }
    }
  }

  /** The staging columns are the first mapping's column of each name, in mapping order. */
  lemma {:induction false} DistinctDestinationColumnsAreFirsts(columnMappings: seq<ColumnMapping>)
    ensures DistinctDestinationColumns(columnMappings) == FirstOfEachName(columnMappings)
  {
    if columnMappings != [] {
      var n := |columnMappings| - 1;
      var prefix := columnMappings[..n];
      DistinctDestinationColumnsAreFirsts(prefix);
      DistinctDestinationColumnsNames(prefix);
      var column := columnMappings[n].destinationColumn;
      assert HasColumnNamed(DistinctDestinationColumns(prefix), column.name) <==> !IsFirstOfName(columnMappings, n) by {
        assert forall j :: 0 <= j < n ==> prefix[j] == columnMappings[j];
      }
    }
  }

  /**
   * The staging columns: distinct names; a name is present exactly when some mapping targets
   * it; and the list is the first mapping's column of each name, in mapping order.
   */
  lemma DistinctDestinationColumnsSpec(columnMappings: seq<ColumnMapping>)
    ensures DistinctNames(DistinctDestinationColumns(columnMappings))
    ensures forall name :: HasColumnNamed(DistinctDestinationColumns(columnMappings), name)
                       <==> exists k :: 0 <= k < |columnMappings| && columnMappings[k].destinationColumn.name == name
    ensures DistinctDestinationColumns(columnMappings) == FirstOfEachName(columnMappings)
  {
    DistinctDestinationColumnsNames(columnMappings);
    DistinctDestinationColumnsAreFirsts(columnMappings);
  }

  /** The same name, compared ignoring case, as `string.Compare(a, b, true) == 0`. */
  predicate TargetsColumn(columnMappings: seq<ColumnMapping>, name: string) {
    exists i :: 0 <= i < |columnMappings| && EqualsIgnoreCase(columnMappings[i].destinationColumn.name, name)
  }

  /**
   * The local `destColumns` of `Initialize`: one column per distinct destination name, plus
   * the access-user column for EcomAssortmentPermissions when no mapping targets it.
   */
  method CollectDestinationColumns(columnMappings: seq<ColumnMapping>, destinationTable: Option<Table>)
    returns (destColumns: seq<Column>)
    ensures DistinctNames(destColumns)
    ensures forall k :: 0 <= k < |columnMappings| ==> HasColumnNamed(destColumns, columnMappings[k].destinationColumn.name)
    ensures var extra := destinationTable.Some? && destinationTable.value.name == AssortmentPermissionsTable
                         && !TargetsColumn(columnMappings, AssortmentPermissionUserColumn.name);
            destColumns == FirstOfEachName(columnMappings) + (if extra then [AssortmentPermissionUserColumn] else [])
  {
    var distinct := DistinctDestinationColumns(columnMappings);
    DistinctDestinationColumnsSpec(columnMappings);
    destColumns := [];
    for i := 0 to |distinct|
      invariant destColumns == distinct[..i]
    {
      destColumns := destColumns + [distinct[i]];
    }
    assert distinct[..|distinct|] == distinct;
    if destinationTable.Some? && destinationTable.value.name == AssortmentPermissionsTable {
      if !TargetsColumn(columnMappings, AssortmentPermissionUserColumn.name) {
        forall i | 0 <= i < |destColumns|
          ensures destColumns[i].name != AssortmentPermissionUserColumn.name
        {
          assert HasColumnNamed(distinct, destColumns[i].name);
          var k :| 0 <= k < |columnMappings| && columnMappings[k].destinationColumn.name == destColumns[i].name;
          assert !EqualsIgnoreCase(columnMappings[k].destinationColumn.name, AssortmentPermissionUserColumn.name);
        }
        destColumns := destColumns + [AssortmentPermissionUserColumn];
        assert forall k :: 0 <= k < |columnMappings| ==>
          HasColumnNamed(destColumns[..|destColumns| - 1], columnMappings[k].destinationColumn.name);
      }
    }
  }

  /** A database transaction, by identity. */
  datatype Transaction = Transaction(id: nat)

  /** The `SqlCommand` a writer creates on its connection. */
  class SqlCommand {
    const commandTimeout: int
    var commandText: string
    var transaction: Option<Transaction>

    constructor (commandTimeout: int)
      ensures this.commandTimeout == commandTimeout && commandText == "" && transaction == None
    {
      this.commandTimeout := commandTimeout;
      commandText := "";
      transaction := None;
    }
  }

  /** The arguments the writer forwards to the base-class merge into the main table. */
  datatype MergeRequest = MergeRequest(
    mapping: Mapping,
    command: SqlCommand,
    transaction: Transaction,
    tempTablePrefix: string,
    updateOnlyExistingRecords: bool,
    insertOnlyNewRecords: bool)

  class OrderDestinationWriter {
    /** The writer's own `Mapping`, which hides the base class's property of that name. */
    const mapping: Mapping
    /**
     * The base class's `Mapping`, which is what code outside the writer reaches through
     * `writer.Mapping`. `BaseSqlWriter` is not part of this model, so its value is given.
     */
    const baseMapping: Mapping?
    const sqlCommand: SqlCommand
    const skipFailingRows: bool
    const tempTablePrefix: string
    /** `SqlBulkCopier.DestinationTableName`. */
    const bulkCopierDestinationTableName: string
    /** The columns handed to `SQLTable.CreateTempTable`. */
    const stagingColumns: seq<Column>
    /** `TableToWrite`: the in-memory table's name and columns. */
    const tableToWriteName: string
    const tableToWriteColumns: seq<Column>
    /** `TableToWrite.Rows.Count`: rows buffered by the base-class Write. */
    var bufferedRowCount: nat
    var rowsToWriteCount: int
    var skippedFailedRowsCount: int

    /** The constructor with `Initialize` inlined. */
    constructor (mapping: Mapping, baseMapping: Mapping?, skipFailingRows: bool)
      requires mapping.destinationTable.Some?
      ensures this.mapping == mapping && this.baseMapping == baseMapping && this.skipFailingRows == skipFailingRows
      ensures fresh(sqlCommand) && sqlCommand.commandTimeout == CommandTimeoutSeconds
      ensures tempTablePrefix == TempTablePrefix(mapping.id)
      ensures bulkCopierDestinationTableName == StagingTableName(mapping.destinationTable.value.name, mapping.id)
      ensures tableToWriteName == bulkCopierDestinationTableName
      ensures DistinctNames(stagingColumns)
      ensures var extra := mapping.destinationTable.value.name == AssortmentPermissionsTable
                           && !TargetsColumn(mapping.columnMappings, AssortmentPermissionUserColumn.name);
              stagingColumns == FirstOfEachName(mapping.columnMappings)
                                + (if extra then [AssortmentPermissionUserColumn] else [])
      ensures tableToWriteColumns == stagingColumns
      ensures bufferedRowCount == 0 && rowsToWriteCount == 0 && skippedFailedRowsCount == 0
    {
      this.mapping := mapping;
      this.baseMapping := baseMapping;
      sqlCommand := new SqlCommand(CommandTimeoutSeconds);
      this.skipFailingRows := skipFailingRows;
      var prefix := TempTablePrefix(mapping.id);
      tempTablePrefix := prefix;
      bulkCopierDestinationTableName := mapping.destinationTable.value.name + prefix;
      var destColumns := CollectDestinationColumns(mapping.columnMappings, mapping.destinationTable);
      stagingColumns := destColumns;
      tableToWriteName := mapping.destinationTable.value.name + prefix;
      var columns: seq<Column> := [];
      for i := 0 to |destColumns|
        invariant columns == destColumns[..i]
      {
        columns := columns + [Column(destColumns[i].name, destColumns[i].clrType)];
      }
      assert destColumns[..|destColumns|] == destColumns;
      tableToWriteColumns := columns;
      bufferedRowCount := 0;
      rowsToWriteCount := 0;
      skippedFailedRowsCount := 0;
    }

    /**
     * `FinishWriting`. `skipped` is what the base-class bulk copy reports as skipped failing
     * rows; the staged count grows by the buffered rows that were not skipped. The bulk copy
     * is taken to leave the buffered rows in place, since they are counted after it.
     */
    method FinishWriting(skipped: int)
      modifies this`rowsToWriteCount, this`skippedFailedRowsCount
      ensures skippedFailedRowsCount == skipped
      ensures bufferedRowCount == 0 ==> rowsToWriteCount == old(rowsToWriteCount)
      ensures bufferedRowCount != 0 ==> rowsToWriteCount == old(rowsToWriteCount) + bufferedRowCount - skipped
      ensures skipped <= bufferedRowCount ==> rowsToWriteCount >= old(rowsToWriteCount)
    {
      skippedFailedRowsCount := skipped;
      if bufferedRowCount != 0 {
        rowsToWriteCount := rowsToWriteCount + bufferedRowCount - skippedFailedRowsCount;
      }
    }

    /** `MoveDataToMainTable`: the writer's own mapping, command and prefix, the caller's transaction and flags. */
    method MoveDataToMainTable(transaction: Transaction, updateOnlyExistingRecords: bool, insertOnlyNewRecords: bool)
      returns (request: MergeRequest)
      ensures request.mapping == mapping && request.command == sqlCommand && request.tempTablePrefix == tempTablePrefix
      ensures request.transaction == transaction
      ensures request.updateOnlyExistingRecords == updateOnlyExistingRecords
      ensures request.insertOnlyNewRecords == insertOnlyNewRecords
    {
      request := MergeRequest(mapping, sqlCommand, transaction, tempTablePrefix, updateOnlyExistingRecords, insertOnlyNewRecords);
    }
  }
}
