/**
 * "Remove missing order lines": after the order lines of a run are staged, the DELETE removes
 * the stored lines of the staged orders that the run no longer sends. The two DELETE
 * statements are modelled by the set of EcomOrderLines rows each removes, under SQL's
 * three-valued logic for NULL; their text is modelled as the strings sent. ID values are
 * compared as exact strings, without the collation's trailing-space and case rules.
 */
module OrderLineRemoval {
  import opened Wrappers
  import opened Text
  import opened Integration
  import opened DestinationWriter

  /** A stored EcomOrderLines row: its OrderLineID key and its (nullable) OrderLineOrderID. */
  datatype OrderLine = OrderLine(lineId: string, orderId: Option<string>)

  /** A row of the staging table: OrderLineID and OrderLineOrderID, either possibly NULL. */
  datatype StagedLine = StagedLine(lineId: Option<string>, orderId: Option<string>)

  // ---------------------------------------------------------------------------------------
  // With OrderLineOrderID mapped: the LEFT JOIN on (OrderLineID, OrderLineOrderID)

  /** The LEFT JOIN finds a staged row with the line's ID and the line's (non-NULL) order ID. */
  predicate StagedPair(staged: seq<StagedLine>, l: OrderLine) {
    l.orderId.Some? &&
    exists i :: 0 <= i < |staged| && staged[i].lineId == Some(l.lineId) && staged[i].orderId == l.orderId
  }

  /** `OrderLineOrderID IN (SELECT DISTINCT(OrderLineOrderID) FROM temp)` for a non-NULL order ID. */
  predicate OrderStaged(staged: seq<StagedLine>, orderId: string) {
    exists i :: 0 <= i < |staged| && staged[i].orderId == Some(orderId)
  }

  /** The rows `DELETE t1 FROM EcomOrderLines AS t1 LEFT JOIN temp t2 ON ... WHERE ...` removes. */
  function DeletedByJoin(lines: set<OrderLine>, staged: seq<StagedLine>): (r: set<OrderLine>)
    ensures r <= lines
    // a line goes only if its order was staged and its (line, order) pair was not
    ensures forall l :: l in r ==> l.orderId.Some? && OrderStaged(staged, l.orderId.value) && !StagedPair(staged, l)
    // and every such line goes
    ensures forall l :: (l in lines && l.orderId.Some? && OrderStaged(staged, l.orderId.value) &&
                         !StagedPair(staged, l)) ==> l in r
  {
    set l | l in lines && l.orderId.Some? && !StagedPair(staged, l) && OrderStaged(staged, l.orderId.value)
  }

  // ---------------------------------------------------------------------------------------
  // Without it: NOT IN over the staged line IDs

  /**
   * `OrderLineID NOT IN (SELECT OrderLineID FROM temp)`: true only when every staged ID is
   * non-NULL and different; a single NULL makes it unknown, so the row is kept.
   */
  predicate NotInStagedIds(staged: seq<StagedLine>, lineId: string) {
    forall i :: 0 <= i < |staged| ==> staged[i].lineId.Some? && staged[i].lineId.value != lineId
  }

  /** The line's ID is one of the staged line IDs (`OrderLineID IN (SELECT OrderLineID FROM temp)`). */
  predicate IsStagedId(staged: seq<StagedLine>, lineId: string) {
    exists i :: 0 <= i < |staged| && staged[i].lineId == Some(lineId)
  }

  /** The order has a stored line whose ID is staged: the orders the second subquery yields. */
  predicate OrderOfStagedLine(lines: set<OrderLine>, staged: seq<StagedLine>, orderId: string) {
    exists l2 :: l2 in lines && IsStagedId(staged, l2.lineId) && l2.orderId == Some(orderId)
  }

  /** The rows `DELETE FROM EcomOrderLines WHERE OrderLineID NOT IN (...) AND OrderLineOrderID IN (...)` removes. */
  function DeletedByLineId(lines: set<OrderLine>, staged: seq<StagedLine>): (r: set<OrderLine>)
    ensures r <= lines
    ensures forall l :: l in r ==> l.orderId.Some? && OrderOfStagedLine(lines, staged, l.orderId.value) &&
                                   NotInStagedIds(staged, l.lineId)
    ensures forall l :: (l in lines && l.orderId.Some? && OrderOfStagedLine(lines, staged, l.orderId.value) &&
                         NotInStagedIds(staged, l.lineId)) ==> l in r
  {
    set l | l in lines && NotInStagedIds(staged, l.lineId) && l.orderId.Some? &&
            OrderOfStagedLine(lines, staged, l.orderId.value)
  }

  /** The rows the DELETE removes, by which statement is chosen. */
  function DeletedLines(lines: set<OrderLine>, staged: seq<StagedLine>, orderIdMapped: bool): set<OrderLine> {
    if orderIdMapped then DeletedByJoin(lines, staged) else DeletedByLineId(lines, staged)
  }

  /** The order of a line counts as staged in this run: directly (join) or through a staged line (NOT IN). */
  predicate OrderInRun(lines: set<OrderLine>, staged: seq<StagedLine>, orderIdMapped: bool, orderId: string) {
    if orderIdMapped then OrderStaged(staged, orderId) else OrderOfStagedLine(lines, staged, orderId)
  }

  /**
   * Whichever statement runs, lines of orders not staged in this run are never deleted, and a
   * line the run staged again (by ID, or by ID and order) is kept.
   */
  lemma {:induction false} RemovalKeepsOtherOrders(lines: set<OrderLine>, staged: seq<StagedLine>, orderIdMapped: bool)
    ensures var deleted := DeletedLines(lines, staged, orderIdMapped);
      && deleted <= lines
      && (forall l :: l in lines && (l.orderId.None? || !OrderInRun(lines, staged, orderIdMapped, l.orderId.value))
                      ==> l !in deleted)
      && (forall l :: l in lines && IsStagedId(staged, l.lineId) && (orderIdMapped ==> StagedPair(staged, l))
                      ==> l !in deleted)
  {
    var deleted := DeletedLines(lines, staged, orderIdMapped);
    forall l | l in lines && IsStagedId(staged, l.lineId) && (orderIdMapped ==> StagedPair(staged, l))
      ensures l !in deleted
    {
      if !orderIdMapped {
        var i :| 0 <= i < |staged| && staged[i].lineId == Some(l.lineId);
        assert !NotInStagedIds(staged, l.lineId);
      }
    }
  }

  /** SQL's NOT IN over a column holding a NULL: with one staged line ID NULL, nothing is deleted. */
  lemma NullStagedIdDeletesNothing(lines: set<OrderLine>, staged: seq<StagedLine>, i: nat)
    requires i < |staged| && staged[i].lineId.None?
    ensures DeletedLines(lines, staged, false) == {}
  {
    forall l | l in lines
      ensures !NotInStagedIds(staged, l.lineId)
    {
      assert !staged[i].lineId.Some?;
    }
  }

  /**
   * When staging moves no stored line to another order, the NOT IN statement deletes no line
   * the join statement would keep.
   */
  lemma {:induction false} LineIdDeletesWithinJoin(lines: set<OrderLine>, staged: seq<StagedLine>)
    requires forall l, i :: l in lines && 0 <= i < |staged| && staged[i].lineId == Some(l.lineId)
                            ==> staged[i].orderId == l.orderId
    ensures DeletedLines(lines, staged, false) <= DeletedLines(lines, staged, true)
  {
    forall l | l in DeletedByLineId(lines, staged)
      ensures l in DeletedByJoin(lines, staged)
    {
      var o := l.orderId.value;
      var l2 :| l2 in lines && IsStagedId(staged, l2.lineId) && l2.orderId == Some(o);
      var i :| 0 <= i < |staged| && staged[i].lineId == Some(l2.lineId);
      assert staged[i].orderId == Some(o);
      assert OrderStaged(staged, o);
      assert !StagedPair(staged, l) by {
        assert NotInStagedIds(staged, l.lineId);
      }
    }
  }

  // ---------------------------------------------------------------------------------------
  // The statement text

  /** The staging table the DELETE reads: `EcomOrderLinesTempTableForBulkImport{mapping id}`. */
  function DeleteTempTableName(mappingId: string): string {
    DeleteTempTableStem + mappingId
  }

  const DeleteTempTableStem := "EcomOrderLinesTempTableForBulkImport"

  /** The table name the DELETE spells out is the writer's EcomOrderLines name and staging marker. */
  lemma DeleteStemIsStagingStem()
    ensures DeleteTempTableStem == OrderLinesTable + TempTableMarker
  {
  }

  const JoinDeleteHead := "DELETE t1 FROM EcomOrderLines AS t1 LEFT JOIN "
  const JoinDeleteMiddle := " t2 ON t1.OrderLineID = t2.OrderLineID AND t1.OrderLineOrderID = t2.OrderLineOrderID "
                            + "WHERE t2.OrderLineID IS NULL AND t1.OrderLineOrderID IN (SELECT DISTINCT(OrderLineOrderID) from "
  const NotInDeleteHead := "DELETE FROM EcomOrderLines WHERE OrderLineID NOT IN (SELECT OrderLineID FROM "
  const NotInDeleteMiddle := ") AND OrderLineOrderID IN(SELECT DISTINCT(OrderLineOrderID) FROM EcomOrderLines "
                             + "WHERE OrderLineID IN(SELECT OrderLineID FROM "

  /** The DELETE statement, naming the staging table twice: the LEFT JOIN form or the NOT IN form. */
  function DeleteCommandText(tempTableName: string, orderIdMapped: bool): string {
    if orderIdMapped then JoinDeleteHead + tempTableName + JoinDeleteMiddle + tempTableName + ")"
    else NotInDeleteHead + tempTableName + NotInDeleteMiddle + tempTableName + "))"
  }

  lemma LowerAppend(a: string, b: string)
    ensures Lower(a + b) == Lower(a) + Lower(b)
  {
    assert forall i :: 0 <= i < |a + b| ==> Lower(a + b)[i] == (Lower(a) + Lower(b))[i];
  }

  /**
   * The DELETE reads the table the EcomOrderLines writer staged into: the same name for a
   * mapping onto EcomOrderLines, and the same name up to case (which SQL Server's default
   * collation ignores) for a mapping onto the table in other letter case.
   */
  lemma DeleteReadsStagingTable(destinationTableName: string, mappingId: string)
    requires EqualsIgnoreCase(destinationTableName, OrderLinesTable)
    ensures EqualsIgnoreCase(StagingTableName(destinationTableName, mappingId), DeleteTempTableName(mappingId))
    ensures destinationTableName == OrderLinesTable ==>
      StagingTableName(destinationTableName, mappingId) == DeleteTempTableName(mappingId)
  {
    DeleteStemIsStagingStem();
    assert DeleteTempTableName(mappingId) == OrderLinesTable + TempTablePrefix(mappingId);
    LowerAppend(destinationTableName, TempTablePrefix(mappingId));
    LowerAppend(OrderLinesTable, TempTablePrefix(mappingId));
  }
}
