/**
 * The order source reader: the SELECT it composes for a mapping, the rows it hands out,
 * and the export roster (the order IDs read from EcomOrders) that it keeps in static state
 * and later flags as exported in chunked UPDATE statements.
 */
module SourceReader {
  import opened Wrappers
  import opened Text
  import opened Integration

  const NotExportedPredicate := "([OrderIsExported] = 0 OR [OrderIsExported] IS NULL)"
  const WithoutExternalIdPredicate := "([OrderIntegrationOrderID] = '' OR [OrderIntegrationOrderID] IS NULL)"
  const CompletedOnlyPredicate := "[OrderCart] != 1 AND [OrderComplete] = 1"
  /** The completed-only predicate as written after another clause (with a double space). */
  const And := " AND "
  const CompletedOnlyPredicateAfterAnd := "[OrderCart] != 1  AND [OrderComplete] = 1"

  // ---------------------------------------------------------------------------------------
  // WHERE clause

  /**
   * The library's conditionals text loses its last four characters (its trailing "AND ");
   * a non-empty text shorter than that makes Substring throw.
   */
  function TrimConditionals(conditionalsSql: string): (r: Result<string, Fault>)
    ensures r.Failure? <==> conditionalsSql != "" && |conditionalsSql| < 4
    ensures r.Success? ==> r.value <= conditionalsSql && (conditionalsSql != "" ==> |r.value| == |conditionalsSql| - 4)
  {
    if conditionalsSql == "" then Success("")
    else if |conditionalsSql| < 4 then Failure(SubstringOutOfRange)
    else Success(conditionalsSql[..|conditionalsSql| - 4])
  }

  function AndAlso(acc: string, clause: string): string {
    if acc == "" then clause else acc + And + clause
  }

  /** `GetWhereSql`: the conditionals, then each flag's predicate, built step by step as the source does. */
  function GetWhereSql(conditionalsSql: string, exportNotExportedOrders: bool,
                       exportOnlyOrdersWithoutExtId: bool, doNotExportCarts: bool): (r: Result<string, Fault>)
    ensures r.Failure? <==> TrimConditionals(conditionalsSql).Failure?
  {
    match TrimConditionals(conditionalsSql)
    case Failure(f) => Failure(f)
    case Success(c0) =>
      var c1 := if exportNotExportedOrders then AndAlso(c0, NotExportedPredicate) else c0;
      var c2 := if exportOnlyOrdersWithoutExtId then AndAlso(c1, WithoutExternalIdPredicate) else c1;
      var c3 := if !doNotExportCarts then c2
                else if c2 == "" then CompletedOnlyPredicate
                else c2 + And + CompletedOnlyPredicateAfterAnd;
      Success(c3)
  }

  /**
   * The clauses of the WHERE text, in order: the trimmed conditionals when non-empty, then
   * one predicate per set flag. The completed-only predicate has its double-spaced form
   * whenever another clause precedes it.
   */
  function WhereClauses(trimmed: string, exportNotExportedOrders: bool,
                        exportOnlyOrdersWithoutExtId: bool, doNotExportCarts: bool): seq<string>
  {
    var head := (if trimmed == "" then [] else [trimmed])
              + (if exportNotExportedOrders then [NotExportedPredicate] else [])
              + (if exportOnlyOrdersWithoutExtId then [WithoutExternalIdPredicate] else []);
    head + (if !doNotExportCarts then []
            else if head == [] then [CompletedOnlyPredicate]
            else [CompletedOnlyPredicateAfterAnd])
  }

  predicate NonEmptyClauses(parts: seq<string>) {
    forall i :: 0 <= i < |parts| ==> parts[i] != ""
  }

  lemma PredicatesNonEmpty()
    ensures NotExportedPredicate != "" && WithoutExternalIdPredicate != ""
    ensures CompletedOnlyPredicate != "" && CompletedOnlyPredicateAfterAnd != ""
  {
  }

  /** Adding a clause with `AndAlso` to the joined clauses joins one clause more. */
  lemma AndAlsoSnoc(parts: seq<string>, clause: string)
    requires NonEmptyClauses(parts) && clause != ""
    ensures AndAlso(Join(parts, And), clause) == Join(parts + [clause], And)
    ensures NonEmptyClauses(parts + [clause])
  {
    JoinEmptyIff(parts, And);
    JoinSnoc(parts, And, clause);
  }

  /** The completed-only step: the plain predicate on an empty text, the double-spaced one after " AND ". */
  lemma CompletedOnlySnoc(parts: seq<string>)
    requires NonEmptyClauses(parts)
    ensures var acc := Join(parts, And);
            (if acc == "" then CompletedOnlyPredicate else acc + And + CompletedOnlyPredicateAfterAnd)
            == Join(parts + [if parts == [] then CompletedOnlyPredicate else CompletedOnlyPredicateAfterAnd], And)
  {
    JoinEmptyIff(parts, And);
    JoinSnoc(parts, And, if parts == [] then CompletedOnlyPredicate else CompletedOnlyPredicateAfterAnd);
  }

  /** The step-by-step build equals the present clauses joined by " AND ". */
  lemma WhereSqlJoinsClauses(conditionalsSql: string, exportNotExportedOrders: bool,
                             exportOnlyOrdersWithoutExtId: bool, doNotExportCarts: bool)
    requires TrimConditionals(conditionalsSql).Success?
    ensures GetWhereSql(conditionalsSql, exportNotExportedOrders, exportOnlyOrdersWithoutExtId, doNotExportCarts)
         == Success(Join(WhereClauses(TrimConditionals(conditionalsSql).value, exportNotExportedOrders,
                                      exportOnlyOrdersWithoutExtId, doNotExportCarts), And))
  {
    PredicatesNonEmpty();
    var c0 := TrimConditionals(conditionalsSql).value;
    var p0: seq<string> := if c0 == "" then [] else [c0];
    var p1 := p0 + (if exportNotExportedOrders then [NotExportedPredicate] else []);
    var p2 := p1 + (if exportOnlyOrdersWithoutExtId then [WithoutExternalIdPredicate] else []);
    var c1 := if exportNotExportedOrders then AndAlso(c0, NotExportedPredicate) else c0;
    var c2 := if exportOnlyOrdersWithoutExtId then AndAlso(c1, WithoutExternalIdPredicate) else c1;
    assert c0 == Join(p0, And) && NonEmptyClauses(p0);
    if exportNotExportedOrders { AndAlsoSnoc(p0, NotExportedPredicate); } else { assert p1 == p0; }
    assert c1 == Join(p1, And) && NonEmptyClauses(p1);
    if exportOnlyOrdersWithoutExtId { AndAlsoSnoc(p1, WithoutExternalIdPredicate); } else { assert p2 == p1; }
    assert c2 == Join(p2, And) && NonEmptyClauses(p2);
    var last := if p2 == [] then CompletedOnlyPredicate else CompletedOnlyPredicateAfterAnd;
    var clauses := WhereClauses(c0, exportNotExportedOrders, exportOnlyOrdersWithoutExtId, doNotExportCarts);
    if doNotExportCarts {
      assert clauses == p2 + [last];
      CompletedOnlySnoc(p2);
    } else {
      assert clauses == p2;
    }
  }

  /** Every clause of the WHERE text is non-empty. */
  lemma WhereClausesNonEmpty(trimmed: string, exportNotExportedOrders: bool,
                             exportOnlyOrdersWithoutExtId: bool, doNotExportCarts: bool)
    ensures NonEmptyClauses(WhereClauses(trimmed, exportNotExportedOrders, exportOnlyOrdersWithoutExtId, doNotExportCarts))
  {
    PredicatesNonEmpty();
  }

  /** The WHERE text is empty exactly when there are no conditionals and no flag is set. */
  lemma WhereSqlEmptyIff(conditionalsSql: string, exportNotExportedOrders: bool,
                         exportOnlyOrdersWithoutExtId: bool, doNotExportCarts: bool)
    requires TrimConditionals(conditionalsSql).Success?
    ensures GetWhereSql(conditionalsSql, exportNotExportedOrders, exportOnlyOrdersWithoutExtId, doNotExportCarts).value == ""
        <==> TrimConditionals(conditionalsSql).value == "" && !exportNotExportedOrders
             && !exportOnlyOrdersWithoutExtId && !doNotExportCarts
  {
    var trimmed := TrimConditionals(conditionalsSql).value;
    var clauses := WhereClauses(trimmed, exportNotExportedOrders, exportOnlyOrdersWithoutExtId, doNotExportCarts);
    WhereSqlJoinsClauses(conditionalsSql, exportNotExportedOrders, exportOnlyOrdersWithoutExtId, doNotExportCarts);
    WhereClausesNonEmpty(trimmed, exportNotExportedOrders, exportOnlyOrdersWithoutExtId, doNotExportCarts);
    JoinEmptyIff(clauses, And);
  }

  // ---------------------------------------------------------------------------------------
  // Column list and FROM clause

  const ExternalIdAlias := ", [AccessUserExternalId] as [OrderCustomerAccessUserExternalId]"
  /** The entry appended when OrderId is not selected: `", [OrderId]"`. */
  const OrderIdEntry := " [OrderId]"
  const OrderIdColumnEntry := [','] + OrderIdEntry

  /** Some comma-separated entry, trimmed of spaces and brackets, is OrderId (ignoring case). */
  predicate SelectsOrderId(columns: string) {
    exists e :: e in Split(columns, ',') && EqualsIgnoreCase(Trim(e), "OrderId")
  }

  /** TrimStart drops a run of trim characters and stops at the first other character. */
  lemma {:induction false} TrimStartDropsRun(run: string, rest: string)
    requires forall i :: 0 <= i < |run| ==> IsColumnTrimChar(run[i])
    requires rest != [] && !IsColumnTrimChar(rest[0])
    ensures TrimStart(run + rest) == rest
    decreases |run|
  {
    if run != [] {
      assert (run + rest)[1..] == run[1..] + rest;
      TrimStartDropsRun(run[1..], rest);
    }
  }

  /** TrimEnd drops a trailing run of trim characters and stops at the last other character. */
  lemma {:induction false} TrimEndDropsRun(rest: string, run: string)
    requires forall i :: 0 <= i < |run| ==> IsColumnTrimChar(run[i])
    requires rest != [] && !IsColumnTrimChar(rest[|rest| - 1])
    ensures TrimEnd(rest + run) == rest
    decreases |run|
  {
    if run != [] {
      assert (rest + run)[..|rest + run| - 1] == rest + run[..|run| - 1];
      TrimEndDropsRun(rest, run[..|run| - 1]);
    }
  }

  lemma OrderIdEntryTrimStart()
    ensures TrimStart(" [OrderId]") == "OrderId]"
  {
    assert " [OrderId]" == " [" + "OrderId]";
    TrimStartDropsRun(" [", "OrderId]");
  }

  lemma OrderIdEntryTrimEnd()
    ensures TrimEnd("OrderId]") == "OrderId"
  {
    assert "OrderId]" == "OrderId" + "]";
    TrimEndDropsRun("OrderId", "]");
  }

  /** The entry ", [OrderId]" appends reads back, trimmed, as OrderId. */
  lemma OrderIdEntryTrims(entry: string)
    requires entry == " [OrderId]"
    ensures Trim(entry) == "OrderId"
  {
    OrderIdEntryTrimStart();
    OrderIdEntryTrimEnd();
  }

  lemma OrderIdEntrySelects(columns: string)
    ensures SelectsOrderId(columns + OrderIdColumnEntry)
  {
    assert ',' !in OrderIdEntry;
    SplitAppend(columns, ',', OrderIdEntry);
    assert columns + OrderIdColumnEntry == columns + [','] + OrderIdEntry;
    OrderIdEntryTrims(OrderIdEntry);
    var pieces := Split(columns + OrderIdColumnEntry, ',');
    assert pieces[|pieces| - 1] == OrderIdEntry;
  }

  /**
   * `GetColumns`: the library's distinct-column text without its trailing ", "; for
   * EcomOrders the user's external ID is aliased in and OrderId appended unless selected.
   */
  function GetColumns(distinctColumns: string, sourceTableName: string): (r: Result<string, Fault>)
    ensures r.Failure? <==> |distinctColumns| < 2
    ensures r.Success? ==> distinctColumns[..|distinctColumns| - 2] <= r.value
    ensures r.Success? && sourceTableName != OrdersTable ==> r.value == distinctColumns[..|distinctColumns| - 2]
    ensures r.Success? && sourceTableName == OrdersTable ==>
      SelectsOrderId(r.value) &&
      (distinctColumns[..|distinctColumns| - 2] + ExternalIdAlias) <= r.value &&
      (SelectsOrderId(distinctColumns[..|distinctColumns| - 2] + ExternalIdAlias) ==>
        r.value == distinctColumns[..|distinctColumns| - 2] + ExternalIdAlias) &&
      (!SelectsOrderId(distinctColumns[..|distinctColumns| - 2] + ExternalIdAlias) ==>
        r.value == distinctColumns[..|distinctColumns| - 2] + ExternalIdAlias + OrderIdColumnEntry)
  {
    if |distinctColumns| < 2 then Failure(SubstringOutOfRange)
    else
      var columns := distinctColumns[..|distinctColumns| - 2];
      if sourceTableName == OrdersTable then
        var aliased := columns + ExternalIdAlias;
        if SelectsOrderId(aliased) then Success(aliased)
        else
          OrderIdEntrySelects(aliased);
          Success(aliased + OrderIdColumnEntry)
      else Success(columns)
  }

  const OrdersJoinedWithUsers := "[dbo].[EcomOrders] left join dbo.AccessUser on OrderCustomerAccessUserID = AccessUserID"
  const OrderLinesJoin := " inner join EcomOrders on EcomOrderLines.OrderLineOrderID = EcomOrders.OrderID"

  function QualifiedName(sqlSchema: string, name: string): string {
    "[" + sqlSchema + "].[" + name + "] "
  }

  /** `GetFromTables`: the FROM clause, chosen by table. */
  function GetFromTables(sqlSchema: string, name: string): (r: string)
    ensures name == OrdersTable ==> r == OrdersJoinedWithUsers
    ensures name == OrderLinesTable ==> r == QualifiedName(sqlSchema, name) + OrderLinesJoin
    ensures name != OrdersTable && name != OrderLinesTable ==> r == QualifiedName(sqlSchema, name)
  {
    var result := QualifiedName(sqlSchema, name);
    if name == OrderLinesTable then result + OrderLinesJoin
    else if name == OrdersTable then OrdersJoinedWithUsers
    else result
  }

  const SelectKeyword := "select "
  const FromKeyword := " from  "
  const WhereKeyword := " where "

  /** The statement `LoadReader` runs. */
  function SelectSql(columns: string, from: string, whereSql: string): string {
    SelectKeyword + columns + FromKeyword + from + (if whereSql == "" then "" else WhereKeyword + whereSql)
  }

  /**
   * What the reader's constructor ends up querying: `None` when the mapping has no column
   * mappings (no reader is opened), a Failure when GetWhereSql or GetColumns throws.
   */
  function ReaderQuery(table: Table, conditionalsSql: string, hasColumnMappings: bool, distinctColumns: string,
                       exportNotExportedOrders: bool, exportOnlyOrdersWithoutExtId: bool,
                       doNotExportCarts: bool): Result<Option<string>, Fault>
  {
    var whereSql :=
      if table.name == OrdersTable || table.name == OrderLinesTable
      then GetWhereSql(conditionalsSql, exportNotExportedOrders, exportOnlyOrdersWithoutExtId, doNotExportCarts)
      else Success("");
    if whereSql.Failure? then Failure(whereSql.error)
    else if !hasColumnMappings then Success(None)
    else match GetColumns(distinctColumns, table.name)
      case Failure(e) => Failure(OpenReaderFailed(e))
      case Success(columns) => Success(Some(SelectSql(columns, GetFromTables(table.sqlSchema, table.name), whereSql.value)))
  }

  /** Tables other than EcomOrders and EcomOrderLines are read without any WHERE clause. */
  lemma OtherTablesReadUnfiltered(table: Table, conditionalsSql: string, distinctColumns: string,
                                  f1: bool, f2: bool, f3: bool)
    requires table.name != OrdersTable && table.name != OrderLinesTable
    requires |distinctColumns| >= 2
    ensures ReaderQuery(table, conditionalsSql, true, distinctColumns, f1, f2, f3)
         == Success(Some(SelectKeyword + distinctColumns[..|distinctColumns| - 2] + FromKeyword
                         + QualifiedName(table.sqlSchema, table.name)))
  {
    var columns := distinctColumns[..|distinctColumns| - 2];
    var from := QualifiedName(table.sqlSchema, table.name);
    assert SelectSql(columns, from, "") == SelectKeyword + columns + FromKeyword + from;
  }

  /**
   * For EcomOrders and EcomOrderLines, the query's WHERE text is the present clauses joined
   * by " AND ", so " where " is added exactly when there is a clause at all.
   */
  lemma FilteredTablesQuery(table: Table, conditionalsSql: string, distinctColumns: string,
                            f1: bool, f2: bool, f3: bool)
    requires table.name == OrdersTable || table.name == OrderLinesTable
    requires TrimConditionals(conditionalsSql).Success? && |distinctColumns| >= 2
    ensures var clauses := WhereClauses(TrimConditionals(conditionalsSql).value, f1, f2, f3);
            && ReaderQuery(table, conditionalsSql, true, distinctColumns, f1, f2, f3)
                 == Success(Some(SelectSql(GetColumns(distinctColumns, table.name).value,
                                           GetFromTables(table.sqlSchema, table.name), Join(clauses, And))))
            && (Join(clauses, And) == "" <==> clauses == [])
  {
    var clauses := WhereClauses(TrimConditionals(conditionalsSql).value, f1, f2, f3);
    WhereSqlJoinsClauses(conditionalsSql, f1, f2, f3);
    WhereClausesNonEmpty(TrimConditionals(conditionalsSql).value, f1, f2, f3);
    JoinEmptyIff(clauses, And);
  }

  // ---------------------------------------------------------------------------------------
  // Rows and the export roster

  predicate NoDuplicates<T(==)>(s: seq<T>) {
    forall i, j :: 0 <= i < j < |s| ==> s[i] != s[j]
  }

  /** The names of the non-null source columns of the column mappings. */
  function SourceColumnNames(columnMappings: seq<ColumnMapping>): set<string> {
    set i | 0 <= i < |columnMappings| && columnMappings[i].sourceColumn.Some? :: columnMappings[i].sourceColumn.value.name
  }

  /** The row `GetNext` builds from the cursor's current record: one entry per source column name. */
  function RecordRow(columnMappings: seq<ColumnMapping>, record: map<string, Value>): (row: map<string, Value>)
    requires SourceColumnNames(columnMappings) <= record.Keys
    ensures row.Keys == SourceColumnNames(columnMappings)
    ensures forall k :: k in row ==> row[k] == record[k]
  {
    map k | k in SourceColumnNames(columnMappings) :: record[k]
  }

  /** One order ID read into the roster: kept when non-empty and not yet present. */
  function RosterAfter(roster: seq<string>, orderId: string): seq<string> {
    if orderId == "" || orderId in roster then roster else roster + [orderId]
  }

  /** The roster after reading the given order IDs, in order, into an empty one. */
  function RosterOf(orderIds: seq<string>): seq<string> {
    if orderIds == [] then []
    else RosterAfter(RosterOf(orderIds[..|orderIds| - 1]), orderIds[|orderIds| - 1])
  }

  predicate IsRoster(roster: seq<string>) {
    NoDuplicates(roster) && forall i :: 0 <= i < |roster| ==> roster[i] != ""
  }

  /** The roster holds each non-empty order ID read exactly once. */
  lemma {:induction false} RosterOfIsDistinctIds(orderIds: seq<string>)
    ensures IsRoster(RosterOf(orderIds))
    ensures forall id :: id in RosterOf(orderIds) <==> id in orderIds && id != ""
  {
    if orderIds != [] {
      RosterOfIsDistinctIds(orderIds[..|orderIds| - 1]);
      assert orderIds == orderIds[..|orderIds| - 1] + [orderIds[|orderIds| - 1]];
    }
  }

  /** The static `_ordersConditions` and `_ordersToExport` of the reader class; `None` is null. */
  class ExportRoster {
    var ordersConditions: Option<seq<Conditional>>
    var ordersToExport: Option<seq<string>>

    ghost predicate Valid()
      reads this
    {
      ordersToExport.Some? ==> IsRoster(ordersToExport.value)
    }

    constructor ()
      ensures Valid() && ordersConditions == None && ordersToExport == None
    {
      ordersConditions := None;
      ordersToExport := None;
    }

    /**
     * `UpdateExportedOrdersInDb`. `failAt` is the index of the UPDATE whose execution
     * throws, if any: the transaction is then rolled back and no later chunk is issued.
     * Either way both statics are cleared once a non-empty roster has been processed.
     */
    method UpdateExportedOrdersInDb(orderStateIdAfterExport: Option<string>, failAt: Option<nat>)
      returns (outcome: SyncOutcome)
      requires Valid()
      modifies this
      ensures Valid()
      ensures old(ordersToExport).None? || old(ordersToExport).value == [] ==>
        outcome == NothingToExport && ordersToExport == old(ordersToExport) && ordersConditions == old(ordersConditions)
      ensures old(ordersToExport).Some? && old(ordersToExport).value != [] ==>
        ordersToExport.None? && ordersConditions.None? &&
        var all := ExportCommands(orderStateIdAfterExport, old(ordersToExport).value);
        if failAt.Some? && failAt.value < |all| then outcome == RolledBack(all[..failAt.value + 1])
        else outcome == Committed(all)
    {
      if ordersToExport.None? || |ordersToExport.value| == 0 {
        return NothingToExport;
      }
      var ids := ordersToExport.value;
      var sql := ExportedSetClause(orderStateIdAfterExport);
      var issued: seq<string>;
      var failed: bool;
      if |ids| > ChunkSize {
        issued, failed := IssueChunks(sql, ids, failAt);
      } else {
        issued := [UpdateCommand(sql, ids)];
        failed := failAt.Some? && failAt.value == 0;
      }
      ordersConditions := None;
      ordersToExport := None;
      outcome := if failed then RolledBack(issued) else Committed(issued);
    }
  }

  /**
   * The chunked branch of `UpdateExportedOrdersInDb`: one UPDATE per chunk of 100 IDs with a
   * non-empty joined text, stopping after the UPDATE at index `failAt`, which throws.
   */
  method IssueChunks(sql: string, ids: seq<string>, failAt: Option<nat>) returns (issued: seq<string>, failed: bool)
    requires |ids| > ChunkSize
    ensures var all := ChunkCommands(sql, Chunks(ids));
            if failAt.Some? && failAt.value < |all| then failed && issued == all[..failAt.value + 1]
            else !failed && issued == all
  {
    ghost var all := ChunkCommands(sql, Chunks(ids));
    issued := [];
    failed := false;
    var taken := 0;
    CommandsFromStart(sql, ids);
    while taken < |ids|
      invariant taken <= |ids| && !failed
      invariant failAt.Some? ==> failAt.value >= |issued|
      invariant all == issued + CommandsFrom(sql, ids, taken)
    {
      var end := ChunkEnd(|ids|, taken);
      var chunk := ids[taken..end];
      CommandsFromStep(sql, ids, taken);
      var command := ChunkCommand(sql, chunk);
      if command != [] {
        ConcatAssociates(issued, command, CommandsFrom(sql, ids, end));
        issued := issued + command;
        if failAt.Some? && failAt.value + 1 == |issued| {
          failed := true;
          PrefixOfConcat(issued, CommandsFrom(sql, ids, end));
          return;
        }
      } else {
        EmptyConcat(command, CommandsFrom(sql, ids, end));
      }
      taken := end;
    }
    EmptyConcat([], issued);
  }

  lemma ConcatAssociates<T>(a: seq<T>, b: seq<T>, c: seq<T>)
    ensures a + (b + c) == (a + b) + c
  {
  }

  lemma EmptyConcat<T>(a: seq<T>, b: seq<T>)
    requires a == []
    ensures a + b == b && b + a == b
  {
  }

  lemma PrefixOfConcat<T>(a: seq<T>, b: seq<T>)
    ensures (a + b)[..|a|] == a
  {
  }

  /** Where the chunk starting at `taken` ends: `Skip(taken).Take(100)` over `n` IDs. */
  function ChunkEnd(n: nat, taken: nat): (end: nat)
    requires taken < n
    ensures taken < end <= n && end <= taken + ChunkSize
    ensures end < n ==> end == taken + ChunkSize
  {
    if taken + ChunkSize < n then taken + ChunkSize else n
  }

  lemma CommandsFromStart(sql: string, ids: seq<string>)
    requires ids != []
    ensures CommandsFrom(sql, ids, 0) == ChunkCommands(sql, Chunks(ids))
  {
    assert ids[0..] == ids;
  }

  /** The UPDATEs still to issue once the first `taken` IDs have been chunked. */
  ghost function CommandsFrom(sql: string, ids: seq<string>, taken: nat): seq<string> {
    if taken < |ids| then ChunkCommands(sql, Chunks(ids[taken..])) else []
  }

  /** One turn of the loop: the chunk at `taken` contributes its UPDATE, if any, before the rest. */
  lemma CommandsFromStep(sql: string, ids: seq<string>, taken: nat)
    requires taken < |ids|
    ensures var end := ChunkEnd(|ids|, taken);
            CommandsFrom(sql, ids, taken) == ChunkCommand(sql, ids[taken..end]) + CommandsFrom(sql, ids, end)
  {
    var end := ChunkEnd(|ids|, taken);
    ChunksStep(ids, taken);
    var chunks := Chunks(ids[taken..]);
    assert chunks[0] == ids[taken..end];
    assert ChunkCommands(sql, chunks) == ChunkCommand(sql, chunks[0]) + ChunkCommands(sql, chunks[1..]);
    if end < |ids| {
      assert chunks[1..] == Chunks(ids[end..]);
    } else {
      assert chunks[1..] == [];
    }
  }

  /** One turn of the chunking loop: the chunk at `taken`, then the chunks after it. */
  lemma ChunksStep(ids: seq<string>, taken: nat)
    requires taken < |ids|
    ensures var end := ChunkEnd(|ids|, taken);
            Chunks(ids[taken..]) == [ids[taken..end]] + (if end < |ids| then Chunks(ids[end..]) else [])
  {
    var end := ChunkEnd(|ids|, taken);
    if end < |ids| {
      assert ids[taken..][..ChunkSize] == ids[taken..end];
      assert ids[taken..][ChunkSize..] == ids[end..];
    } else {
      assert ids[taken..] == ids[taken..end];
    }
  }

  /** The outcome of flagging the roster as exported. */
  datatype SyncOutcome =
    | NothingToExport
    | Committed(commands: seq<string>)   // every UPDATE ran and the transaction committed
    | RolledBack(commands: seq<string>)  // the last UPDATE threw; the transaction was rolled back

  const ChunkSize := 100

  /** The roster cut into consecutive slices of at most `ChunkSize` IDs. */
  function Chunks(ids: seq<string>): seq<seq<string>>
    decreases |ids|
  {
    if |ids| <= ChunkSize then [ids] else [ids[..ChunkSize]] + Chunks(ids[ChunkSize..])
  }

  function ExportedSetClause(orderStateIdAfterExport: Option<string>): string {
    "UPDATE EcomOrders SET OrderIsExported = 1"
      + (if IsNullOrEmpty(orderStateIdAfterExport) then ""
         else ", OrderStateID = '" + orderStateIdAfterExport.value + "'")
  }

  const IdSeparator := "','"

  const IdListOpen := " WHERE [OrderID] IN ('"
  const IdListClose := "')"

  function UpdateCommand(setSql: string, ids: seq<string>): string {
    setSql + IdListOpen + Join(ids, IdSeparator) + IdListClose
  }

  /** The UPDATE for one chunk, when its joined ID text is non-empty. */
  function ChunkCommand(setSql: string, chunk: seq<string>): seq<string> {
    if Join(chunk, IdSeparator) != "" then [UpdateCommand(setSql, chunk)] else []
  }

  /** One UPDATE per chunk whose joined ID text is non-empty, in chunk order. */
  function ChunkCommands(setSql: string, chunks: seq<seq<string>>): seq<string> {
    if chunks == [] then []
    else ChunkCommand(setSql, chunks[0]) + ChunkCommands(setSql, chunks[1..])
  }

  /** The UPDATE statements `UpdateExportedOrdersInDb` issues for a roster, in order. */
  function ExportCommands(orderStateIdAfterExport: Option<string>, ids: seq<string>): seq<string> {
    if ids == [] then []
    else if |ids| > ChunkSize then ChunkCommands(ExportedSetClause(orderStateIdAfterExport), Chunks(ids))
    else [UpdateCommand(ExportedSetClause(orderStateIdAfterExport), ids)]
  }

  function Flatten(chunks: seq<seq<string>>): seq<string> {
    if chunks == [] then [] else chunks[0] + Flatten(chunks[1..])
  }

  /** The chunks, concatenated, give back the roster. */
  lemma {:induction false} ChunksCoverRoster(ids: seq<string>)
    ensures Flatten(Chunks(ids)) == ids
    decreases |ids|
  {
    if |ids| > ChunkSize {
      ChunksCoverRoster(ids[ChunkSize..]);
      assert ids == ids[..ChunkSize] + ids[ChunkSize..];
    }
  }

  /** Every chunk of a non-empty roster holds 1 to 100 IDs, all but the last exactly 100. */
  lemma {:induction false} ChunkSizes(ids: seq<string>)
    requires ids != []
    ensures forall k :: 0 <= k < |Chunks(ids)| ==> 0 < |Chunks(ids)[k]| <= ChunkSize
    ensures forall k :: 0 <= k < |Chunks(ids)| - 1 ==> |Chunks(ids)[k]| == ChunkSize
    ensures |Chunks(ids)| == (|ids| + ChunkSize - 1) / ChunkSize
    decreases |ids|
  {
    if |ids| > ChunkSize {
      ChunkSizes(ids[ChunkSize..]);
      var c := Chunks(ids);
      assert c == [ids[..ChunkSize]] + Chunks(ids[ChunkSize..]);
      forall k | 1 <= k < |c|
        ensures c[k] == Chunks(ids[ChunkSize..])[k - 1]
      {
      }
    }
  }

  /** Chunk `k` is the slice of the roster starting at `100 * k`. */
  lemma {:induction false} ChunkIsSlice(ids: seq<string>, k: nat)
    requires ids != [] && k < |Chunks(ids)|
    ensures ChunkSize * k < |ids|
    ensures Chunks(ids)[k] == ids[ChunkSize * k .. if ChunkSize * k + ChunkSize < |ids| then ChunkSize * k + ChunkSize else |ids|]
    decreases |ids|
  {
    if k > 0 {
      ChunkIsSlice(ids[ChunkSize..], k - 1);
      assert ids[ChunkSize..][ChunkSize * (k - 1)..] == ids[ChunkSize * k..];
    }
  }

  /** In a duplicate-free roster each ID lies in exactly one chunk. */
  lemma ChunksPartitionRoster(ids: seq<string>, id: string)
    requires NoDuplicates(ids) && id in ids
    ensures exists k :: 0 <= k < |Chunks(ids)| && id in Chunks(ids)[k]
    ensures forall k1, k2 :: 0 <= k1 < k2 < |Chunks(ids)| ==> !(id in Chunks(ids)[k1] && id in Chunks(ids)[k2])
  {
    var c := Chunks(ids);
    var i :| 0 <= i < |ids| && ids[i] == id;
    ChunkSizes(ids);
    var k := i / ChunkSize;
    ChunkIsSlice(ids, k);
    assert id == c[k][i - ChunkSize * k];
    forall k1, k2 | 0 <= k1 < k2 < |c| && id in c[k1]
      ensures id !in c[k2]
    {
      ChunkIsSlice(ids, k1);
      ChunkIsSlice(ids, k2);
      var a :| 0 <= a < |c[k1]| && c[k1][a] == id;
      assert ids[ChunkSize * k1 + a] == id;
      forall b | 0 <= b < |c[k2]|
        ensures c[k2][b] != id
      {
        assert c[k2][b] == ids[ChunkSize * k2 + b];
        assert ChunkSize * k1 + a < ChunkSize * k2 + b;
      }
    }
  }

  /** With no empty IDs in the roster, every chunk gets its own UPDATE, in order. */
  lemma {:induction false} OneCommandPerChunk(setSql: string, chunks: seq<seq<string>>)
    requires forall k :: 0 <= k < |chunks| ==> chunks[k] != [] && forall i :: 0 <= i < |chunks[k]| ==> chunks[k][i] != ""
    ensures |ChunkCommands(setSql, chunks)| == |chunks|
    ensures forall k :: 0 <= k < |chunks| ==> ChunkCommands(setSql, chunks)[k] == UpdateCommand(setSql, chunks[k])
  {
    if chunks != [] {
      JoinEmptyIff(chunks[0], IdSeparator);
      OneCommandPerChunk(setSql, chunks[1..]);
    }
  }

  /** For a roster kept by `GetNext`, the statements are exactly one UPDATE per chunk. */
  lemma ExportCommandsPerChunk(orderStateIdAfterExport: Option<string>, ids: seq<string>)
    requires IsRoster(ids) && ids != []
    ensures var commands := ExportCommands(orderStateIdAfterExport, ids);
            |commands| == |Chunks(ids)| &&
            forall k :: 0 <= k < |commands| ==>
              commands[k] == UpdateCommand(ExportedSetClause(orderStateIdAfterExport), Chunks(ids)[k])
  {
    var c := Chunks(ids);
    ChunkSizes(ids);
    if |ids| > ChunkSize {
      forall k | 0 <= k < |c|
        ensures c[k] != [] && forall i :: 0 <= i < |c[k]| ==> c[k][i] != ""
      {
        ChunkIsSlice(ids, k);
      }
      OneCommandPerChunk(ExportedSetClause(orderStateIdAfterExport), c);
    }
  }

  /** 250 exported IDs give three UPDATEs, over 100, 100 and 50 IDs. */
  lemma TwoHundredFiftyIdsGiveThreeChunks(ids: seq<string>)
    requires |ids| == 250
    ensures |Chunks(ids)| == 3
    ensures |Chunks(ids)[0]| == 100 && |Chunks(ids)[1]| == 100 && |Chunks(ids)[2]| == 50
  {
    ChunkSizes(ids);
    ChunkIsSlice(ids, 2);
  }

  // ---------------------------------------------------------------------------------------
  // The reader

  class OrderSourceReader {
    const mapping: Mapping
    const roster: ExportRoster
    const sourceTableName: string
    const columnMappings: seq<ColumnMapping>
    /** The SELECT the reader opened, `None` if it opened none, or the fault it threw. */
    const query: Result<Option<string>, Fault>

    /**
     * The constructor: a reader for EcomOrders starts a fresh roster and saves the mapping's
     * conditionals; a reader for EcomOrderLines appends those saved conditionals to its own.
     * `conditionalsSql` is the library's GetConditionalsSql and `distinctColumns` its
     * GetDistinctColumnsFromMapping result for this mapping.
     */
    constructor (mapping: Mapping, roster: ExportRoster, exportNotExportedOrders: bool,
                 exportOnlyOrdersWithoutExtId: bool, doNotExportCarts: bool,
                 conditionalsSql: seq<Conditional> -> string, distinctColumns: string)
      requires mapping.sourceTable.Some? && roster.Valid()
      modifies roster, mapping
      ensures roster.Valid()
      ensures this.mapping == mapping && this.roster == roster
      ensures sourceTableName == mapping.sourceTable.value.name
      ensures columnMappings == mapping.columnMappings == old(mapping.columnMappings)
      ensures sourceTableName == OrdersTable ==>
        roster.ordersToExport == Some([]) && roster.ordersConditions == Some(old(mapping.conditionals)) &&
        mapping.conditionals == old(mapping.conditionals)
      ensures sourceTableName != OrdersTable ==>
        roster.ordersToExport == old(roster.ordersToExport) && roster.ordersConditions == old(roster.ordersConditions)
      ensures sourceTableName == OrderLinesTable ==>
        mapping.conditionals == old(mapping.conditionals)
          + (if old(roster.ordersConditions).Some? then old(roster.ordersConditions).value else [])
      ensures sourceTableName != OrderLinesTable ==> mapping.conditionals == old(mapping.conditionals)
      ensures query == ReaderQuery(mapping.sourceTable.value, conditionalsSql(mapping.conditionals),
                                   |mapping.columnMappings| > 0, distinctColumns,
                                   exportNotExportedOrders, exportOnlyOrdersWithoutExtId, doNotExportCarts)
    {
      var table := mapping.sourceTable.value;
      if table.name == OrdersTable {
        roster.ordersToExport := Some([]);
        roster.ordersConditions := Some(mapping.conditionals);
      }
      if table.name == OrderLinesTable && roster.ordersConditions.Some? && |roster.ordersConditions.value| > 0 {
        mapping.conditionals := mapping.conditionals + roster.ordersConditions.value;
      }
      this.mapping := mapping;
      this.roster := roster;
      sourceTableName := table.name;
      columnMappings := mapping.columnMappings;
      query := ReaderQuery(table, conditionalsSql(mapping.conditionals), |mapping.columnMappings| > 0,
                           distinctColumns, exportNotExportedOrders, exportOnlyOrdersWithoutExtId, doNotExportCarts);
    }

    /**
     * `GetNext`: the row of the cursor's current `record`, keyed by source column name; on
     * EcomOrders a non-empty OrderId joins the roster (once) and is put in the row if absent.
     */
    method GetNext(record: map<string, Value>) returns (row: Row)
      requires roster.Valid()
      requires SourceColumnNames(columnMappings) <= record.Keys
      requires sourceTableName == OrdersTable ==> "OrderId" in record && roster.ordersToExport.Some?
      modifies roster
      ensures fresh(row) && roster.Valid()
      ensures roster.ordersConditions == old(roster.ordersConditions)
      ensures sourceTableName != OrdersTable ==>
        row.values == RecordRow(columnMappings, record) && roster.ordersToExport == old(roster.ordersToExport)
      ensures sourceTableName == OrdersTable ==>
        var orderId := ToText(record["OrderId"]);
        var fromRecord := RecordRow(columnMappings, record);
        roster.ordersToExport == Some(RosterAfter(old(roster.ordersToExport).value, orderId)) &&
        row.values == if orderId == "" || "OrderId" in fromRecord then fromRecord
                      else fromRecord["OrderId" := Text(orderId)]
    {
      var values := RecordRow(columnMappings, record);
      if sourceTableName == OrdersTable {
        var orderId := ToText(record["OrderId"]);
        if orderId != "" {
          var ids := roster.ordersToExport.value;
          if orderId !in ids {
            roster.ordersToExport := Some(ids + [orderId]);
          }
          if "OrderId" !in values {
            values := values["OrderId" := Text(orderId)];
          }
        }
      }
      row := new Row(values);
    }
  }

  /** Read row after row, the roster of an EcomOrders reader is exactly `RosterOf` the IDs read. */
  lemma RosterOfExtends(orderIds: seq<string>, next: string)
    ensures RosterOf(orderIds + [next]) == RosterAfter(RosterOf(orderIds), next)
  {
    assert (orderIds + [next])[..|orderIds|] == orderIds;
  }
}
