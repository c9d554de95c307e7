/**
 * The `OrderProvider` object: its settings fields and how the XML constructor and
 * `UpdateSourceSettings` fill them, the lazily read external-ID user table, the in-place
 * rewrites of an EcomOrders row, and the removal of order lines missing from a run.
 */
module Provider {
  import opened Wrappers
  import opened Text
  import opened Integration
  import PS = ProviderSettings
  import opened ProviderRows
  import opened DestinationWriter
  import opened OrderLineRemoval

  /** The row with the designated access-user column (if any) set to the user of its external ID, or DBNull. */
  function WithAccessUser(designatedColumn: string, columnMappings: seq<ColumnMapping>, row: map<string, Value>,
                          users: map<string, string>): map<string, Value> {
    if designatedColumn != "" then row[designatedColumn := AccessUserIdFor(ExternalIdOf(columnMappings, row), users)]
    else row
  }

  /**
   * The shipping and then the payment code mapping (each if designated) fill in their
   * method's fields; a fault of `GetValue` stops the rewrite with the row as far as it got.
   */
  function WithMethods(shippingCode: Option<ColumnMapping>, paymentCode: Option<ColumnMapping>,
                       columnMappings: seq<ColumnMapping>, row: map<string, Value>,
                       shippings: seq<ServiceMethod>, shippingScript: string, orderIdScript: string, providerData: Value,
                       payments: seq<ServiceMethod>, paymentScript: string): Processed
    requires forall i :: 0 <= i < |shippings| ==> shippings[i].Shipping?
    requires forall i :: 0 <= i < |payments| ==> payments[i].Payment?
  {
    var shipped := if shippingCode.Some?
                   then ShippingApplied(row, shippingCode, shippings, shippingScript, columnMappings, orderIdScript, providerData)
                   else Processed(row, None);
    if shipped.fault.Some? then shipped
    else
      var paid := if paymentCode.Some? then PaymentApplied(shipped.values, paymentCode, payments, paymentScript)
                  else Success(shipped.values);
      if paid.Failure? then Processed(shipped.values, Some(paid.error)) else Processed(paid.value, None)
  }

  /** What `ProcessRow` does to an EcomOrders row: the access user first, then the methods. */
  function ProcessedRow(designatedColumn: string, shippingCode: Option<ColumnMapping>, paymentCode: Option<ColumnMapping>,
                        columnMappings: seq<ColumnMapping>, row: map<string, Value>, users: map<string, string>,
                        shippings: seq<ServiceMethod>, shippingScript: string, orderIdScript: string,
                        providerData: Value, payments: seq<ServiceMethod>, paymentScript: string): Processed
    requires forall i :: 0 <= i < |shippings| ==> shippings[i].Shipping?
    requires forall i :: 0 <= i < |payments| ==> payments[i].Payment?
  {
    WithMethods(shippingCode, paymentCode, columnMappings, WithAccessUser(designatedColumn, columnMappings, row, users),
                shippings, shippingScript, orderIdScript, providerData, payments, paymentScript)
  }

  /** The payment and shipping steps change only the entries of their own fields. */
  lemma WithMethodsKeepsOthers(shippingCode: Option<ColumnMapping>, paymentCode: Option<ColumnMapping>,
                               columnMappings: seq<ColumnMapping>, row: map<string, Value>,
                               shippings: seq<ServiceMethod>, shippingScript: string, orderIdScript: string,
                               providerData: Value, payments: seq<ServiceMethod>, paymentScript: string)
    requires forall i :: 0 <= i < |shippings| ==> shippings[i].Shipping?
    requires forall i :: 0 <= i < |payments| ==> payments[i].Payment?
    ensures var p := WithMethods(shippingCode, paymentCode, columnMappings, row, shippings, shippingScript,
                                 orderIdScript, providerData, payments, paymentScript);
      forall k :: k in row && k !in PaymentKeys && k !in ShippingKeys ==> k in p.values && p.values[k] == row[k]
  {
    ShippingAppliedSpec(row, shippingCode, shippings, shippingScript, columnMappings, orderIdScript, providerData);
    var shipped := if shippingCode.Some?
                   then ShippingApplied(row, shippingCode, shippings, shippingScript, columnMappings, orderIdScript, providerData)
                   else Processed(row, None);
    if shippingCode.Some? {
      var code := GetValue(shippingCode, row, shippingScript);
      if code.Success? && !IsNullOrWhiteSpace(code.value) {
        var found := FirstWithCode(shippings, code.value.value);
        if found.Some? {
          WithShippingSpec(row, shippings[found.value], columnMappings, orderIdScript, providerData);
        }
      }
    }
    if shipped.fault.None? {
      PaymentAppliedSpec(shipped.values, paymentCode, payments, paymentScript);
    }
  }

  /**
   * The designated column ends up holding the user ID of the first user record with the
   * row's non-empty external ID, or DBNull, unless a payment or shipping field of the same
   * name overwrote it; entries of neither kind keep their values.
   */
  lemma ProcessedRowSetsAccessUser(designatedColumn: string, shippingCode: Option<ColumnMapping>,
                                   paymentCode: Option<ColumnMapping>, columnMappings: seq<ColumnMapping>,
                                   row: map<string, Value>, records: seq<UserRecord>,
                                   shippings: seq<ServiceMethod>, shippingScript: string, orderIdScript: string,
                                   providerData: Value, payments: seq<ServiceMethod>, paymentScript: string)
    requires forall i :: 0 <= i < |shippings| ==> shippings[i].Shipping?
    requires forall i :: 0 <= i < |payments| ==> payments[i].Payment?
    ensures var p := ProcessedRow(designatedColumn, shippingCode, paymentCode, columnMappings, row, UserTable(records),
                                  shippings, shippingScript, orderIdScript, providerData, payments, paymentScript);
      var externalId := ExternalIdOf(columnMappings, row);
      var first := FirstRecordWith(records, externalId);
      && (designatedColumn != "" && designatedColumn !in PaymentKeys && designatedColumn !in ShippingKeys ==>
            designatedColumn in p.values &&
            p.values[designatedColumn] == if externalId != "" && first.Some? then Text(ToText(records[first.value].userId))
                                         else DbNull)
      && (forall k :: k in row && k != designatedColumn && k !in PaymentKeys && k !in ShippingKeys ==>
            k in p.values && p.values[k] == row[k])
  {
    var externalId := ExternalIdOf(columnMappings, row);
    var accessed := WithAccessUser(designatedColumn, columnMappings, row, UserTable(records));
    AccessUserIdIsFirstRecordsUser(externalId, records);
    assert designatedColumn != "" ==> accessed[designatedColumn] == AccessUserIdFor(externalId, UserTable(records));
    WithMethodsKeepsOthers(shippingCode, paymentCode, columnMappings, accessed,
                           shippings, shippingScript, orderIdScript, providerData, payments, paymentScript);
  }

  class OrderProvider {
    // the settings
    var sqlConnectionString: Option<string>
    var schema: Option<PS.XmlElement>
    var exportNotExportedOrders: bool
    var exportOnlyOrdersWithoutExtId: bool
    var doNotExportCarts: bool
    var orderStateAfterExport: Option<string>
    var discardDuplicates: bool
    var removeMissingOrderLines: bool
    var skipFailingRows: bool

    /** `TableRelations`: the parent tables of each table, for the base class's table ordering. */
    var tableRelations: map<string, seq<string>>
    /**
     * What `AddMappingsToJobThatNeedsToBeThereForMoveToMainTables` designated: the source
     * column that carries OrderCustomerAccessUserId ("" for none) and the active shipping
     * and payment code mappings.
     */
    var sourceColumnForAccessUserId: string
    var orderShippingMethodCodeMapping: Option<ColumnMapping>
    var orderPaymentMethodCodeMapping: Option<ColumnMapping>
    /** `_existingUsers`: the user table once read. */
    var existingUsers: Option<map<string, string>>
    /** The base class's `TotalRowsAffected`. */
    var totalRowsAffected: int

    function CurrentSettings(): PS.Settings
      reads this
    {
      PS.Settings(sqlConnectionString, schema, exportNotExportedOrders, exportOnlyOrdersWithoutExtId, doNotExportCarts,
                  orderStateAfterExport, discardDuplicates, removeMissingOrderLines, skipFailingRows)
    }

    /** `InitTableRelations`: EcomOrderLines has EcomOrders as its only parent, and nothing else has one. */
    method InitTableRelations()
      modifies this`tableRelations
      ensures tableRelations == map[OrderLinesTable := [OrdersTable]]
    {
      tableRelations := map[];
      tableRelations := tableRelations[OrderLinesTable := [OrdersTable]];
    }

    /** `OrderProvider(string connectionString)`. */
    constructor (connectionString: Option<string>)
      ensures CurrentSettings() == PS.Unset.(sqlConnectionString := connectionString)
      ensures tableRelations == map[OrderLinesTable := [OrdersTable]]
      ensures sourceColumnForAccessUserId == "" && orderShippingMethodCodeMapping == None
      ensures orderPaymentMethodCodeMapping == None && existingUsers == None && totalRowsAffected == 0
    {
      sqlConnectionString := connectionString;
      schema := None;
      exportNotExportedOrders, exportOnlyOrdersWithoutExtId, doNotExportCarts := false, false, false;
      orderStateAfterExport := None;
      discardDuplicates, removeMissingOrderLines, skipFailingRows := false, false, false;
      sourceColumnForAccessUserId := "";
      orderShippingMethodCodeMapping, orderPaymentMethodCodeMapping := None, None;
      existingUsers := None;
      totalRowsAffected := 0;
      new;
      InitTableRelations();
    }

    /**
     * `OrderProvider(XmlNode xmlNode)`: the child elements, in document order, through the
     * `switch (node.Name)`; the settings are those `ParseElements` gives from the unset options.
     */
    constructor FromXml(nodes: seq<PS.XmlElement>)
      ensures CurrentSettings() == PS.ParseElements(PS.Unset, nodes)
      ensures tableRelations == map[OrderLinesTable := [OrdersTable]]
      ensures sourceColumnForAccessUserId == "" && orderShippingMethodCodeMapping == None
      ensures orderPaymentMethodCodeMapping == None && existingUsers == None && totalRowsAffected == 0
    {
      sqlConnectionString := None;
      schema := None;
      exportNotExportedOrders, exportOnlyOrdersWithoutExtId, doNotExportCarts := false, false, false;
      orderStateAfterExport := None;
      discardDuplicates, removeMissingOrderLines, skipFailingRows := false, false, false;
      sourceColumnForAccessUserId := "";
      orderShippingMethodCodeMapping, orderPaymentMethodCodeMapping := None, None;
      existingUsers := None;
      totalRowsAffected := 0;
      new;
      assert CurrentSettings() == PS.Unset;
      InitTableRelations();
      ReadElements(nodes);
    }

    /** The constructor's `foreach (XmlNode node in xmlNode.ChildNodes)`. */
    method ReadElements(nodes: seq<PS.XmlElement>)
      modifies this`sqlConnectionString, this`schema, this`exportNotExportedOrders, this`exportOnlyOrdersWithoutExtId,
               this`doNotExportCarts, this`orderStateAfterExport, this`discardDuplicates, this`removeMissingOrderLines,
               this`skipFailingRows
      ensures CurrentSettings() == PS.ParseElements(old(CurrentSettings()), nodes)
    {
      for i := 0 to |nodes|
        invariant PS.ParseElements(CurrentSettings(), nodes[i..]) == PS.ParseElements(old(CurrentSettings()), nodes)
      {
        PS.ParseElementsStep(CurrentSettings(), nodes, i);
        ReadElement(nodes[i]);
      }
    }

    /** One pass of the constructor's loop: the `case` the element's name selects. */
    method ReadElement(node: PS.XmlElement)
      modifies this`sqlConnectionString, this`schema, this`exportNotExportedOrders, this`exportOnlyOrdersWithoutExtId,
              this`doNotExportCarts, this`orderStateAfterExport, this`discardDuplicates, this`removeMissingOrderLines,
              this`skipFailingRows
      ensures CurrentSettings() == PS.ApplyElement(old(CurrentSettings()), node)
    {
      match PS.KeyOf(node.name)
      case None =>
      case Some(key) =>
        if key == PS.SchemaKey {
          schema := Some(node);
        } else if PS.HasChildNodes(node) {
          AssignElement(key, node);
        }
    }

    /** The assignment of one `case`, for an element with child nodes. */
    method AssignElement(key: PS.SettingKey, node: PS.XmlElement)
      requires PS.HasChildNodes(node)
      modifies this`sqlConnectionString, this`schema, this`exportNotExportedOrders, this`exportOnlyOrdersWithoutExtId,
              this`doNotExportCarts, this`orderStateAfterExport, this`discardDuplicates, this`removeMissingOrderLines,
              this`skipFailingRows
      ensures CurrentSettings() == PS.Assign(old(CurrentSettings()), key, node)
    {
      var text := PS.FirstChildValue(node);
      var isTrue := PS.IsTrueText(node);
      match key {
        case SqlConnectionStringKey => sqlConnectionString := text;
        case SchemaKey => schema := Some(node);
        case ExportNotYetExportedOrdersKey => exportNotExportedOrders := isTrue;
        case ExportOnlyOrdersWithoutExtIdKey => exportOnlyOrdersWithoutExtId := isTrue;
        case DoNotExportCartsKey => doNotExportCarts := isTrue;
        case OrderStateAfterExportKey => orderStateAfterExport := text;
        case DiscardDuplicatesKey => discardDuplicates := isTrue;
        case RemoveMissingOrderLinesKey => removeMissingOrderLines := isTrue;
        case SkipFailingRowsKey => skipFailingRows := isTrue;
      }
    }

    /**
     * `UpdateSourceSettings`: the eight saved options are copied from `source`, the schema
     * stays; so the provider then saves exactly what `source` saves.
     */
    method UpdateSourceSettings(source: OrderProvider)
      modifies this`sqlConnectionString, this`exportNotExportedOrders, this`exportOnlyOrdersWithoutExtId,
              this`doNotExportCarts, this`orderStateAfterExport, this`discardDuplicates, this`removeMissingOrderLines,
              this`skipFailingRows
      ensures CurrentSettings() == old(source.CurrentSettings()).(schema := old(schema))
      ensures PS.SavedElements(CurrentSettings()) == PS.SavedElements(old(source.CurrentSettings()))
    {
      var s := source.CurrentSettings();
      exportNotExportedOrders := s.exportNotExportedOrders;
      exportOnlyOrdersWithoutExtId := s.exportOnlyOrdersWithoutExtId;
      doNotExportCarts := s.doNotExportCarts;
      orderStateAfterExport := s.orderStateAfterExport;
      discardDuplicates := s.discardDuplicates;
      removeMissingOrderLines := s.removeMissingOrderLines;
      skipFailingRows := s.skipFailingRows;
      sqlConnectionString := s.sqlConnectionString;
    }

    /** `UpdateDestinationSettings`: the same copy from the destination provider. */
    method UpdateDestinationSettings(destination: OrderProvider)
      modifies this`sqlConnectionString, this`exportNotExportedOrders, this`exportOnlyOrdersWithoutExtId,
              this`doNotExportCarts, this`orderStateAfterExport, this`discardDuplicates, this`removeMissingOrderLines,
              this`skipFailingRows
      ensures CurrentSettings() == old(destination.CurrentSettings()).(schema := old(schema))
    {
      UpdateSourceSettings(destination);
    }

    /**
     * `ExistingUsers`: on first use the records of the AccessUser query are read into the
     * table, a key seen before keeping its first user ID; later uses return the same table.
     */
    method ExistingUsers(records: seq<UserRecord>) returns (users: map<string, string>)
      modifies this`existingUsers
      ensures old(existingUsers).Some? ==> existingUsers == old(existingUsers) && users == existingUsers.value
      ensures old(existingUsers).None? ==> existingUsers == Some(UserTable(records)) && users == UserTable(records)
    {
      if existingUsers.None? {
        var table: map<string, string> := map[];
        for i := 0 to |records|
          invariant table == UserTable(records[..i])
        {
          var key := UserKey(records[i]);
          if key !in table {
            table := table[key := ToText(records[i].userId)];
          }
          assert records[..i + 1][..i] == records[..i];
        }
        assert records[..|records|] == records;
        existingUsers := Some(table);
      }
      users := existingUsers.value;
    }

    /** `ProcessPayment`: the payment code mapping's value selects a payment whose fields go into the row. */
    method ProcessPayment(row: Row, payments: seq<ServiceMethod>, scriptValue: string) returns (fault: Option<Fault>)
      requires forall i :: 0 <= i < |payments| ==> payments[i].Payment?
      modifies row
      ensures var r := PaymentApplied(old(row.values), orderPaymentMethodCodeMapping, payments, scriptValue);
        if r.Success? then row.values == r.value && fault == None
        else row.values == old(row.values) && fault == Some(r.error)
    {
      var code := GetValue(orderPaymentMethodCodeMapping, row.values, scriptValue);
      if code.Failure? {
        return Some(code.error);
      }
      fault := None;
      if !IsNullOrWhiteSpace(code.value) {
        var found := FirstWithCode(payments, code.value.value);
        if found.Some? {
          var payment := payments[found.value];
          row.values := row.values + PaymentValues(payment);
        }
      }
    }

    /**
     * `ProcessShipping`: the shipping code mapping's value selects a shipping whose fields go
     * into the row, and the order ID read through the order-ID mapping decides the provider
     * data; `orderIdScript` is that mapping's `GetScriptValue()` and `providerData` stands
     * for the provider values the host's order lookups yield.
     */
    method ProcessShipping(columnMappings: seq<ColumnMapping>, row: Row, shippings: seq<ServiceMethod>,
                           scriptValue: string, orderIdScript: string, providerData: Value)
      returns (fault: Option<Fault>)
      requires forall i :: 0 <= i < |shippings| ==> shippings[i].Shipping?
      modifies row
      ensures var r := ShippingApplied(old(row.values), orderShippingMethodCodeMapping, shippings, scriptValue,
                                       columnMappings, orderIdScript, providerData);
        row.values == r.values && fault == r.fault
    {
      var code := GetValue(orderShippingMethodCodeMapping, row.values, scriptValue);
      if code.Failure? {
        return Some(code.error);
      }
      fault := None;
      if !IsNullOrWhiteSpace(code.value) {
        var found := FirstWithCode(shippings, code.value.value);
        if found.Some? {
          var shipping := shippings[found.value];
          row.values := row.values + ShippingMethodValues(shipping);
          var providerValues := Null;
          var orderIdMapping := OrderIdMapping(columnMappings);
          if orderIdMapping.Some? {
            var orderId := GetValue(orderIdMapping, row.values, orderIdScript);
            if orderId.Failure? {
              return Some(orderId.error);
            }
            if !IsNullOrWhiteSpace(orderId.value) {
              providerValues := providerData;
            }
          }
          row.values := row.values[ShippingProviderDataKey := providerValues];
        }
      }
    }

    /**
     * `ProcessRow`: only rows bound for EcomOrders (by exact name) are rewritten, as
     * `ProcessedRow` says; the user table is read on the first row with an external ID to
     * look up. `records`, `shippings`, `payments` and `providerData` stand for the database
     * and host lookups, the scripts for the code and order-ID mappings' `GetScriptValue()`.
     */
    method ProcessRow(mapping: Mapping?, columnMappings: seq<ColumnMapping>, row: Row, records: seq<UserRecord>,
                      shippings: seq<ServiceMethod>, shippingScript: string, orderIdScript: string,
                      providerData: Value, payments: seq<ServiceMethod>, paymentScript: string)
      returns (fault: Option<Fault>)
      requires forall i :: 0 <= i < |shippings| ==> shippings[i].Shipping?
      requires forall i :: 0 <= i < |payments| ==> payments[i].Payment?
      modifies row, this`existingUsers
      ensures var applies := mapping != null && mapping.destinationTable.Some? &&
                             mapping.destinationTable.value.name == OrdersTable;
        var lookedUp := applies && sourceColumnForAccessUserId != "" && ExternalIdOf(columnMappings, old(row.values)) != "";
        var users := if old(existingUsers).Some? then old(existingUsers).value else UserTable(records);
        && existingUsers == (if lookedUp && old(existingUsers).None? then Some(UserTable(records)) else old(existingUsers))
        && (!applies ==> row.values == old(row.values) && fault == None)
        && (applies ==>
              var p := ProcessedRow(sourceColumnForAccessUserId, orderShippingMethodCodeMapping,
                                    orderPaymentMethodCodeMapping, columnMappings, old(row.values),
                                    users, shippings, shippingScript, orderIdScript, providerData, payments, paymentScript);
              row.values == p.values && fault == p.fault)
    {
      fault := None;
      if mapping == null || mapping.destinationTable.None? || mapping.destinationTable.value.name != OrdersTable {
        return;
      }
      if sourceColumnForAccessUserId != "" {
        SetAccessUser(columnMappings, row, records);
      }
      fault := ProcessMethods(columnMappings, row, shippings, shippingScript, orderIdScript, providerData,
                              payments, paymentScript);
    }

    /** The first part of `ProcessRow`: the designated column gets the row's access user ID or DBNull. */
    method SetAccessUser(columnMappings: seq<ColumnMapping>, row: Row, records: seq<UserRecord>)
      modifies row, this`existingUsers
      ensures var externalId := ExternalIdOf(columnMappings, old(row.values));
        var users := if old(existingUsers).Some? then old(existingUsers).value else UserTable(records);
        && existingUsers == (if externalId != "" && old(existingUsers).None? then Some(UserTable(records))
                             else old(existingUsers))
        && row.values == old(row.values)[sourceColumnForAccessUserId := AccessUserIdFor(externalId, users)]
    {
      var accessUserId := DbNull;
      var externalId := ExternalIdOf(columnMappings, row.values);
      if externalId != "" {
        var table := ExistingUsers(records);
        if externalId in table {
          accessUserId := Text(table[externalId]);
        }
      }
      row.values := row.values[sourceColumnForAccessUserId := accessUserId];
    }

    /** The second part of `ProcessRow`: the designated shipping and payment code mappings, in that order. */
    method ProcessMethods(columnMappings: seq<ColumnMapping>, row: Row, shippings: seq<ServiceMethod>,
                          shippingScript: string, orderIdScript: string, providerData: Value,
                          payments: seq<ServiceMethod>, paymentScript: string) returns (fault: Option<Fault>)
      requires forall i :: 0 <= i < |shippings| ==> shippings[i].Shipping?
      requires forall i :: 0 <= i < |payments| ==> payments[i].Payment?
      modifies row
      ensures var p := WithMethods(orderShippingMethodCodeMapping, orderPaymentMethodCodeMapping, columnMappings,
                                   old(row.values), shippings, shippingScript, orderIdScript, providerData,
                                   payments, paymentScript);
        row.values == p.values && fault == p.fault
    {
      fault := None;
      if orderShippingMethodCodeMapping.Some? {
        fault := ProcessShipping(columnMappings, row, shippings, shippingScript, orderIdScript, providerData);
        if fault.Some? {
          return;
        }
      }
      if orderPaymentMethodCodeMapping.Some? {
        fault := ProcessPayment(row, payments, paymentScript);
      }
    }

    /**
     * `RemoveMissingRows`: with the option on and a writer for EcomOrderLines (the first, by
     * name ignoring case) that staged rows, that writer's command joins the transaction and
     * runs the DELETE the mapping calls for; `lines` and `staged` are the EcomOrderLines
     * table and that writer's staging table, and the rows deleted are added to the total.
     */
    method RemoveMissingRows(writers: seq<OrderDestinationWriter>, transaction: Transaction, lines: set<OrderLine>,
                             staged: seq<StagedLine>) returns (deleted: set<OrderLine>)
      modifies this`totalRowsAffected, set w | w in writers :: w.sqlCommand
      ensures var found := FirstOrderLinesWriter(writers);
        var runs := removeMissingOrderLines && found.Some? && writers[found.value].rowsToWriteCount > 0;
        && (!runs ==> deleted == {} && forall w :: w in writers ==> w.sqlCommand.commandText == old(w.sqlCommand.commandText) &&
                                                                    w.sqlCommand.transaction == old(w.sqlCommand.transaction))
        && (runs ==>
              var w := writers[found.value];
              var orderIdMapped := MapsOrderLineOrderId(old(w.baseMapping.columnMappings));
              deleted == DeletedLines(lines, staged, orderIdMapped) &&
              w.sqlCommand.transaction == Some(transaction) &&
              w.sqlCommand.commandText == DeleteCommandText(DeleteTempTableName(w.baseMapping.id), orderIdMapped) &&
              // no other command is touched
              forall v :: v in writers && v.sqlCommand != w.sqlCommand ==>
                v.sqlCommand.commandText == old(v.sqlCommand.commandText) &&
                v.sqlCommand.transaction == old(v.sqlCommand.transaction))
        && totalRowsAffected == old(totalRowsAffected) + |deleted|
    {
      deleted := {};
      if removeMissingOrderLines {
        var found := FirstOrderLinesWriter(writers);
        if found.Some? && writers[found.value].rowsToWriteCount > 0 {
          var writer := writers[found.value];
          var tempTableName := DeleteTempTableName(writer.baseMapping.id);
          writer.sqlCommand.transaction := Some(transaction);
          var orderIdMapped := MapsOrderLineOrderId(writer.baseMapping.columnMappings);
          writer.sqlCommand.commandText := DeleteCommandText(tempTableName, orderIdMapped);
          deleted := DeletedLines(lines, staged, orderIdMapped);
          totalRowsAffected := totalRowsAffected + |deleted|;
        }
      }
    }
  }

  /** The first writer whose mapping's destination table is EcomOrderLines, ignoring case. */
  function FirstOrderLinesWriter(writers: seq<OrderDestinationWriter>): (r: Option<nat>)
    ensures r.Some? ==> r.value < |writers| && WritesOrderLines(writers[r.value]) &&
                        forall j :: 0 <= j < r.value ==> !WritesOrderLines(writers[j])
    ensures r.None? ==> forall j :: 0 <= j < |writers| ==> !WritesOrderLines(writers[j])
  {
    if writers == [] then None
    else if WritesOrderLines(writers[0]) then Some(0)
    else
      match FirstOrderLinesWriter(writers[1..])
      case None => None
      case Some(i) => Some(i + 1)
  }

  /**
   * `string.Compare(w.Mapping?.DestinationTable?.Name, "EcomOrderLines", true) == 0`, where
   * `w.Mapping` is the base class's mapping: the writer's own is private.
   */
  predicate WritesOrderLines(w: OrderDestinationWriter) {
    w.baseMapping != null && w.baseMapping.destinationTable.Some? &&
    EqualsIgnoreCase(w.baseMapping.destinationTable.value.name, OrderLinesTable)
  }

  /** Some active column mapping targets OrderLineOrderID, ignoring case: the LEFT JOIN statement is used. */
  predicate MapsOrderLineOrderId(columnMappings: seq<ColumnMapping>) {
    exists i :: 0 <= i < |columnMappings| && columnMappings[i].active &&
                EqualsIgnoreCase(columnMappings[i].destinationColumn.name, "OrderLineOrderID")
  }
}
