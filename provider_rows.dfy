/**
 * What the order provider computes for one row on its way to the EcomOrders staging table:
 * a column mapping's value (`GetValue`), the access user looked up by external ID
 * (`ExistingUsers`) and the payment and shipping fields filled in from a method code.
 */
module ProviderRows {
  import opened Wrappers
  import opened Text
  import opened Integration

  // ---------------------------------------------------------------------------------------
  // GetValue

  /** The text of the mapping's source column in the row, if the column is set and present. */
  function SourceText(cm: ColumnMapping, row: map<string, Value>): Option<string> {
    if cm.sourceColumn.Some? && cm.sourceColumn.value.name in row
    then Some(ToText(row[cm.sourceColumn.value.name]))
    else None
  }

  /** The script types whose value is `GetScriptValue()` alone. */
  predicate IsGenerated(t: ScriptType) {
    t == Constant || t == NewGuid
  }

  /**
   * `GetValue`: the value a column mapping gives a row, `None` for the C# null. `scriptValue`
   * is the library's `GetScriptValue()` for the mapping (its constant, or a fresh GUID).
   * The source column is read only when the mapping has no script value, or when its script
   * type needs the source text; reading it when it is null or absent from the row throws.
   */
  function GetValue(columnMapping: Option<ColumnMapping>, row: map<string, Value>, scriptValue: string)
    : (r: Result<Option<string>, Fault>)
    // null: no mapping, or no script value and the source column missing from the row
    ensures r == Success(None) <==>
      columnMapping.None? ||
      (!columnMapping.value.hasScriptWithValue && columnMapping.value.sourceColumn.Some? &&
       columnMapping.value.sourceColumn.value.name !in row)
    // a script value of a Constant or NewGuid mapping is returned without reading the source column
    ensures columnMapping.Some? && columnMapping.value.hasScriptWithValue && IsGenerated(columnMapping.value.scriptType)
            ==> r == Success(Some(scriptValue))
    // the faults: exactly when the source column must be read and is null, or is not in the row
    ensures r.Failure? <==>
      columnMapping.Some? && SourceText(columnMapping.value, row).None? &&
      (columnMapping.value.sourceColumn.None? || columnMapping.value.hasScriptWithValue) &&
      !(columnMapping.value.hasScriptWithValue && IsGenerated(columnMapping.value.scriptType))
    ensures r.Failure? ==>
      (r.error == NullReference <==> columnMapping.value.sourceColumn.None?) &&
      (r.error == KeyNotFound <==> columnMapping.value.sourceColumn.Some?)
    // a mapping whose source column is in the row always has a value
    ensures columnMapping.Some? && SourceText(columnMapping.value, row).Some? ==> r.Success? && r.value.Some?
    ensures r.Success? && r.value.Some? ==>
      var cm := columnMapping.value;
      match cm.scriptType
      case NoScript => SourceText(cm, row) == Some(r.value.value)
      case Append => SourceText(cm, row).Some? && r.value.value == SourceText(cm, row).value + cm.scriptValue
      case Prepend => SourceText(cm, row).Some? && r.value.value == cm.scriptValue + SourceText(cm, row).value
      case Constant => r.value.value == scriptValue
      case NewGuid => r.value.value == scriptValue
  {
    if columnMapping.None? then Success(None)
    else
      var cm := columnMapping.value;
      if !cm.hasScriptWithValue && cm.sourceColumn.None? then Failure(NullReference)
      else if !cm.hasScriptWithValue && cm.sourceColumn.value.name !in row then Success(None)
      else if cm.scriptType == Constant || cm.scriptType == NewGuid then Success(Some(scriptValue))
      else if cm.sourceColumn.None? then Failure(NullReference)
      else if cm.sourceColumn.value.name !in row then Failure(KeyNotFound)
      else
        var text := ToText(row[cm.sourceColumn.value.name]);
        match cm.scriptType
        case NoScript => Success(Some(text))
        case Append => Success(Some(text + cm.scriptValue))
        case Prepend => Success(Some(cm.scriptValue + text))
  }

  // ---------------------------------------------------------------------------------------
  // The external-ID user table

  /** One row of `select AccessUserExternalID, AccessUserID from AccessUser where ...`. */
  datatype UserRecord = UserRecord(externalId: Value, userId: Value)

  /** The Hashtable key of a record: the external ID's `ToString()`. */
  function UserKey(record: UserRecord): string {
    ToText(record.externalId)
  }

  /** `ExistingUsers`, built record by record: a key already present keeps its first user ID. */
  function UserTable(records: seq<UserRecord>): map<string, string> {
    if records == [] then map[]
    else
      var table := UserTable(records[..|records| - 1]);
      var last := records[|records| - 1];
      if UserKey(last) in table then table else table[UserKey(last) := ToText(last.userId)]
  }

  /** The index of the first record with external ID `key`. */
  function FirstRecordWith(records: seq<UserRecord>, key: string): (r: Option<nat>)
    ensures r.Some? ==> r.value < |records| && UserKey(records[r.value]) == key &&
                        forall j :: 0 <= j < r.value ==> UserKey(records[j]) != key
    ensures r.None? ==> forall j :: 0 <= j < |records| ==> UserKey(records[j]) != key
  {
    if records == [] then None
    else if UserKey(records[0]) == key then Some(0)
    else
      match FirstRecordWith(records[1..], key)
      case None => None
      case Some(i) => Some(i + 1)
  }

  /** The table holds exactly the external IDs read, each with the user ID of its first record. */
  lemma {:induction false} UserTableFirstWins(records: seq<UserRecord>, key: string)
    ensures key in UserTable(records) <==> FirstRecordWith(records, key).Some?
    ensures key in UserTable(records) ==>
      UserTable(records)[key] == ToText(records[FirstRecordWith(records, key).value].userId)
  {
    if records != [] {
      var front := records[..|records| - 1];
      UserTableFirstWins(front, key);
      assert forall j :: 0 <= j < |front| ==> front[j] == records[j];
    }
  }

  /** The first column mapping, active or not, whose destination column is `name`, ignoring case. */
  function FirstTargeting(columnMappings: seq<ColumnMapping>, name: string): (r: Option<nat>)
    ensures r.Some? ==> r.value < |columnMappings| &&
                        EqualsIgnoreCase(columnMappings[r.value].destinationColumn.name, name) &&
                        forall j :: 0 <= j < r.value ==> !EqualsIgnoreCase(columnMappings[j].destinationColumn.name, name)
    ensures r.None? ==> forall j :: 0 <= j < |columnMappings| ==>
                          !EqualsIgnoreCase(columnMappings[j].destinationColumn.name, name)
  {
    if columnMappings == [] then None
    else if EqualsIgnoreCase(columnMappings[0].destinationColumn.name, name) then Some(0)
    else
      match FirstTargeting(columnMappings[1..], name)
      case None => None
      case Some(i) => Some(i + 1)
  }

  /**
   * The external ID `ProcessRow` looks up: the row's text in the source column of the first
   * mapping onto OrderCustomerAccessUserExternalId, or "" when there is none to read.
   */
  function ExternalIdOf(columnMappings: seq<ColumnMapping>, row: map<string, Value>): string {
    match FirstTargeting(columnMappings, ExternalIdColumnName)
    case None => ""
    case Some(i) =>
      match SourceText(columnMappings[i], row)
      case None => ""
      case Some(text) => text
  }

  /** The access user ID written into the row: the user of a non-empty known external ID, else DBNull. */
  function AccessUserIdFor(externalId: string, users: map<string, string>): Value {
    if externalId != "" && externalId in users then Text(users[externalId]) else DbNull
  }

  /**
   * Against the user records read: the row gets the user ID of the first record whose
   * external ID is the row's, and DBNull when the row has none or no record matches.
   */
  lemma AccessUserIdIsFirstRecordsUser(externalId: string, records: seq<UserRecord>)
    ensures var r := FirstRecordWith(records, externalId);
      AccessUserIdFor(externalId, UserTable(records)) ==
        if externalId != "" && r.Some? then Text(ToText(records[r.value].userId)) else DbNull
  {
    UserTableFirstWins(records, externalId);
  }

  // ---------------------------------------------------------------------------------------
  // Payment and shipping methods

  /**
   * A payment or shipping method as the host's services return it, with its name and
   * description already in the context language.
   */
  datatype ServiceMethod =
    | Payment(id: string, code: Option<string>, name: Option<string>, description: Option<string>,
              termsCode: Option<string>)
    | Shipping(id: string, code: Option<string>, name: Option<string>, description: Option<string>,
               agentCode: Option<string>, agentServiceCode: Option<string>)

  /** A .NET string as a cell value: null stays null. */
  function CellOf(text: Option<string>): Value {
    if text.Some? then Text(text.value) else Null
  }

  /** `string.Equals(s.Code, code, OrdinalIgnoreCase)`: a null code matches nothing. */
  predicate HasCode(m: ServiceMethod, code: string) {
    m.code.Some? && EqualsIgnoreCase(m.code.value, code)
  }

  /** `FirstOrDefault(s => string.Equals(s.Code, code, ...))`, by index. */
  function FirstWithCode(methods: seq<ServiceMethod>, code: string): (r: Option<nat>)
    ensures r.Some? ==> r.value < |methods| && HasCode(methods[r.value], code) &&
                        forall j :: 0 <= j < r.value ==> !HasCode(methods[j], code)
    ensures r.None? ==> forall j :: 0 <= j < |methods| ==> !HasCode(methods[j], code)
  {
    if methods == [] then None
    else if HasCode(methods[0], code) then Some(0)
    else
      match FirstWithCode(methods[1..], code)
      case None => None
      case Some(i) => Some(i + 1)
  }

  const PaymentKeys := {"OrderPaymentMethodId", "OrderPaymentMethod", "OrderPaymentMethodDescription",
                        "OrderPaymentMethodTermsCode"}

  /** The five entries `ProcessShipping` copies from the shipping it selects. */
  const ShippingMethodKeys := {"OrderShippingMethodId", "OrderShippingMethod", "OrderShippingMethodDescription",
                               "OrderShippingMethodAgentCode", "OrderShippingMethodAgentServiceCode"}

  /** The entry for the stored order's serialized shipping provider values. */
  const ShippingProviderDataKey := "OrderShippingProviderData"

  const ShippingKeys := ShippingMethodKeys + {ShippingProviderDataKey}

  /** The destination column whose mapping `ProcessShipping` reads the order ID through. */
  const OrderIdColumnName := "OrderId"

  /** The four row entries `ProcessPayment` writes for a payment. */
  function PaymentValues(p: ServiceMethod): (r: map<string, Value>)
    requires p.Payment?
    ensures r.Keys == PaymentKeys
  {
    map["OrderPaymentMethodId" := Text(p.id),
        "OrderPaymentMethod" := CellOf(p.name),
        "OrderPaymentMethodDescription" := CellOf(p.description),
        "OrderPaymentMethodTermsCode" := CellOf(p.termsCode)]
  }

  /** The five row entries `ProcessShipping` writes for the shipping it selects. */
  function ShippingMethodValues(s: ServiceMethod): (r: map<string, Value>)
    requires s.Shipping?
    ensures r.Keys == ShippingMethodKeys
  {
    map["OrderShippingMethodId" := Text(s.id),
        "OrderShippingMethod" := CellOf(s.name),
        "OrderShippingMethodDescription" := CellOf(s.description),
        "OrderShippingMethodAgentCode" := CellOf(s.agentCode),
        "OrderShippingMethodAgentServiceCode" := CellOf(s.agentServiceCode)]
  }

  /** The first active column mapping whose destination column is `name`, ignoring case. */
  function FirstActiveTargeting(columnMappings: seq<ColumnMapping>, name: string): (r: Option<nat>)
    ensures r.Some? ==> r.value < |columnMappings| && columnMappings[r.value].active &&
                        EqualsIgnoreCase(columnMappings[r.value].destinationColumn.name, name) &&
                        forall j :: 0 <= j < r.value ==>
                          !(columnMappings[j].active && EqualsIgnoreCase(columnMappings[j].destinationColumn.name, name))
    ensures r.None? ==> forall j :: 0 <= j < |columnMappings| ==>
                          !(columnMappings[j].active && EqualsIgnoreCase(columnMappings[j].destinationColumn.name, name))
  {
    if columnMappings == [] then None
    else if columnMappings[0].active && EqualsIgnoreCase(columnMappings[0].destinationColumn.name, name) then Some(0)
    else
      match FirstActiveTargeting(columnMappings[1..], name)
      case None => None
      case Some(i) => Some(i + 1)
  }

  /** The column mapping `ProcessShipping` reads the order ID through, if any. */
  function OrderIdMapping(columnMappings: seq<ColumnMapping>): Option<ColumnMapping> {
    match FirstActiveTargeting(columnMappings, OrderIdColumnName)
    case None => None
    case Some(i) => Some(columnMappings[i])
  }

  /** The method a row's code selects: none for a blank code, else the first with that code. */
  function SelectedMethod(code: Option<string>, methods: seq<ServiceMethod>): Option<nat> {
    if IsNullOrWhiteSpace(code) then None else FirstWithCode(methods, code.value)
  }

  /**
   * `ProcessPayment`'s effect on the row: the code mapping's value selects a payment, whose
   * fields are written over the row; a fault of `GetValue` is thrown.
   */
  function PaymentApplied(row: map<string, Value>, codeMapping: Option<ColumnMapping>, payments: seq<ServiceMethod>,
                          scriptValue: string): Result<map<string, Value>, Fault>
    requires forall i :: 0 <= i < |payments| ==> payments[i].Payment?
  {
    match GetValue(codeMapping, row, scriptValue)
    case Failure(e) => Failure(e)
    case Success(code) =>
      match SelectedMethod(code, payments)
      case None => Success(row)
      case Some(i) => Success(row + PaymentValues(payments[i]))
  }

  /** A row after a rewrite: the values it was left with and the fault thrown, if any. */
  datatype Processed = Processed(values: map<string, Value>, fault: Option<Fault>)

  /**
   * `ProcessShipping`'s effect on the row: a fault reading the code is thrown, a blank code
   * or one no shipping has changes nothing, and else the first shipping with the code is
   * written as `WithShipping` says.
   */
  function ShippingApplied(row: map<string, Value>, codeMapping: Option<ColumnMapping>, shippings: seq<ServiceMethod>,
                           scriptValue: string, columnMappings: seq<ColumnMapping>, orderIdScript: string,
                           providerData: Value): Processed
    requires forall i :: 0 <= i < |shippings| ==> shippings[i].Shipping?
  {
    match GetValue(codeMapping, row, scriptValue)
    case Failure(e) => Processed(row, Some(e))
    case Success(code) =>
      match SelectedMethod(code, shippings)
      case None => Processed(row, None)
      case Some(i) => WithShipping(row, shippings[i], columnMappings, orderIdScript, providerData)
  }

  /**
   * The selected shipping's five fields are written, then the order ID is read through the
   * order-ID mapping, whose fault leaves the row so. `providerData` is the serialized
   * provider values the host's order lookups yield for that ID (null when they find none);
   * without an order ID the cell is null.
   */
  function WithShipping(row: map<string, Value>, shipping: ServiceMethod, columnMappings: seq<ColumnMapping>,
                        orderIdScript: string, providerData: Value): Processed
    requires shipping.Shipping?
  {
    var written := row + ShippingMethodValues(shipping);
    match GetValue(OrderIdMapping(columnMappings), written, orderIdScript)
    case Failure(e) => Processed(written, Some(e))
    case Success(orderId) =>
      Processed(written[ShippingProviderDataKey := if IsNullOrWhiteSpace(orderId) then Null else providerData], None)
  }

  /**
   * A blank code or one no payment has (ignoring case) leaves the row as it is; otherwise the
   * first payment with the code sets exactly the four OrderPaymentMethod entries and every
   * other entry keeps its value.
   */
  lemma PaymentAppliedSpec(row: map<string, Value>, codeMapping: Option<ColumnMapping>, payments: seq<ServiceMethod>,
                           scriptValue: string)
    requires forall i :: 0 <= i < |payments| ==> payments[i].Payment?
    ensures var code := GetValue(codeMapping, row, scriptValue);
      var r := PaymentApplied(row, codeMapping, payments, scriptValue);
      && (code.Failure? <==> r.Failure?)
      && (code.Success? && (IsNullOrWhiteSpace(code.value) ||
                            forall j :: 0 <= j < |payments| ==> !HasCode(payments[j], code.value.value))
          ==> r == Success(row))
      && (code.Success? && !IsNullOrWhiteSpace(code.value) &&
          (exists j :: 0 <= j < |payments| && HasCode(payments[j], code.value.value))
          ==> exists i :: 0 <= i < |payments| && HasCode(payments[i], code.value.value) &&
                (forall j :: 0 <= j < i ==> !HasCode(payments[j], code.value.value)) &&
                r.Success? && r.value.Keys == row.Keys + PaymentKeys &&
                (forall k :: k in PaymentKeys ==> r.value[k] == PaymentValues(payments[i])[k]) &&
                (forall k :: k in row && k !in PaymentKeys ==> r.value[k] == row[k]))
  {
    var code := GetValue(codeMapping, row, scriptValue);
    if code.Success? && !IsNullOrWhiteSpace(code.value) {
      var s := FirstWithCode(payments, code.value.value);
      if s.Some? {
        var i := s.value;
        var r := row + PaymentValues(payments[i]);
        assert PaymentApplied(row, codeMapping, payments, scriptValue) == Success(r);
        assert r.Keys == row.Keys + PaymentKeys;
      }
    }
  }

  /**
   * A fault reading the code, a blank code or one no shipping has leaves the row as it is;
   * otherwise the first shipping with the code, ignoring case, is written.
   */
  lemma ShippingAppliedSpec(row: map<string, Value>, codeMapping: Option<ColumnMapping>, shippings: seq<ServiceMethod>,
                            scriptValue: string, columnMappings: seq<ColumnMapping>, orderIdScript: string,
                            providerData: Value)
    requires forall i :: 0 <= i < |shippings| ==> shippings[i].Shipping?
    ensures var code := GetValue(codeMapping, row, scriptValue);
      var r := ShippingApplied(row, codeMapping, shippings, scriptValue, columnMappings, orderIdScript, providerData);
      && (code.Failure? ==> r == Processed(row, Some(code.error)))
      && (code.Success? && (IsNullOrWhiteSpace(code.value) ||
                            forall j :: 0 <= j < |shippings| ==> !HasCode(shippings[j], code.value.value))
          ==> r == Processed(row, None))
      && (code.Success? && !IsNullOrWhiteSpace(code.value) &&
          (exists j :: 0 <= j < |shippings| && HasCode(shippings[j], code.value.value))
          ==> exists i :: 0 <= i < |shippings| && HasCode(shippings[i], code.value.value) &&
                (forall j :: 0 <= j < i ==> !HasCode(shippings[j], code.value.value)) &&
                r == WithShipping(row, shippings[i], columnMappings, orderIdScript, providerData))
  {
    var code := GetValue(codeMapping, row, scriptValue);
    if code.Success? && !IsNullOrWhiteSpace(code.value) {
      var s := FirstWithCode(shippings, code.value.value);
      if s.Some? {
        assert HasCode(shippings[s.value], code.value.value);
      }
    }
  }

  /**
   * Writing a shipping sets its five fields; a fault reading the order ID stops there, and
   * else the provider-data cell is set: null without an order ID (in particular without an
   * order-ID mapping), `providerData` with one. Every other entry keeps its value.
   */
  lemma WithShippingSpec(row: map<string, Value>, shipping: ServiceMethod, columnMappings: seq<ColumnMapping>,
                         orderIdScript: string, providerData: Value)
    requires shipping.Shipping?
    ensures var r := WithShipping(row, shipping, columnMappings, orderIdScript, providerData);
      var orderId := GetValue(OrderIdMapping(columnMappings), row + ShippingMethodValues(shipping), orderIdScript);
      && (forall k :: k in ShippingMethodKeys ==> k in r.values && r.values[k] == ShippingMethodValues(shipping)[k])
      && (forall k :: k in row && k !in ShippingKeys ==> k in r.values && r.values[k] == row[k])
      && (orderId.Failure? ==>
            r.fault == Some(orderId.error) && r.values.Keys == row.Keys + ShippingMethodKeys &&
            (ShippingProviderDataKey in row ==> r.values[ShippingProviderDataKey] == row[ShippingProviderDataKey]))
      && (orderId.Success? ==>
            r.fault == None && r.values.Keys == row.Keys + ShippingKeys &&
            r.values[ShippingProviderDataKey] == if IsNullOrWhiteSpace(orderId.value) then Null else providerData)
      && (OrderIdMapping(columnMappings).None? ==> r.fault == None && r.values[ShippingProviderDataKey] == Null)
  {
    var written := row + ShippingMethodValues(shipping);
    assert written.Keys == row.Keys + ShippingMethodKeys;
  }
}
