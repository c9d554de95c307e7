/**
 * The data-integration entities the order provider works on: cell values, columns, tables,
 * column mappings, table mappings and the key/value rows passed from reader to writer.
 */
module Integration {
  import opened Wrappers
  import opened Text

  /** The two tables the provider reads and writes, and the destination-only column it adds to orders. */
  const OrdersTable := "EcomOrders"
  const OrderLinesTable := "EcomOrderLines"
  const ExternalIdColumnName := "OrderCustomerAccessUserExternalId"

  /** The exceptions the modelled code can throw, kept as values. */
  datatype Fault =
    | SubstringOutOfRange             // Substring with a length the string does not have
    | NullReference                   // a member of a null column or mapping was read
    | KeyNotFound                     // a row dictionary was indexed with a missing key
    | OpenReaderFailed(inner: Fault)  // "Failed to open sqlSourceReader" wrapping the cause

  /**
   * A cell value as the provider sees it in a row dictionary: the C# null, `DBNull.Value`,
   * or a value by its text form.
   */
  datatype Value = Null | DbNull | Text(text: string)

  /** `Converter.ToString` / `Convert.ToString` of a cell: null and DBNull read as "". */
  function ToText(v: Value): string {
    match v
    case Text(s) => s
    case _ => ""
  }

  /** A column: its name and the CLR type name of its values. */
  datatype Column = Column(name: string, clrType: string)

  datatype Table = Table(name: string, sqlSchema: string, columns: seq<Column>)

  /** The transform a column mapping applies to its value. */
  datatype ScriptType = NoScript | Append | Prepend | Constant | NewGuid

  /**
   * A column mapping. The source column may be null (a mapping can carry only a script
   * value); `hasScriptWithValue` is the library's `HasScriptWithValue` as given.
   */
  datatype ColumnMapping = ColumnMapping(
    sourceColumn: Option<Column>,
    destinationColumn: Column,
    active: bool,
    scriptType: ScriptType,
    scriptValue: string,
    hasScriptWithValue: bool)

  /** A user-declared row filter; only the library turns it into SQL. */
  datatype Conditional = Conditional(column: string, operator: string, value: string)

  /** The mapping of one source table to one destination table within a job. */
  class Mapping {
    const id: string
    const sourceTable: Option<Table>
    const destinationTable: Option<Table>
    const active: bool
    var columnMappings: seq<ColumnMapping>
    var conditionals: seq<Conditional>

    constructor (id: string, sourceTable: Option<Table>, destinationTable: Option<Table>, active: bool,
                 columnMappings: seq<ColumnMapping>, conditionals: seq<Conditional>)
      ensures this.id == id && this.sourceTable == sourceTable && this.destinationTable == destinationTable
      ensures this.active == active
      ensures this.columnMappings == columnMappings && this.conditionals == conditionals
    {
      this.id := id;
      this.sourceTable := sourceTable;
      this.destinationTable := destinationTable;
      this.active := active;
      this.columnMappings := columnMappings;
      this.conditionals := conditionals;
    }
  }

  /** The `Dictionary<string, object>` row handed from a reader through `ProcessRow` to a writer. */
  class Row {
    var values: map<string, Value>

    constructor (values: map<string, Value>)
      ensures this.values == values
    {
      this.values := values;
    }
  }
}
