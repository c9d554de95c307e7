# Order provider: a Dafny model

This project models the core of the Dynamicweb data-integration **order provider**. The
provider reads orders (`EcomOrders`) and order lines (`EcomOrderLines`) out of a SQL Server
database and writes them into one. Rows go through staging tables first and are then merged
into the main tables. After a successful export, the exported orders are flagged in the
source.

The model follows the three C# classes of the core, one Dafny module per concern:

| file | module | models |
|---|---|---|
| `wrappers.dfy` | `Wrappers` | `Option` (the C# null) and `Result` (a value or the exception thrown) |
| `text.dfy` | `Text` | the .NET string calls the provider uses: ordinal case-insensitive equality, `Trim(' ', '[', ']')`, `Split(',')`, `string.Join`, `bool.ToString()` |
| `integration.dfy` | `Integration` | cell values (null, `DBNull`, text), columns, tables, column mappings, the `Mapping` class and the row dictionary (`Row` class) |
| `source_reader.dfy` | `SourceReader` | `OrderSourceReader`: the WHERE text, the column list, the FROM clause and the resulting SELECT; `GetNext` and the static export roster; `UpdateExportedOrdersInDb` with its 100-ID chunks |
| `destination_writer.dfy` | `DestinationWriter` | `OrderDestinationWriter`: the staging columns derived from the mapping, the staging-table name, the `FinishWriting` counter and the forwarding `MoveDataToMainTable` |
| `provider_settings.dfy` | `ProviderSettings` | the settings parse of the XML constructor, the element list `SaveAsXml` writes, and what reading that list back restores |
| `provider_rows.dfy` | `ProviderRows` | `GetValue`, the external-ID user table, and the payment and shipping fields written into an order row |
| `provider_mappings.dfy` | `ProviderMappings` | `EnsureMapping`, removal of the external-ID column mappings, `GetMappingsByName`, and the columns added by the original source and destination schemas |
| `order_line_removal.dfy` | `OrderLineRemoval` | the two DELETE statements of "remove missing order lines", as the set of rows each removes under SQL's NULL semantics, and their text |
| `provider.dfy` | `Provider` | the `OrderProvider` object: its settings fields, the constructors, `UpdateSourceSettings`, `ExistingUsers`, `ProcessRow` with `ProcessShipping` and `ProcessPayment`, and `RemoveMissingRows` |

Where the source changes objects in place, the model does too. The static roster
(`_ordersToExport`, `_ordersConditions`), a `Mapping`, a row dictionary, a writer and the
provider are classes. Their methods carry `modifies` clauses and state the new state. The
pure parts are functions, and they have lemmas about them.

Database access, host services and library calls appear as parameters:

- The rows a query returns are sequences passed in: the AccessUser records, the stored order lines and the staging table.
- The host's payment and shipping services are sequences of methods.
- `GetConditionalsSql`, `GetDistinctColumnsFromMapping` and `GetScriptValue()` are given as a function or text.
- The row count reported by the bulk copy is an argument.
- "UPDATE number `k` throws" is the `failAt` argument of `UpdateExportedOrdersInDb`.
- An exception the modelled code itself raises is a `Fault` value: a too-short `Substring`, a null reference or a missing dictionary key.

**The two settings names with a trailing space.** `SaveAsXml` writes `"DoNotExportCarts "` and
`"OrderStateAfterExport "` (src/OrderProvider.cs:243-244). Compared as strings, these names
select no case of the constructor's `switch`; `SavedKeysDifferFromParsedKeys` proves this. In
a job file, though, the names are tag names. XML's tag grammar allows white space before `>`,
so the reader sees `DoNotExportCarts` and `OrderStateAfterExport`. `SaveThenParse` proves
that a save followed by a parse of the read-back elements does the following:

- It restores all six boolean options, including the ones written with a trailing space.
- It restores each text option whenever that text survives an XML round trip: it is not null, not blank, and has no carriage return.
- It leaves the reading provider's schema as it was.

## Model

| member | source | states |
|---|---|---|
| `SourceReader.TrimConditionals` | src/OrderSourceReader.cs:95-101 | the conditionals text loses its trailing four characters; a non-empty text shorter than four makes `Substring` throw, and nothing else does |
| `SourceReader.GetWhereSql` | src/OrderSourceReader.cs:92-121 | the WHERE text fails exactly when trimming the conditionals fails |
| `SourceReader.WhereSqlJoinsClauses` | src/OrderSourceReader.cs:103-120 | the step-by-step build equals the present clauses joined by `" AND "`, in order: the trimmed conditionals if non-empty, the not-exported predicate, the without-external-ID predicate, the completed-only predicate (double-spaced when another clause precedes it) |
| `SourceReader.WhereSqlEmptyIff` | src/OrderSourceReader.cs:92-121 | the WHERE text is empty if and only if there are no conditionals and none of the three flags is set |
| `SourceReader.OrderIdEntrySelects` | src/OrderSourceReader.cs:82-85 | after `", [OrderId]"` is appended, some comma-separated entry trims to OrderId |
| `SourceReader.GetColumns` | src/OrderSourceReader.cs:74-90 | fails exactly when the library text is shorter than two characters; otherwise it drops the trailing `", "`; for EcomOrders it adds the external-ID alias, always selects OrderId, and appends `, [OrderId]` exactly when no entry already selects it |
| `SourceReader.GetFromTables` | src/OrderSourceReader.cs:123-139 | EcomOrders is left-joined to AccessUser; EcomOrderLines is its qualified name inner-joined to EcomOrders on the order ID; any other table is its qualified name |
| `SourceReader.OtherTablesReadUnfiltered` | src/OrderSourceReader.cs:31-39 | a table other than EcomOrders and EcomOrderLines is selected with no WHERE at all, whatever its conditionals and flags |
| `SourceReader.FilteredTablesQuery` | src/OrderSourceReader.cs:56-59 | for EcomOrders and EcomOrderLines the SELECT carries the clauses joined by `" AND "`, and `" where "` is added exactly when there is at least one clause |
| `SourceReader.RecordRow` | src/OrderSourceReader.cs:143 | the row has one entry per distinct non-null source column name, holding the cursor's value for it |
| `SourceReader.RosterOfIsDistinctIds` | src/OrderSourceReader.cs:146-152 | the roster built row by row holds every non-empty order ID read, exactly once, and nothing else |
| `SourceReader.RosterOfExtends` | src/OrderSourceReader.cs:149-152 | reading one more row extends the roster by that row's ID when it is non-empty and new |
| `SourceReader.OrderSourceReader.constructor` | src/OrderSourceReader.cs:15-40 | an EcomOrders reader starts an empty roster and saves its mapping's conditionals; an EcomOrderLines reader appends the saved conditionals to its own; the query opened is `ReaderQuery` of the result (none without column mappings, the fault when the WHERE text or column list throws) |
| `SourceReader.OrderSourceReader.GetNext` | src/OrderSourceReader.cs:141-160 | the row is the record keyed by source column; on EcomOrders a non-empty OrderId joins the roster if absent and is added to the row if missing; other tables leave the roster alone; the roster stays duplicate-free |
| `SourceReader.ExportRoster.UpdateExportedOrdersInDb` | src/OrderSourceReader.cs:162-215 | a null or empty roster issues nothing and clears nothing; otherwise the UPDATEs are exactly `ExportCommands` of the roster (cut short after the one that throws, which rolls back), and both statics are cleared either way |
| `SourceReader.IssueChunks` | src/OrderSourceReader.cs:181-196 | the loop issues, in order, the UPDATE of every chunk with a non-empty ID list, stopping after the one that throws |
| `SourceReader.ChunkEnd` | src/OrderSourceReader.cs:187 | `Skip(taken).Take(100)` ends after at most 100 IDs, and after exactly 100 unless it reaches the end |
| `SourceReader.ChunksCoverRoster` | src/OrderSourceReader.cs:183-195 | the chunks, concatenated, are the roster |
| `SourceReader.ChunkSizes` | src/OrderSourceReader.cs:183-195 | a non-empty roster gives ceil(n/100) chunks of 1 to 100 IDs each, all but the last of exactly 100 |
| `SourceReader.ChunkIsSlice` | src/OrderSourceReader.cs:187 | chunk `k` is the slice of the roster starting at `100 * k` |
| `SourceReader.ChunksPartitionRoster` | src/OrderSourceReader.cs:181-196 | each ID of a duplicate-free roster lies in exactly one chunk |
| `SourceReader.OneCommandPerChunk` | src/OrderSourceReader.cs:188-193 | when no chunk holds an empty ID, every chunk gets its own UPDATE over its IDs, in order |
| `SourceReader.ExportCommandsPerChunk` | src/OrderSourceReader.cs:181-201 | for a roster `GetNext` keeps, the statements are exactly one UPDATE per chunk (a single one up to 100 IDs) |
| `SourceReader.TwoHundredFiftyIdsGiveThreeChunks` | src/OrderSourceReader.cs:181-196 | 250 IDs are flagged in three UPDATEs over 100, 100 and 50 IDs |
| `DestinationWriter.DistinctDestinationColumnsNames` | src/OrderDestinationWriter.cs:44-47 | the staging columns have distinct names, and a name is present exactly when some column mapping targets it |
| `DestinationWriter.DistinctDestinationColumnsAreFirsts` | src/OrderDestinationWriter.cs:44-47 | `DistinctBy` keeps the first mapping's column of each name, in mapping order (against an index-based reference definition) |
| `DestinationWriter.DistinctDestinationColumnsSpec` | src/OrderDestinationWriter.cs:44-47 | both of the above together |
| `DestinationWriter.CollectDestinationColumns` | src/OrderDestinationWriter.cs:42-52 | the staging columns are the first column of each destination name, plus the AssortmentPermissionAccessUserID column for EcomAssortmentPermissions when no mapping targets it (ignoring case); names stay distinct and every mapped name is present |
| `DestinationWriter.OrderDestinationWriter.constructor` | src/OrderDestinationWriter.cs:24-60 | command timeout 1200; prefix `TempTableForBulkImport` + mapping ID; the bulk-copy target and the in-memory table are both named destination table + prefix and take the staging columns; counters start at zero; the base class's mapping is kept apart from the writer's own |
| `DestinationWriter.OrderDestinationWriter.FinishWriting` | src/OrderDestinationWriter.cs:62-70 | the skipped count is the bulk copy's; the staged count grows by the buffered rows minus the skipped ones, only when rows were buffered, and never shrinks when no more rows were skipped than buffered |
| `DestinationWriter.OrderDestinationWriter.MoveDataToMainTable` | src/OrderDestinationWriter.cs:72-73 | the merge receives the writer's own mapping, command and prefix, and the caller's transaction and flags unchanged |
| `ProviderSettings.KeyOf` | src/OrderProvider.cs:170-224 | an element name selects a case only when it equals that case's name exactly |
| `ProviderSettings.KeyNameSelectsKey` | src/OrderProvider.cs:170-224 | each case's own name selects that case and no other |
| `ProviderSettings.ApplyElementSetsOneOption` | src/OrderProvider.cs:170-224 | one element changes only the option its name selects: to its text, to whether its text is "True", or (Schema) to the element; an element without child nodes, or with another name, changes nothing |
| `ProviderSettings.ParseElementsStep` | src/OrderProvider.cs:168 | the loop over the child nodes handles them one at a time, in document order |
| `ProviderSettings.LastSetting` | src/OrderProvider.cs:168-225 | the element found is one that sets the option; none found means no element sets it |
| `ProviderSettings.ParsedOptionsAreLastValues` | src/OrderProvider.cs:164-226 | after the parse, every option holds the value given by the last element that sets it, or what it held before when no element sets it |
| `ProviderSettings.SavedKeysDifferFromParsedKeys` | src/OrderProvider.cs:243-244 | the two names written with a trailing space match no case of the parse as strings |
| `ProviderSettings.TagName` | src/OrderProvider.cs:243-244 | a written tag name is read back as a prefix of itself that does not end in XML white space |
| `ProviderSettings.TagNameDropsOneSpace` | src/OrderProvider.cs:243-244 | a name not ending in white space reads back unchanged, with or without one added space |
| `ProviderSettings.ReadBackSelects` | src/OrderProvider.cs:243-244 | an element written under a case's name, with or without a trailing space, selects that case when read back |
| `ProviderSettings.SavedElementsSelectTheirKeys` | src/OrderProvider.cs:240-247 | all eight written elements, read back, select the option each was written for |
| `ProviderSettings.BoolTextReadsBack` | src/OrderProvider.cs:241-247 | a written "True" or "False" reads back as a single text node with that text |
| `ProviderSettings.TextReadsBack` | src/OrderProvider.cs:240-244 | a text that survives the round trip reads back as itself; a null or blank one reads back as an element without child nodes |
| `ProviderSettings.SavedElementsReadBack` | src/OrderProvider.cs:238-250 | read back, each written flag is one text node holding `bool.ToString()` of the flag, and each surviving text is kept |
| `ProviderSettings.SavedElementDecides` | src/OrderProvider.cs:164-226 | in elements that select the written options in order, an element that sets its option decides its final value |
| `ProviderSettings.SavedShapeRestores` | src/OrderProvider.cs:164-226 | elements shaped like the written ones restore every flag and every surviving text, and leave the schema alone |
| `ProviderSettings.SaveThenParse` | src/OrderProvider.cs:238-264 | saving and parsing back restores all six flags, and each text option whenever it survives the read-back; the schema of the reading provider is kept |
| `Provider.OrderProvider.InitTableRelations` | src/OrderProvider.cs:61-65 | the relations are exactly EcomOrderLines with the single parent EcomOrders |
| `Provider.OrderProvider.constructor` | src/OrderProvider.cs:67-73 | the connection string is stored, every other option is unset or false, and the table relations are initialised |
| `Provider.OrderProvider.FromXml` | src/OrderProvider.cs:164-226 | the options are exactly those of parsing the child elements, in document order, from the unset options |
| `Provider.OrderProvider.ReadElements` | src/OrderProvider.cs:168-225 | the loop leaves the options at `ParseElements` of the options before it |
| `Provider.OrderProvider.ReadElement` | src/OrderProvider.cs:170-224 | one pass of the `switch` changes the options as `ApplyElement` says |
| `Provider.OrderProvider.AssignElement` | src/OrderProvider.cs:172-223 | the assignment in one `case` sets exactly that case's option |
| `Provider.OrderProvider.UpdateSourceSettings` | src/OrderProvider.cs:266-277 | the eight saved options are copied from the other provider and the schema is kept, so both providers then save the same elements |
| `Provider.OrderProvider.UpdateDestinationSettings` | src/OrderProvider.cs:279-283 | the same copy as `UpdateSourceSettings` |
| `Provider.OrderProvider.ExistingUsers` | src/OrderProvider.cs:494-525 | the first use reads the records into the table, where the first record of each external ID wins; later uses return the same table |
| `ProviderRows.UserTableFirstWins` | src/OrderProvider.cs:513-520 | the table holds exactly the external IDs read, each with the user ID of its first record |
| `ProviderRows.FirstTargeting` | src/OrderProvider.cs:534 | `Find` gives the first column mapping, active or not, onto the column, ignoring case |
| `ProviderRows.AccessUserIdIsFirstRecordsUser` | src/OrderProvider.cs:533-543 | a row gets the user ID of the first record with its non-empty external ID, and DBNull when there is no ID or no matching record |
| `Provider.OrderProvider.SetAccessUser` | src/OrderProvider.cs:531-554 | the designated column is set, added if absent, to the looked-up user ID or DBNull; the user table is read only for a non-empty external ID |
| `Provider.OrderProvider.ProcessRow` | src/OrderProvider.cs:527-564 | rows for a mapping other than EcomOrders (exact name) are untouched; EcomOrders rows become `ProcessedRow`: access user first, then shipping, then payment; a fault of `GetValue` stops the rewrite where it happened |
| `Provider.OrderProvider.ProcessMethods` | src/OrderProvider.cs:555-562 | shipping then payment, each only when its code mapping was designated; a shipping fault skips the payment |
| `Provider.ProcessedRowSetsAccessUser` | src/OrderProvider.cs:527-564 | after `ProcessRow` the designated column holds the first matching record's user ID or DBNull, unless a method field of the same name overwrote it; every other entry keeps its value |
| `Provider.WithMethodsKeepsOthers` | src/OrderProvider.cs:555-562 | the shipping and payment steps change only their own fields |
| `ProviderRows.GetValue` | src/OrderProvider.cs:653-678 | null when there is no mapping, or no script value and the source column is absent; otherwise, per script type: the source text, the text with the script value appended or prepended, or the script value (Constant, NewGuid); a Constant or NewGuid mapping with a script value gives that value without reading the row; it throws exactly when the source column must be read and is null (NullReferenceException) or absent from the row (KeyNotFoundException) |
| `ProviderRows.FirstWithCode` | src/OrderProvider.cs:642 | the first method whose non-null code equals the code, ignoring case |
| `ProviderRows.PaymentValues` | src/OrderProvider.cs:645-648 | a payment writes exactly the four OrderPaymentMethod entries |
| `ProviderRows.ShippingMethodValues` | src/OrderProvider.cs:600-604 | a shipping writes exactly the five OrderShippingMethod entries |
| `ProviderRows.FirstActiveTargeting` | src/OrderProvider.cs:608 | `FirstOrDefault` gives the first active column mapping onto the column, ignoring case |
| `ProviderRows.WithShippingSpec` | src/OrderProvider.cs:600-632 | the shipping's five entries are set; a fault reading the order ID stops there, leaving them written and the provider-data cell as it was; otherwise the provider-data cell is null without an order ID (in particular without an OrderId mapping) and the provider data with one; every other entry keeps its value |
| `ProviderRows.PaymentAppliedSpec` | src/OrderProvider.cs:637-651 | a blank code or one no payment has leaves the row as it is; otherwise the first payment with the code sets exactly its four entries and every other entry keeps its value; `GetValue`'s fault propagates |
| `ProviderRows.ShippingAppliedSpec` | src/OrderProvider.cs:592-598 | a fault reading the code is thrown with the row unchanged; a blank code or one no shipping has leaves the row as it is; otherwise the first shipping with the code, ignoring case, is written as `WithShippingSpec` states |
| `Provider.OrderProvider.ProcessPayment` | src/OrderProvider.cs:637-651 | the row becomes `PaymentApplied` of the row; on a fault it is unchanged and the fault is returned |
| `Provider.OrderProvider.ProcessShipping` | src/OrderProvider.cs:592-635 | the row becomes the values of `ShippingApplied` of the row and the fault returned is its fault, so a fault reading the order ID leaves the five shipping entries written |
| `ProviderMappings.SelfMapping` | src/OrderProvider.cs:480 | the added column mapping maps the column onto itself and is active |
| `ProviderMappings.EnsuredTargetsOnce` | src/OrderProvider.cs:473-482 | afterwards an active mapping targets the column; a mapping is added, at the end, only when none targeted it; a second call changes nothing |
| `ProviderMappings.EnsureMapping` | src/OrderProvider.cs:473-482 | with any argument null nothing changes; otherwise the self-mapping is appended exactly when no active column mapping in the list targets the column (ignoring case) |
| `ProviderMappings.WithoutExternalIdMappingsKeepsOthers` | src/OrderProvider.cs:490 | `RemoveAll` keeps exactly the column mappings not onto OrderCustomerAccessUserExternalId |
| `ProviderMappings.WithoutExternalIdMappingsAppend` | src/OrderProvider.cs:490 | the removal works piece by piece, so the kept mappings keep their order |
| `ProviderMappings.FindOrdersMapping` | src/OrderProvider.cs:486 | the first mapping onto EcomOrders (exact name); a mapping with a null destination table met before it throws |
| `ProviderMappings.RemoveColumnMappingsFromJob` | src/OrderProvider.cs:484-492 | the EcomOrders mapping loses exactly its external-ID column mappings; every other mapping is untouched |
| `ProviderMappings.GetMappingsByName` | src/OrderProvider.cs:313-323 | the result holds exactly the mappings whose source (or destination) table has that exact name |
| `ProviderMappings.GetMappingsByNameAppend` | src/OrderProvider.cs:313-323 | `FindAll` keeps the collection's order |
| `ProviderMappings.FirstTableNamed` | src/OrderProvider.cs:101-102 | the first table with the name, ignoring case |
| `ProviderMappings.CopiedOrderColumnsSpec` | src/OrderProvider.cs:105-111 | a string column is copied exactly when an order column other than the external ID has its name |
| `ProviderMappings.OriginalSourceTables` | src/OrderProvider.cs:97-115 | when both tables exist, the first order-lines table gains the copied order columns; every other table is unchanged |
| `ProviderMappings.OriginalDestinationTables` | src/OrderProvider.cs:117-130 | every table named exactly EcomOrders gains a string OrderCustomerAccessUserExternalId column; the others are unchanged |
| `ProviderMappings.ExternalIdIsDestinationOnly` | src/OrderProvider.cs:97-130 | the source schema never copies the external ID onto the order lines, while the destination schema gives it to the orders table |
| `OrderLineRemoval.DeletedByJoin` | src/OrderProvider.cs:577-579 | the LEFT JOIN statement deletes exactly the stored lines of a staged order whose (line, order) pair was not staged, the IDs compared as exact strings |
| `OrderLineRemoval.DeletedByLineId` | src/OrderProvider.cs:583-584 | the NOT IN statement deletes exactly the lines whose ID is unequal to every staged ID (none being NULL) and whose order has a stored line with a staged ID, the IDs compared as exact strings |
| `OrderLineRemoval.RemovalKeepsOtherOrders` | src/OrderProvider.cs:575-585 | either statement deletes only stored lines, never a line of an order not in this run, and never a line the run staged again |
| `OrderLineRemoval.NullStagedIdDeletesNothing` | src/OrderProvider.cs:583 | one staged line with a NULL ID makes the NOT IN statement delete nothing |
| `OrderLineRemoval.LineIdDeletesWithinJoin` | src/OrderProvider.cs:575-585 | when staging moves no line to another order, the NOT IN statement deletes no line the join statement keeps |
| `OrderLineRemoval.DeleteStemIsStagingStem` | src/OrderProvider.cs:573 | the table name the DELETE spells out is `EcomOrderLines` + the writer's staging marker |
| `OrderLineRemoval.DeleteReadsStagingTable` | src/OrderProvider.cs:570-573 | when the base-class mapping is the writer's own, the DELETE reads the staging table of the order-lines writer it picked: the same name, or the same up to letter case when the mapping names the table in other case |
| `Provider.FirstOrderLinesWriter` | src/OrderProvider.cs:570 | the first writer whose base-class mapping is set and has the destination table EcomOrderLines, ignoring case |
| `Provider.OrderProvider.RemoveMissingRows` | src/OrderProvider.cs:566-589 | with the option on and an order-lines writer that staged rows, its command joins the transaction and gets the LEFT JOIN text when an active mapping of the base-class mapping targets OrderLineOrderID, the NOT IN text otherwise; the rows removed are that statement's, and they are added to the total; no other writer's command changes; otherwise nothing changes |

## Left out

- SQL execution is not modelled; each statement is modelled by its text. The UPDATEs' effect on the database is out. So is the DELETE's, except for the set of rows it removes. Connections, transactions, `SqlParameter` handling and the bulk copy are out.
- Table and column names are compared as exact strings where the SQL server compares them. The model does not capture collation, trailing-space insensitivity or identifier quoting.
- `OrderLineRemoval.DeletedByJoin` and `OrderLineRemoval.DeletedByLineId` compare OrderLineID and OrderLineOrderID values as exact strings. SQL Server's `=`, `IN` and `NOT IN` on nvarchar ignore trailing spaces, and ignore letter case under a case-insensitive collation. A stored line "L1" staged as "L1 " is kept by the database but is in the model's deleted set, so the deleted sets are exact only for IDs that differ by more than trailing spaces and, under such a collation, letter case.
- Case-insensitive comparison folds ASCII letters only. .NET's ordinal-ignore-case folding of other letters is not modelled. White space, for `string.IsNullOrWhiteSpace`, is the full set of `char.IsWhiteSpace`.
- `GetConditionalsSql`, `GetDistinctColumnsFromMapping`, `GetScriptValue()`, `HasScriptWithValue`, `SQLTable.CreateTempTable`, `SqlBulkCopierWriteToServer` and the base-class `MoveDataToMainTable` belong to the integration library. They are inputs or forwarded arguments; their behaviour is not part of this model.
- `DestinationWriter.OrderDestinationWriter.FinishWriting`: the model takes the bulk copy (`SqlBulkCopierWriteToServer`) to leave `TableToWrite`'s rows in place. The source reads `TableToWrite.Rows.Count` only after that call, both in the `!= 0` test and in the increment, so a library that cleared the table would leave `RowsToWriteCount` unchanged, and `RemoveMissingRows` would then not run.
- Logging, `Write` (base-class buffering and the order cache clear) and `Close` are not modelled.
- `RunJob` and `AddMappingsToJobThatNeedsToBeThereForMoveToMainTables` are out. These are the orchestration and the code that designates the access-user column and the code mappings. The model takes the designated values as the provider's fields.
- The writer construction at src/OrderProvider.cs:347 passes five arguments (with `DiscardDuplicates`), but the writer's constructor takes four. The model follows the four-argument constructor.
- `Provider.OrderProvider.ProcessShipping`: the host's order lookups for a non-blank order ID (order by ID, shipping by ID, system-name comparison) and `Converter.Serialize` are reduced to the `providerData` value they yield, null when they find nothing. The model states where that value goes and when the lookups are skipped, not how the value is chosen.
- `Provider.OrderProvider.ProcessPayment`: the host's payment list and the context language's name and description are inputs.
- `Serialize`, the `Schema` object's own XML (`new Schema(node)`, `Schema.SaveAsXml`), the schema-management feature switch and `GetParameterOptions` are out. They are library or host code; the `Schema` element is kept as an opaque element.
- `ProviderSettings.SaveThenParse`: the round trip is stated only for texts that survive XML. Null, blank and carriage-return texts come back changed or unset. The model also takes `XmlTextWriter` to accept the space in the element name without checking it.
- The static roster is modelled as one shared object. The conditionals list is copied by value, so aliasing between the orders mapping's list and the saved list is not captured. Concurrent jobs are not modelled.
- `SourceReader.OrderSourceReader.GetNext` requires the cursor record to carry every source column, and `OrderId` for EcomOrders. The SELECT selects exactly those columns (see `GetColumns`). A record lacking them would make the C# indexer throw, and that case is not modelled.
- `Mapping.AddMapping(column, column, false)` is taken to append an active column mapping without a script. `AddColumn` is taken to append the column.
- Column mappings are taken to have a non-null destination column. The source reads `DestinationColumn.Name` without a null check, so a null there throws, and that case is not modelled.
- An EcomOrderLines reader always appends the conditionals saved by the last EcomOrders reader, however many mappings read EcomOrders; nothing suppresses them for a parent table read by several mappings.
- `UpdateExportedOrdersInDb` invalidates no host cache after setting the export flags, and neither does the model.
- `Mapping.GetColumnMappings()` and `Mapping.GetColumnMappings(true)` are both modelled as the mapping's one list of column mappings. If the library's default call filters that list (to active mappings, say), then `RecordRow`'s keys, the staging columns, `FirstTargeting` and the OrderLineOrderID test would range over that subset, and the model does not capture it.
- `writer.Mapping` in `RemoveMissingRows` reaches the base class's `Mapping`, because the writer's own is private (src/OrderDestinationWriter.cs:13). `BaseSqlWriter` is not part of this model, so that mapping is a field of its own, `baseMapping`, given to the constructor; when it is null, no writer is taken for EcomOrderLines and no DELETE runs.
