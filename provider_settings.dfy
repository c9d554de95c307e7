/**
 * The provider's settings as stored in a job file: the parse of the provider's XML node, the
 * element list `SaveAsXml` writes, and what reading that list back as XML restores.
 */
module ProviderSettings {
  import opened Wrappers
  import opened Text

  /** The first child of an XML element: a text node carries its text as `Value`, any other node null. */
  datatype XmlChild = XmlChild(value: Option<string>)

  /** A child element of the provider's node: its name and its child nodes. */
  datatype XmlElement = XmlElement(name: string, children: seq<XmlChild>)

  predicate HasChildNodes(e: XmlElement) {
    |e.children| > 0
  }

  /** `node.FirstChild.Value`. */
  function FirstChildValue(e: XmlElement): Option<string>
    requires HasChildNodes(e)
  {
    e.children[0].value
  }

  /** The options the XML node carries; `schema` is the element a `Schema` is built from. */
  datatype Settings = Settings(
    sqlConnectionString: Option<string>,
    schema: Option<XmlElement>,
    exportNotExportedOrders: bool,
    exportOnlyOrdersWithoutExtId: bool,
    doNotExportCarts: bool,
    orderStateAfterExport: Option<string>,
    discardDuplicates: bool,
    removeMissingOrderLines: bool,
    skipFailingRows: bool)

  /** The options of a provider built from XML before any element is read. */
  const Unset := Settings(None, None, false, false, false, None, false, false, false)

  /** The element names the parse recognises. */
  datatype SettingKey =
    | SqlConnectionStringKey | SchemaKey | ExportNotYetExportedOrdersKey | ExportOnlyOrdersWithoutExtIdKey
    | DoNotExportCartsKey | OrderStateAfterExportKey | DiscardDuplicatesKey | RemoveMissingOrderLinesKey
    | SkipFailingRowsKey

  function KeyName(k: SettingKey): string {
    match k
    case SqlConnectionStringKey => "SqlConnectionString"
    case SchemaKey => "Schema"
    case ExportNotYetExportedOrdersKey => "ExportNotYetExportedOrders"
    case ExportOnlyOrdersWithoutExtIdKey => "ExportOnlyOrdersWithoutExtID"
    case DoNotExportCartsKey => "DoNotExportCarts"
    case OrderStateAfterExportKey => "OrderStateAfterExport"
    case DiscardDuplicatesKey => "DiscardDuplicates"
    case RemoveMissingOrderLinesKey => "RemoveMissingOrderLines"
    case SkipFailingRowsKey => "SkipFailingRows"
  }

  /** The keys in the order the `switch` lists them. */
  const AllKeys := [SqlConnectionStringKey, SchemaKey, ExportNotYetExportedOrdersKey, ExportOnlyOrdersWithoutExtIdKey,
                    DoNotExportCartsKey, OrderStateAfterExportKey, DiscardDuplicatesKey, RemoveMissingOrderLinesKey,
                    SkipFailingRowsKey]

  function FindKey(name: string, keys: seq<SettingKey>): (r: Option<SettingKey>)
    ensures r.Some? ==> KeyName(r.value) == name && r.value in keys
  {
    if keys == [] then None
    else if KeyName(keys[0]) == name then Some(keys[0])
    else FindKey(name, keys[1..])
  }

  /** The `case` of `switch (node.Name)` an element name selects, if any (ordinal comparison). */
  function KeyOf(name: string): (r: Option<SettingKey>)
    ensures r.Some? ==> KeyName(r.value) == name
  {
    FindKey(name, AllKeys)
  }

  /** `node.FirstChild.Value == "True"`. */
  predicate IsTrueText(e: XmlElement)
    requires HasChildNodes(e)
  {
    FirstChildValue(e) == Some("True")
  }

  /** What a recognised element with child nodes sets its option to (any `Schema` element: the schema). */
  datatype OptionValue = Flag(flag: bool) | Text(text: Option<string>) | SchemaSource(source: Option<XmlElement>)

  /** The option `k` of `s`. */
  function OptionOf(s: Settings, k: SettingKey): OptionValue {
    match k
    case SqlConnectionStringKey => Text(s.sqlConnectionString)
    case SchemaKey => SchemaSource(s.schema)
    case ExportNotYetExportedOrdersKey => Flag(s.exportNotExportedOrders)
    case ExportOnlyOrdersWithoutExtIdKey => Flag(s.exportOnlyOrdersWithoutExtId)
    case DoNotExportCartsKey => Flag(s.doNotExportCarts)
    case OrderStateAfterExportKey => Text(s.orderStateAfterExport)
    case DiscardDuplicatesKey => Flag(s.discardDuplicates)
    case RemoveMissingOrderLinesKey => Flag(s.removeMissingOrderLines)
    case SkipFailingRowsKey => Flag(s.skipFailingRows)
  }

  /** Whether element `e` sets option `k`: its name selects `k` and it has child nodes (or is a `Schema`). */
  predicate Sets(e: XmlElement, k: SettingKey) {
    KeyOf(e.name) == Some(k) && (k == SchemaKey || HasChildNodes(e))
  }

  /** The value element `e` gives option `k`: the text, whether the text is "True", or the element. */
  function ValueFrom(e: XmlElement, k: SettingKey): OptionValue
    requires Sets(e, k)
  {
    match k
    case SchemaKey => SchemaSource(Some(e))
    case SqlConnectionStringKey => Text(FirstChildValue(e))
    case OrderStateAfterExportKey => Text(FirstChildValue(e))
    case _ => Flag(IsTrueText(e))
  }

  /** The assignment of one case of the `switch`, for an element with child nodes. */
  function Assign(s: Settings, k: SettingKey, e: XmlElement): Settings
    requires HasChildNodes(e)
  {
    match k
    case SqlConnectionStringKey => s.(sqlConnectionString := FirstChildValue(e))
    case SchemaKey => s.(schema := Some(e))
    case ExportNotYetExportedOrdersKey => s.(exportNotExportedOrders := IsTrueText(e))
    case ExportOnlyOrdersWithoutExtIdKey => s.(exportOnlyOrdersWithoutExtId := IsTrueText(e))
    case DoNotExportCartsKey => s.(doNotExportCarts := IsTrueText(e))
    case OrderStateAfterExportKey => s.(orderStateAfterExport := FirstChildValue(e))
    case DiscardDuplicatesKey => s.(discardDuplicates := IsTrueText(e))
    case RemoveMissingOrderLinesKey => s.(removeMissingOrderLines := IsTrueText(e))
    case SkipFailingRowsKey => s.(skipFailingRows := IsTrueText(e))
  }

  /**
   * One step of the constructor's `switch (node.Name)`: a recognised option changes only when
   * its element has child nodes, a `Schema` element always replaces the schema, and other
   * names are ignored.
   */
  function ApplyElement(s: Settings, e: XmlElement): Settings {
    var key := KeyOf(e.name);
    if key.None? then s
    else if key.value == SchemaKey then s.(schema := Some(e))
    else if !HasChildNodes(e) then s
    else Assign(s, key.value, e)
  }

  /** Each option after one step: the value the element gives it if it sets it, else unchanged. */
  lemma ApplyElementSetsOneOption(s: Settings, e: XmlElement, k: SettingKey)
    ensures OptionOf(ApplyElement(s, e), k) == if Sets(e, k) then ValueFrom(e, k) else OptionOf(s, k)
  {
    var key := KeyOf(e.name);
    if key.Some? && key.value != SchemaKey && HasChildNodes(e) {
      AssignSetsOneOption(s, key.value, e, k);
    }
  }

  lemma AssignSetsOneOption(s: Settings, key: SettingKey, e: XmlElement, k: SettingKey)
    requires HasChildNodes(e)
    ensures OptionOf(Assign(s, key, e), k)
         == if key == k then (match k
                              case SchemaKey => SchemaSource(Some(e))
                              case SqlConnectionStringKey => Text(FirstChildValue(e))
                              case OrderStateAfterExportKey => Text(FirstChildValue(e))
                              case _ => Flag(IsTrueText(e)))
            else OptionOf(s, k)
  {
    match key {
      case SqlConnectionStringKey =>
      case SchemaKey =>
      case ExportNotYetExportedOrdersKey =>
      case ExportOnlyOrdersWithoutExtIdKey =>
      case DoNotExportCartsKey =>
      case OrderStateAfterExportKey =>
      case DiscardDuplicatesKey =>
      case RemoveMissingOrderLinesKey =>
      case SkipFailingRowsKey =>
    }
  }

  /** The constructor's loop over `xmlNode.ChildNodes`, in document order, from the options `s`. */
  function ParseElements(s: Settings, elements: seq<XmlElement>): Settings
    decreases elements
  {
    if elements == [] then s
    else ParseElements(ApplyElement(s, elements[0]), elements[1..])
  }

  /** The loop from element `i` on: element `i` first, then the rest. */
  lemma ParseElementsStep(s: Settings, elements: seq<XmlElement>, i: nat)
    requires i < |elements|
    ensures ParseElements(s, elements[i..]) == ParseElements(ApplyElement(s, elements[i]), elements[i + 1..])
  {
    assert elements[i..][1..] == elements[i + 1..];
  }

  /** The last element that sets option `key`. */
  function LastSetting(elements: seq<XmlElement>, key: SettingKey): (r: Option<XmlElement>)
    ensures r.Some? ==> r.value in elements && Sets(r.value, key)
    ensures r.None? ==> forall i :: 0 <= i < |elements| ==> !Sets(elements[i], key)
  {
    if elements == [] then None
    else
      match LastSetting(elements[1..], key)
      case Some(e) => Some(e)
      case None => if Sets(elements[0], key) then Some(elements[0]) else None
  }

  /** The element at `i` is the last setting `key` when none after it does. */
  lemma {:induction false} LastSettingAt(elements: seq<XmlElement>, key: SettingKey, i: nat)
    requires i < |elements| && Sets(elements[i], key)
    requires forall j :: i < j < |elements| ==> !Sets(elements[j], key)
    ensures LastSetting(elements, key) == Some(elements[i])
  {
    if i > 0 {
      LastSettingAt(elements[1..], key, i - 1);
    } else {
      assert forall j :: 0 <= j < |elements[1..]| ==> !Sets(elements[1..][j], key) by {
        forall j | 0 <= j < |elements[1..]| ensures !Sets(elements[1..][j], key) {
          assert elements[1..][j] == elements[j + 1];
        }
      }
    }
  }

  /**
   * The parse as a whole: every option holds the value its last setting element gives it (a
   * flag: whether that element's text is "True"), or, when no element sets it, what it held
   * before; elements without child nodes and unrecognised names set nothing.
   */
  lemma {:induction false} ParsedOptionsAreLastValues(s: Settings, elements: seq<XmlElement>, k: SettingKey)
    ensures OptionOf(ParseElements(s, elements), k)
         == match LastSetting(elements, k) case Some(e) => ValueFrom(e, k) case None => OptionOf(s, k)
    decreases elements
  {
    if elements != [] {
      ApplyElementSetsOneOption(s, elements[0], k);
      ParsedOptionsAreLastValues(ApplyElement(s, elements[0]), elements[1..], k);
    }
  }

  /** The `WriteElementString` calls of `SaveAsXml` (source and destination alike), as name and text. */
  function SavedElements(s: Settings): seq<(string, Option<string>)> {
    [ (KeyName(SqlConnectionStringKey), s.sqlConnectionString),
      (KeyName(ExportNotYetExportedOrdersKey), Some(BoolText(s.exportNotExportedOrders))),
      (KeyName(ExportOnlyOrdersWithoutExtIdKey), Some(BoolText(s.exportOnlyOrdersWithoutExtId))),
      (KeyName(DoNotExportCartsKey) + " ", Some(BoolText(s.doNotExportCarts))),
      (KeyName(OrderStateAfterExportKey) + " ", s.orderStateAfterExport),
      (KeyName(DiscardDuplicatesKey), Some(BoolText(s.discardDuplicates))),
      (KeyName(RemoveMissingOrderLinesKey), Some(BoolText(s.removeMissingOrderLines))),
      (KeyName(SkipFailingRowsKey), Some(BoolText(s.skipFailingRows))) ]
  }

  /** The length of each key's name. */
  function NameLength(k: SettingKey): nat {
    match k
    case SqlConnectionStringKey => 19
    case SchemaKey => 6
    case ExportNotYetExportedOrdersKey => 26
    case ExportOnlyOrdersWithoutExtIdKey => 28
    case DoNotExportCartsKey => 16
    case OrderStateAfterExportKey => 21
    case DiscardDuplicatesKey => 17
    case RemoveMissingOrderLinesKey => 23
    case SkipFailingRowsKey => 15
  }

  /** Every key's name has its length and ends in a letter. */
  lemma KeyNameShape(k: SettingKey)
    ensures |KeyName(k)| == NameLength(k)
    ensures !IsXmlSpace(KeyName(k)[NameLength(k) - 1])
  {
    match k
    case SqlConnectionStringKey =>
    case SchemaKey =>
    case ExportNotYetExportedOrdersKey =>
    case ExportOnlyOrdersWithoutExtIdKey =>
    case DoNotExportCartsKey =>
    case OrderStateAfterExportKey =>
    case DiscardDuplicatesKey =>
    case RemoveMissingOrderLinesKey =>
    case SkipFailingRowsKey =>
  }

  /** No two keys have names of the same length, so no two share a name. */
  lemma KeyNameLengthsDiffer(k1: SettingKey, k2: SettingKey)
    ensures k1 != k2 ==> |KeyName(k1)| != |KeyName(k2)|
  {
    KeyNameShape(k1);
    KeyNameShape(k2);
  }

  lemma {:induction false} FindKeyFinds(keys: seq<SettingKey>, k: SettingKey)
    requires k in keys
    ensures FindKey(KeyName(k), keys) == Some(k)
  {
    if keys[0] != k {
      KeyNameLengthsDiffer(keys[0], k);
      FindKeyFinds(keys[1..], k);
    }
  }

  lemma KeyNameSelectsKey(k: SettingKey)
    ensures KeyOf(KeyName(k)) == Some(k)
    ensures KeyName(k) != [] && !IsXmlSpace(KeyName(k)[|KeyName(k)| - 1])
  {
    KeyNameShape(k);
    FindKeyFinds(AllKeys, k);
  }

  /** Two written names end in a space, so as strings they select no case of the parse. */
  lemma SavedKeysDifferFromParsedKeys(s: Settings)
    ensures KeyOf(SavedElements(s)[3].0) == None && KeyOf(SavedElements(s)[4].0) == None
  {
    var a := SavedElements(s)[3].0;
    var b := SavedElements(s)[4].0;
    assert a[|a| - 1] == ' ' && b[|b| - 1] == ' ';
    forall k: SettingKey ensures KeyName(k) != a && KeyName(k) != b {
      KeyNameSelectsKey(k);
    }
  }

  /** White space as XML 1.0 defines it (production S, section 2.3). */
  predicate IsXmlSpace(c: char) {
    c == ' ' || c == '\t' || c == '\r' || c == '\n'
  }

  /** A name as it comes back from `<name >…</name >`: the tag grammar allows space before `>`. */
  function TagName(name: string): (r: string)
    ensures |r| <= |name| && r == name[..|r|]
    ensures r != [] ==> !IsXmlSpace(r[|r| - 1])
  {
    if name != [] && IsXmlSpace(name[|name| - 1]) then TagName(name[..|name| - 1]) else name
  }

  /** A name that does not end in white space comes back as written, and so does it with one space added. */
  lemma TagNameDropsOneSpace(name: string)
    requires name != [] && !IsXmlSpace(name[|name| - 1])
    ensures TagName(name) == name && TagName(name + " ") == name
  {
    assert (name + " ")[..|name|] == name;
  }

  /** Line ends as an XML processor reports them (section 2.11 of XML 1.0). */
  function NormalizeLineEnds(s: string): string {
    if s == [] then []
    else if s[0] == '\r' then "\n" + NormalizeLineEnds(if |s| > 1 && s[1] == '\n' then s[2..] else s[1..])
    else [s[0]] + NormalizeLineEnds(s[1..])
  }

  lemma {:induction false} NormalizeLineEndsKeeps(s: string)
    requires '\r' !in s
    ensures NormalizeLineEnds(s) == s
  {
    if s != [] {
      NormalizeLineEndsKeeps(s[1..]);
      assert [s[0]] + s[1..] == s;
    }
  }

  /**
   * One written element as the job file's reader sees it: null, empty and all-space text
   * give an element without child nodes (white space is not preserved), any other text one
   * text node.
   */
  function ReadBack(written: (string, Option<string>)): (r: XmlElement)
    ensures r.name == TagName(written.0)
  {
    var (name, text) := written;
    if text.None? || forall i :: 0 <= i < |text.value| ==> IsXmlSpace(text.value[i]) then XmlElement(TagName(name), [])
    else XmlElement(TagName(name), [XmlChild(Some(NormalizeLineEnds(text.value)))])
  }

  function ReadBackAll(written: seq<(string, Option<string>)>): (r: seq<XmlElement>)
    ensures |r| == |written|
    ensures forall i :: 0 <= i < |written| ==> r[i] == ReadBack(written[i])
  {
    if written == [] then [] else [ReadBack(written[0])] + ReadBackAll(written[1..])
  }

  /** A text option survives the round trip unless it is null, blank, or holds a carriage return. */
  predicate SurvivesReadBack(text: Option<string>) {
    text.Some? && '\r' !in text.value && exists i :: 0 <= i < |text.value| && !IsXmlSpace(text.value[i])
  }

  lemma BoolTextReadsBack(name: string, b: bool)
    ensures ReadBack((name, Some(BoolText(b)))) == XmlElement(TagName(name), [XmlChild(Some(BoolText(b)))])
  {
    assert !IsXmlSpace(BoolText(b)[0]);
    NormalizeLineEndsKeeps(BoolText(b));
  }

  lemma TextReadsBack(name: string, text: Option<string>)
    ensures SurvivesReadBack(text) ==> ReadBack((name, text)) == XmlElement(TagName(name), [XmlChild(text)])
    ensures !SurvivesReadBack(text) && (text.Some? ==> '\r' !in text.value) ==> !HasChildNodes(ReadBack((name, text)))
  {
    if text.Some? && '\r' !in text.value {
      NormalizeLineEndsKeeps(text.value);
    }
  }

  /** The option each written element is meant for, in writing order. */
  const SavedKeys := [SqlConnectionStringKey, ExportNotYetExportedOrdersKey, ExportOnlyOrdersWithoutExtIdKey,
                      DoNotExportCartsKey, OrderStateAfterExportKey, DiscardDuplicatesKey, RemoveMissingOrderLinesKey,
                      SkipFailingRowsKey]

  /** An element written under a key's name, with or without one trailing space, selects that key when read back. */
  lemma ReadBackSelects(written: (string, Option<string>), k: SettingKey)
    requires written.0 == KeyName(k) || written.0 == KeyName(k) + " "
    ensures KeyOf(ReadBack(written).name) == Some(k)
  {
    KeyNameSelectsKey(k);
    TagNameDropsOneSpace(KeyName(k));
  }

  /** Read back as XML, every written element selects the option it was written for. */
  lemma SavedElementsSelectTheirKeys(s: Settings)
    ensures var elements := ReadBackAll(SavedElements(s));
      |elements| == 8 && forall i :: 0 <= i < 8 ==> KeyOf(elements[i].name) == Some(SavedKeys[i])
  {
    var written := SavedElements(s);
    var elements := ReadBackAll(written);
    forall i | 0 <= i < 8 ensures KeyOf(elements[i].name) == Some(SavedKeys[i]) {
      var k := SavedKeys[i];
      assert written[i].0 == KeyName(k) || written[i].0 == KeyName(k) + " ";
      ReadBackSelects(written[i], k);
    }
  }

  lemma SavedKeysDistinct()
    ensures forall a, b :: 0 <= a < b < |SavedKeys| ==> SavedKeys[a] != SavedKeys[b]
  {
  }

  /** In elements that select the written keys in order, one that sets its option decides it. */
  lemma {:induction false} SavedElementDecides(before: Settings, elements: seq<XmlElement>, i: nat)
    requires |elements| == 8 && forall j :: 0 <= j < 8 ==> KeyOf(elements[j].name) == Some(SavedKeys[j])
    requires i < 8 && Sets(elements[i], SavedKeys[i])
    ensures OptionOf(ParseElements(before, elements), SavedKeys[i]) == ValueFrom(elements[i], SavedKeys[i])
  {
    SavedKeysDistinct();
    assert forall j :: i < j < |elements| ==> !Sets(elements[j], SavedKeys[i]);
    LastSettingAt(elements, SavedKeys[i], i);
    ParsedOptionsAreLastValues(before, elements, SavedKeys[i]);
  }

  lemma {:induction false} SavedFlagDecides(before: Settings, elements: seq<XmlElement>, i: nat, b: bool)
    requires |elements| == 8 && forall j :: 0 <= j < 8 ==> KeyOf(elements[j].name) == Some(SavedKeys[j])
    requires 1 <= i < 8 && i != 4 && elements[i].children == [XmlChild(Some(BoolText(b)))]
    ensures OptionOf(ParseElements(before, elements), SavedKeys[i]) == Flag(b)
  {
    var k := SavedKeys[i];
    assert k != SchemaKey && k != SqlConnectionStringKey && k != OrderStateAfterExportKey;
    assert HasChildNodes(elements[i]) && IsTrueText(elements[i]) == b;
    assert ValueFrom(elements[i], k) == Flag(b);
    SavedElementDecides(before, elements, i);
  }

  lemma {:induction false} SavedTextDecides(before: Settings, elements: seq<XmlElement>, i: nat, text: Option<string>)
    requires |elements| == 8 && forall j :: 0 <= j < 8 ==> KeyOf(elements[j].name) == Some(SavedKeys[j])
    requires (i == 0 || i == 4) && elements[i].children == [XmlChild(text)]
    ensures OptionOf(ParseElements(before, elements), SavedKeys[i]) == Text(text)
  {
    var k := SavedKeys[i];
    assert k == SqlConnectionStringKey || k == OrderStateAfterExportKey;
    assert HasChildNodes(elements[i]) && FirstChildValue(elements[i]) == text;
    assert ValueFrom(elements[i], k) == Text(text);
    SavedElementDecides(before, elements, i);
  }

  /** No written element is a `Schema`, so the schema is left as it was. */
  lemma {:induction false} SavedShapeKeepsSchema(before: Settings, elements: seq<XmlElement>)
    requires |elements| == 8 && forall j :: 0 <= j < 8 ==> KeyOf(elements[j].name) == Some(SavedKeys[j])
    ensures ParseElements(before, elements).schema == before.schema
  {
    assert forall j :: 0 <= j < |elements| ==> !Sets(elements[j], SchemaKey);
    ParsedOptionsAreLastValues(before, elements, SchemaKey);
  }

  /** The flag written at position `i` of the saved elements. */
  function WrittenFlag(s: Settings, i: nat): bool
    requires 1 <= i < 8 && i != 4
  {
    match i
    case 1 => s.exportNotExportedOrders
    case 2 => s.exportOnlyOrdersWithoutExtId
    case 3 => s.doNotExportCarts
    case 5 => s.discardDuplicates
    case 6 => s.removeMissingOrderLines
    case _ => s.skipFailingRows
  }

  /** Elements that select the written keys in order and carry the written flag texts restore every flag. */
  lemma {:induction false} SavedShapeRestoresFlags(before: Settings, elements: seq<XmlElement>, s: Settings)
    requires |elements| == 8 && forall j :: 0 <= j < 8 ==> KeyOf(elements[j].name) == Some(SavedKeys[j])
    requires forall i :: 1 <= i < 8 && i != 4 ==> elements[i].children == [XmlChild(Some(BoolText(WrittenFlag(s, i))))]
    ensures var r := ParseElements(before, elements);
      && r.exportNotExportedOrders == s.exportNotExportedOrders
      && r.exportOnlyOrdersWithoutExtId == s.exportOnlyOrdersWithoutExtId
      && r.doNotExportCarts == s.doNotExportCarts
      && r.discardDuplicates == s.discardDuplicates
      && r.removeMissingOrderLines == s.removeMissingOrderLines
      && r.skipFailingRows == s.skipFailingRows
  {
    forall i | 1 <= i < 8 && i != 4
      ensures OptionOf(ParseElements(before, elements), SavedKeys[i]) == Flag(WrittenFlag(s, i))
    {
      SavedFlagDecides(before, elements, i, WrittenFlag(s, i));
    }
    FlagsFromOptions(ParseElements(before, elements), s);
  }

  lemma FlagsFromOptions(r: Settings, s: Settings)
    requires forall i :: 1 <= i < 8 && i != 4 ==> OptionOf(r, SavedKeys[i]) == Flag(WrittenFlag(s, i))
    ensures && r.exportNotExportedOrders == s.exportNotExportedOrders
            && r.exportOnlyOrdersWithoutExtId == s.exportOnlyOrdersWithoutExtId
            && r.doNotExportCarts == s.doNotExportCarts
            && r.discardDuplicates == s.discardDuplicates
            && r.removeMissingOrderLines == s.removeMissingOrderLines
            && r.skipFailingRows == s.skipFailingRows
  {
    assert OptionOf(r, SavedKeys[1]) == Flag(WrittenFlag(s, 1));
    assert OptionOf(r, SavedKeys[2]) == Flag(WrittenFlag(s, 2));
    assert OptionOf(r, SavedKeys[3]) == Flag(WrittenFlag(s, 3));
    assert OptionOf(r, SavedKeys[5]) == Flag(WrittenFlag(s, 5));
    assert OptionOf(r, SavedKeys[6]) == Flag(WrittenFlag(s, 6));
    assert OptionOf(r, SavedKeys[7]) == Flag(WrittenFlag(s, 7));
  }

  /** Elements of the written shape restore the flags and the surviving texts, and leave the schema. */
  lemma {:induction false} SavedShapeRestores(before: Settings, elements: seq<XmlElement>, s: Settings)
    requires |elements| == 8 && forall j :: 0 <= j < 8 ==> KeyOf(elements[j].name) == Some(SavedKeys[j])
    requires forall i :: 1 <= i < 8 && i != 4 ==> elements[i].children == [XmlChild(Some(BoolText(WrittenFlag(s, i))))]
    requires SurvivesReadBack(s.sqlConnectionString) ==> elements[0].children == [XmlChild(s.sqlConnectionString)]
    requires SurvivesReadBack(s.orderStateAfterExport) ==> elements[4].children == [XmlChild(s.orderStateAfterExport)]
    ensures var r := ParseElements(before, elements);
      && r.exportNotExportedOrders == s.exportNotExportedOrders
      && r.exportOnlyOrdersWithoutExtId == s.exportOnlyOrdersWithoutExtId
      && r.doNotExportCarts == s.doNotExportCarts
      && r.discardDuplicates == s.discardDuplicates
      && r.removeMissingOrderLines == s.removeMissingOrderLines
      && r.skipFailingRows == s.skipFailingRows
      && r.schema == before.schema
      && (SurvivesReadBack(s.sqlConnectionString) ==> r.sqlConnectionString == s.sqlConnectionString)
      && (SurvivesReadBack(s.orderStateAfterExport) ==> r.orderStateAfterExport == s.orderStateAfterExport)
  {
    SavedShapeRestoresFlags(before, elements, s);
    SavedShapeKeepsSchema(before, elements);
    if SurvivesReadBack(s.sqlConnectionString) {
      SavedTextDecides(before, elements, 0, s.sqlConnectionString);
      TextFromOption(ParseElements(before, elements), 0, s.sqlConnectionString);
    }
    if SurvivesReadBack(s.orderStateAfterExport) {
      SavedTextDecides(before, elements, 4, s.orderStateAfterExport);
      TextFromOption(ParseElements(before, elements), 4, s.orderStateAfterExport);
    }
  }

  lemma TextFromOption(r: Settings, i: nat, text: Option<string>)
    requires (i == 0 || i == 4) && OptionOf(r, SavedKeys[i]) == Text(text)
    ensures i == 0 ==> r.sqlConnectionString == text
    ensures i == 4 ==> r.orderStateAfterExport == text
  {
  }

  /** The text written at a flag's position is that flag's `bool.ToString`. */
  lemma SavedFlagText(s: Settings, i: nat)
    requires 1 <= i < 8 && i != 4
    ensures SavedElements(s)[i].1 == Some(BoolText(WrittenFlag(s, i)))
  {
  }

  /** Read back as XML, the written flags are one text node each, and surviving texts are kept. */
  lemma {:induction false} SavedElementsReadBack(s: Settings)
    ensures var elements := ReadBackAll(SavedElements(s));
      && (forall i :: 1 <= i < 8 && i != 4 ==> elements[i].children == [XmlChild(Some(BoolText(WrittenFlag(s, i))))])
      && (SurvivesReadBack(s.sqlConnectionString) ==> elements[0].children == [XmlChild(s.sqlConnectionString)])
      && (SurvivesReadBack(s.orderStateAfterExport) ==> elements[4].children == [XmlChild(s.orderStateAfterExport)])
  {
    var written := SavedElements(s);
    forall i | 1 <= i < 8 && i != 4
      ensures ReadBackAll(written)[i].children == [XmlChild(Some(BoolText(WrittenFlag(s, i))))]
    {
      SavedFlagText(s, i);
      BoolTextReadsBack(written[i].0, WrittenFlag(s, i));
    }
    TextReadsBack(written[0].0, s.sqlConnectionString);
    TextReadsBack(written[4].0, s.orderStateAfterExport);
  }

  /**
   * Saving the options and parsing the saved elements back, on top of the options `before`
   * of the reading provider: every boolean option is restored, the two names written with a
   * trailing space still reach their options, and the text options are restored whenever
   * they survive the read-back.
   */
  lemma {:induction false} SaveThenParse(s: Settings, before: Settings)
    ensures var r := ParseElements(before, ReadBackAll(SavedElements(s)));
      && r.exportNotExportedOrders == s.exportNotExportedOrders
      && r.exportOnlyOrdersWithoutExtId == s.exportOnlyOrdersWithoutExtId
      && r.doNotExportCarts == s.doNotExportCarts
      && r.discardDuplicates == s.discardDuplicates
      && r.removeMissingOrderLines == s.removeMissingOrderLines
      && r.skipFailingRows == s.skipFailingRows
      && r.schema == before.schema
      && (SurvivesReadBack(s.sqlConnectionString) ==> r.sqlConnectionString == s.sqlConnectionString)
      && (SurvivesReadBack(s.orderStateAfterExport) ==> r.orderStateAfterExport == s.orderStateAfterExport)
  {
    SavedElementsSelectTheirKeys(s);
    SavedElementsReadBack(s);
    SavedShapeRestores(before, ReadBackAll(SavedElements(s)), s);
  }
}
