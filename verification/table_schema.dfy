/** The table-configuration validator: which JavaScript values are accepted
    as a table configuration, what typed configuration is read from them,
    and where the first violation sits when they are not.  Unknown
    properties are ignored (the typed result simply has no place for them). */
module TableSchema {
  import opened Wrappers
  import opened Json
  import opened Icons
  import opened Seqs

  /** One step of the path to an offending value. */
  datatype Segment = Key(name: string) | Index(at: nat)

  datatype IssueCode = InvalidType | InvalidEnumValue | InvalidUnion

  /** A validation error: where, and what kind of violation. */
  datatype Issue = Issue(path: seq<Segment>, code: IssueCode)

  /** A header or label: literal text or an i18n key. */
  datatype Label = Literal(text: string) | I18n(key: string)

  datatype MenuItem = MenuItem(itemLabel: Label, icon: Option<IconKey>, action: string, variant: Option<string>)

  /** A column's `cell`: one of the two named renderers or a custom function. */
  datatype Cell = BadgeCell | DropdownMenuCell | CustomCell(source: string)

  datatype MenuProperties = MenuProperties(items: seq<MenuItem>)

  datatype Column = Column(
    id: string,
    header: Label,
    accessorKey: Option<string>,
    cell: Option<Cell>,
    enableSorting: Option<bool>,
    properties: Option<MenuProperties>)

  datatype FieldsConfig = FieldsConfig(enabled: bool, fields: seq<string>)

  datatype PaginationConfig = PaginationConfig(enabled: bool, pageSize: int)

  datatype Table = Table(
    columns: seq<Column>,
    filtering: Option<FieldsConfig>,
    sorting: Option<FieldsConfig>,
    pagination: Option<PaginationConfig>)

  // ---------------------------------------------------------------------
  // The accepted language, stated property by property.

  predicate IsStr(o: Option<Value>) {
    o.Some? && o.value.Str?
  }

  predicate IsOptStr(o: Option<Value>) {
    o.None? || o.value.Str?
  }

  predicate IsOptBool(o: Option<Value>) {
    o.None? || o.value.Bool?
  }

  /** A literal string, or an object whose `i18n` is exactly `true` and
      whose `key` is a string. */
  predicate IsLabel(v: Value) {
    v.Str? || (v.Obj? && Get(v.members, "i18n") == Some(Bool(true)) && IsStr(Get(v.members, "key")))
  }

  /** An icon name is one of the icon table's keys, compared case-sensitively. */
  predicate IsIconName(v: Value) {
    v.Str? && KeyOf(v.s).Some?
  }

  predicate IsMenuItem(v: Value) {
    && v.Obj?
    && Get(v.members, "label").Some? && IsLabel(Get(v.members, "label").value)
    && (Get(v.members, "icon").None? || IsIconName(Get(v.members, "icon").value))
    && IsStr(Get(v.members, "action"))
    && IsOptStr(Get(v.members, "variant"))
  }

  predicate IsCell(v: Value) {
    (v.Str? && (v.s == "Badge" || v.s == "DropdownMenu")) || v.Func?
  }

  predicate IsMenuProperties(v: Value) {
    && v.Obj?
    && Get(v.members, "items").Some?
    && Get(v.members, "items").value.Arr?
    && forall x :: x in Get(v.members, "items").value.items ==> IsMenuItem(x)
  }

  predicate IsColumn(v: Value) {
    && v.Obj?
    && IsStr(Get(v.members, "id"))
    && Get(v.members, "header").Some? && IsLabel(Get(v.members, "header").value)
    && IsOptStr(Get(v.members, "accessorKey"))
    && (Get(v.members, "cell").None? || IsCell(Get(v.members, "cell").value))
    && IsOptBool(Get(v.members, "enableSorting"))
    && (Get(v.members, "properties").None? || IsMenuProperties(Get(v.members, "properties").value))
  }

  predicate IsStrings(v: Value) {
    v.Arr? && forall x :: x in v.items ==> x.Str?
  }

  predicate IsFieldsConfig(v: Value) {
    && v.Obj?
    && Get(v.members, "enabled").Some? && Get(v.members, "enabled").value.Bool?
    && Get(v.members, "fields").Some? && IsStrings(Get(v.members, "fields").value)
  }

  predicate IsPaginationConfig(v: Value) {
    && v.Obj?
    && Get(v.members, "enabled").Some? && Get(v.members, "enabled").value.Bool?
    && Get(v.members, "pageSize").Some? && Get(v.members, "pageSize").value.Num?
  }

  predicate IsTable(v: Value) {
    && v.Obj?
    && Get(v.members, "columns").Some?
    && Get(v.members, "columns").value.Arr?
    && (forall x :: x in Get(v.members, "columns").value.items ==> IsColumn(x))
    && (Get(v.members, "filtering").None? || IsFieldsConfig(Get(v.members, "filtering").value))
    && (Get(v.members, "sorting").None? || IsFieldsConfig(Get(v.members, "sorting").value))
    && (Get(v.members, "pagination").None? || IsPaginationConfig(Get(v.members, "pagination").value))
  }

  // ---------------------------------------------------------------------
  // The parser: the typed configuration, or the first issue in property
  // declaration order.

  function RequiredString(ms: seq<Member>, k: string, path: seq<Segment>): (r: Result<string, Issue>)
    ensures r.Success? <==> IsStr(Get(ms, k))
    ensures r.Success? ==> Get(ms, k) == Some(Str(r.value))
    ensures r.Failure? ==> r.error == Issue(path + [Key(k)], InvalidType)
  {
    match Get(ms, k)
    case Some(Str(s)) => Success(s)
    case _ => Failure(Issue(path + [Key(k)], InvalidType))
  }

  function OptionalString(ms: seq<Member>, k: string, path: seq<Segment>): (r: Result<Option<string>, Issue>)
    ensures r.Success? <==> IsOptStr(Get(ms, k))
    ensures r.Success? ==> (r.value.None? <==> Get(ms, k).None?)
    ensures r.Success? && r.value.Some? ==> Get(ms, k) == Some(Str(r.value.value))
    ensures r.Failure? ==> r.error == Issue(path + [Key(k)], InvalidType)
  {
    match Get(ms, k)
    case None => Success(None)
    case Some(Str(s)) => Success(Some(s))
    case _ => Failure(Issue(path + [Key(k)], InvalidType))
  }

  function RequiredBool(ms: seq<Member>, k: string, path: seq<Segment>): (r: Result<bool, Issue>)
    ensures r.Success? <==> Get(ms, k).Some? && Get(ms, k).value.Bool?
    ensures r.Success? ==> Get(ms, k) == Some(Bool(r.value))
    ensures r.Failure? ==> r.error == Issue(path + [Key(k)], InvalidType)
  {
    match Get(ms, k)
    case Some(Bool(b)) => Success(b)
    case _ => Failure(Issue(path + [Key(k)], InvalidType))
  }

  function OptionalBool(ms: seq<Member>, k: string, path: seq<Segment>): (r: Result<Option<bool>, Issue>)
    ensures r.Success? <==> IsOptBool(Get(ms, k))
    ensures r.Success? ==> (r.value.None? <==> Get(ms, k).None?)
    ensures r.Success? && r.value.Some? ==> Get(ms, k) == Some(Bool(r.value.value))
    ensures r.Failure? ==> r.error == Issue(path + [Key(k)], InvalidType)
  {
    match Get(ms, k)
    case None => Success(None)
    case Some(Bool(b)) => Success(Some(b))
    case _ => Failure(Issue(path + [Key(k)], InvalidType))
  }

  /** A header or label: a string is taken as literal text, anything else
      must be the i18n form, and a value that is neither is a union failure. */
  function ParseLabel(v: Value, path: seq<Segment>): (r: Result<Label, Issue>)
    ensures r.Success? <==> IsLabel(v)
    ensures r.Failure? ==> r.error == Issue(path, InvalidUnion)
  {
    match v
    case Str(s) => Success(Literal(s))
    case Obj(ms) =>
      if Get(ms, "i18n") == Some(Bool(true)) && IsStr(Get(ms, "key"))
      then Success(I18n(Get(ms, "key").value.s))
      else Failure(Issue(path, InvalidUnion))
    case _ => Failure(Issue(path, InvalidUnion))
  }

  /** A required label property; a missing one fails the union too. */
  function LabelField(ms: seq<Member>, k: string, path: seq<Segment>): (r: Result<Label, Issue>)
    ensures r.Success? <==> Get(ms, k).Some? && IsLabel(Get(ms, k).value)
    ensures r.Failure? ==> r.error == Issue(path + [Key(k)], InvalidUnion)
  {
    match Get(ms, k)
    case None => Failure(Issue(path + [Key(k)], InvalidUnion))
    case Some(v) => ParseLabel(v, path + [Key(k)])
  }

  /** An optional icon: a string outside the key set is an enumeration
      failure, a non-string a type failure. */
  function IconField(ms: seq<Member>, path: seq<Segment>): (r: Result<Option<IconKey>, Issue>)
    ensures r.Success? <==> Get(ms, "icon").None? || IsIconName(Get(ms, "icon").value)
    ensures r.Success? ==> (r.value.None? <==> Get(ms, "icon").None?)
    ensures r.Success? && r.value.Some? ==> Get(ms, "icon") == Some(Str(KeyName(r.value.value)))
    ensures r.Failure? && Get(ms, "icon").value.Str? ==> r.error == Issue(path + [Key("icon")], InvalidEnumValue)
    ensures r.Failure? && !Get(ms, "icon").value.Str? ==> r.error == Issue(path + [Key("icon")], InvalidType)
  {
    match Get(ms, "icon")
    case None => Success(None)
    case Some(Str(s)) =>
      (match KeyOf(s)
       case Some(k) => Success(Some(k))
       case None => Failure(Issue(path + [Key("icon")], InvalidEnumValue)))
    case Some(_) => Failure(Issue(path + [Key("icon")], InvalidType))
  }

  function ParseMenuItem(v: Value, path: seq<Segment>): (r: Result<MenuItem, Issue>)
    ensures r.Success? <==> IsMenuItem(v)
    ensures r.Failure? ==> path <= r.error.path
  {
    if !v.Obj? then Failure(Issue(path, InvalidType))
    else
      var ms := v.members;
      var itemLabel :- LabelField(ms, "label", path);
      var icon :- IconField(ms, path);
      var action :- RequiredString(ms, "action", path);
      var variant :- OptionalString(ms, "variant", path);
      Success(MenuItem(itemLabel, icon, action, variant))
  }

  /** The elements of an array from index `i` on; the first failing element
      decides the issue. */
  function ParseMenuItems(items: seq<Value>, path: seq<Segment>, i: nat): (r: Result<seq<MenuItem>, Issue>)
    requires i <= |items|
    ensures r.Success? <==> forall j :: i <= j < |items| ==> IsMenuItem(items[j])
    ensures r.Success? ==> |r.value| == |items| - i
    ensures r.Failure? ==> exists j :: i <= j < |items| && path + [Index(j)] <= r.error.path
    decreases |items| - i
  {
    if i == |items| then Success([])
    else
      var first :- ParseMenuItem(items[i], path + [Index(i)]);
      var rest :- ParseMenuItems(items, path, i + 1);
      Success([first] + rest)
  }

  function ParseMenuProperties(v: Value, path: seq<Segment>): (r: Result<MenuProperties, Issue>)
    ensures r.Success? <==> IsMenuProperties(v)
    ensures r.Failure? ==> path <= r.error.path
  {
    if !v.Obj? then Failure(Issue(path, InvalidType))
    else
      match Get(v.members, "items")
      case Some(Arr(items)) =>
        var parsed :- ParseMenuItems(items, path + [Key("items")], 0);
        Success(MenuProperties(parsed))
      case _ => Failure(Issue(path + [Key("items")], InvalidType))
  }

  /** An optional `cell`: `'Badge'`, `'DropdownMenu'` or a function. */
  function ParseCell(v: Value, path: seq<Segment>): (r: Result<Cell, Issue>)
    ensures r.Success? <==> IsCell(v)
    ensures r.Failure? ==> r.error == Issue(path, InvalidUnion)
  {
    match v
    case Str(s) =>
      if s == "Badge" then Success(BadgeCell)
      else if s == "DropdownMenu" then Success(DropdownMenuCell)
      else Failure(Issue(path, InvalidUnion))
    case Func(src) => Success(CustomCell(src))
    case _ => Failure(Issue(path, InvalidUnion))
  }

  function CellField(ms: seq<Member>, path: seq<Segment>): (r: Result<Option<Cell>, Issue>)
    ensures r.Success? <==> Get(ms, "cell").None? || IsCell(Get(ms, "cell").value)
    ensures r.Success? ==> (r.value.None? <==> Get(ms, "cell").None?)
    ensures r.Failure? ==> r.error == Issue(path + [Key("cell")], InvalidUnion)
  {
    match Get(ms, "cell")
    case None => Success(None)
    case Some(v) =>
      var cell :- ParseCell(v, path + [Key("cell")]);
      Success(Some(cell))
  }

  function OptionalMenuProperties(ms: seq<Member>, path: seq<Segment>): (r: Result<Option<MenuProperties>, Issue>)
    ensures r.Success? <==> Get(ms, "properties").None? || IsMenuProperties(Get(ms, "properties").value)
    ensures r.Success? ==> (r.value.None? <==> Get(ms, "properties").None?)
    ensures r.Failure? ==> path + [Key("properties")] <= r.error.path
  {
    match Get(ms, "properties")
    case None => Success(None)
    case Some(p) =>
      var props :- ParseMenuProperties(p, path + [Key("properties")]);
      Success(Some(props))
  }

  function ParseColumn(v: Value, path: seq<Segment>): (r: Result<Column, Issue>)
    ensures r.Success? <==> IsColumn(v)
    ensures r.Failure? ==> path <= r.error.path
  {
    if !v.Obj? then Failure(Issue(path, InvalidType))
    else
      var ms := v.members;
      var id :- RequiredString(ms, "id", path);
      var header :- LabelField(ms, "header", path);
      var accessorKey :- OptionalString(ms, "accessorKey", path);
      var cell :- CellField(ms, path);
      var enableSorting :- OptionalBool(ms, "enableSorting", path);
      var properties :- OptionalMenuProperties(ms, path);
      Success(Column(id, header, accessorKey, cell, enableSorting, properties))
  }

  function ParseColumns(items: seq<Value>, path: seq<Segment>, i: nat): (r: Result<seq<Column>, Issue>)
    requires i <= |items|
    ensures r.Success? <==> forall j :: i <= j < |items| ==> IsColumn(items[j])
    ensures r.Success? ==> |r.value| == |items| - i
    ensures r.Failure? ==> exists j :: i <= j < |items| && path + [Index(j)] <= r.error.path
    decreases |items| - i
  {
    if i == |items| then Success([])
    else
      var first :- ParseColumn(items[i], path + [Index(i)]);
      var rest :- ParseColumns(items, path, i + 1);
      Success([first] + rest)
  }

  function ParseStrings(items: seq<Value>, path: seq<Segment>, i: nat): (r: Result<seq<string>, Issue>)
    requires i <= |items|
    ensures r.Success? <==> forall j :: i <= j < |items| ==> items[j].Str?
    ensures r.Success? ==> |r.value| == |items| - i
    ensures r.Success? ==> forall j :: i <= j < |items| ==> items[j] == Str(r.value[j - i])
    decreases |items| - i
  {
    if i == |items| then Success([])
    else
      match items[i]
      case Str(s) =>
        var rest :- ParseStrings(items, path, i + 1);
        Success([s] + rest)
      case _ => Failure(Issue(path + [Index(i)], InvalidType))
  }

  function ParseFieldsConfig(v: Value, path: seq<Segment>): (r: Result<FieldsConfig, Issue>)
    ensures r.Success? <==> IsFieldsConfig(v)
  {
    if !v.Obj? then Failure(Issue(path, InvalidType))
    else
      var enabled :- RequiredBool(v.members, "enabled", path);
      match Get(v.members, "fields")
      case Some(Arr(items)) =>
        var fields :- ParseStrings(items, path + [Key("fields")], 0);
        Success(FieldsConfig(enabled, fields))
      case _ => Failure(Issue(path + [Key("fields")], InvalidType))
  }

  /** `pageSize` must be a number; its sign is not checked. */
  function ParsePaginationConfig(v: Value, path: seq<Segment>): (r: Result<PaginationConfig, Issue>)
    ensures r.Success? <==> IsPaginationConfig(v)
  {
    if !v.Obj? then Failure(Issue(path, InvalidType))
    else
      var enabled :- RequiredBool(v.members, "enabled", path);
      match Get(v.members, "pageSize")
      case Some(Num(n)) => Success(PaginationConfig(enabled, n))
      case _ => Failure(Issue(path + [Key("pageSize")], InvalidType))
  }

  function OptionalFields(ms: seq<Member>, k: string): (r: Result<Option<FieldsConfig>, Issue>)
    ensures r.Success? <==> Get(ms, k).None? || IsFieldsConfig(Get(ms, k).value)
    ensures r.Success? ==> (r.value.None? <==> Get(ms, k).None?)
  {
    match Get(ms, k)
    case None => Success(None)
    case Some(f) =>
      var parsed :- ParseFieldsConfig(f, [Key(k)]);
      Success(Some(parsed))
  }

  /** The required `columns` array. */
  function ColumnsField(ms: seq<Member>): (r: Result<seq<Column>, Issue>)
    ensures r.Success? <==>
      Get(ms, "columns").Some? && Get(ms, "columns").value.Arr?
      && forall x :: x in Get(ms, "columns").value.items ==> IsColumn(x)
    ensures r.Success? ==> |r.value| == |Get(ms, "columns").value.items|
    ensures r.Failure? ==> [Key("columns")] <= r.error.path
  {
    match Get(ms, "columns")
    case Some(Arr(items)) => ParseColumns(items, [Key("columns")], 0)
    case _ => Failure(Issue([Key("columns")], InvalidType))
  }

  function OptionalPagination(ms: seq<Member>): (r: Result<Option<PaginationConfig>, Issue>)
    ensures r.Success? <==> Get(ms, "pagination").None? || IsPaginationConfig(Get(ms, "pagination").value)
    ensures r.Success? ==> (r.value.None? <==> Get(ms, "pagination").None?)
  {
    match Get(ms, "pagination")
    case None => Success(None)
    case Some(p) =>
      var parsed :- ParsePaginationConfig(p, [Key("pagination")]);
      Success(Some(parsed))
  }

  /** `validateTableConfig(config)`: the typed configuration, or the first
      issue; one bad column rejects the whole configuration. */
  function ValidateTableConfig(v: Value): (r: Result<Table, Issue>)
    ensures r.Success? <==> IsTable(v)
    ensures r.Success? ==> |r.value.columns| == |Get(v.members, "columns").value.items|
  {
    if !v.Obj? then Failure(Issue([], InvalidType))
    else
      var ms := v.members;
      var columns :- ColumnsField(ms);
      var filtering :- OptionalFields(ms, "filtering");
      var sorting :- OptionalFields(ms, "sorting");
      var pagination :- OptionalPagination(ms);
      Success(Table(columns, filtering, sorting, pagination))
  }

  /** `validateTableColumn(column)`. */
  function ValidateTableColumn(v: Value): (r: Result<Column, Issue>)
    ensures r.Success? <==> IsColumn(v)
  {
    ParseColumn(v, [])
  }

  // ---------------------------------------------------------------------
  // The inverse direction: writing a typed configuration back out as a
  // value, property by property in declaration order, leaving absent
  // optional properties out.

  /** A property list from (name, optional value) pairs; absent values are left out. */
  function Fields(ps: seq<(string, Option<Value>)>): (r: seq<Member>)
    decreases |ps|
  {
    if ps == [] then []
    else (if ps[0].1.Some? then [Member(ps[0].0, ps[0].1.value)] else []) + Fields(ps[1..])
  }

  predicate DistinctNames(ps: seq<(string, Option<Value>)>) {
    forall i, j :: 0 <= i < j < |ps| ==> ps[i].0 != ps[j].0
  }

  function OptStr(o: Option<string>): Option<Value> {
    if o.Some? then Some(Str(o.value)) else None
  }

  function OptBool(o: Option<bool>): Option<Value> {
    if o.Some? then Some(Bool(o.value)) else None
  }

  function EncodeLabel(l: Label): Value {
    match l
    case Literal(s) => Str(s)
    case I18n(k) => Obj(Fields([("i18n", Some(Bool(true))), ("key", Some(Str(k)))]))
  }

  function EncodeIcon(o: Option<IconKey>): Option<Value> {
    if o.Some? then Some(Str(KeyName(o.value))) else None
  }

  function MenuItemFields(m: MenuItem): seq<(string, Option<Value>)> {
    [("label", Some(EncodeLabel(m.itemLabel))), ("icon", EncodeIcon(m.icon)),
     ("action", Some(Str(m.action))), ("variant", OptStr(m.variant))]
  }

  function EncodeMenuItem(m: MenuItem): Value {
    Obj(Fields(MenuItemFields(m)))
  }

  function EncodeMenuItems(items: seq<MenuItem>): (r: seq<Value>)
    ensures |r| == |items|
    ensures forall j :: 0 <= j < |items| ==> r[j] == EncodeMenuItem(items[j])
  {
    seq(|items|, j requires 0 <= j < |items| => EncodeMenuItem(items[j]))
  }

  function EncodeCell(c: Cell): Value {
    match c
    case BadgeCell => Str("Badge")
    case DropdownMenuCell => Str("DropdownMenu")
    case CustomCell(src) => Func(src)
  }

  function EncodeMenuProperties(p: MenuProperties): Value {
    Obj(Fields([("items", Some(Arr(EncodeMenuItems(p.items))))]))
  }

  function ColumnFields(c: Column): seq<(string, Option<Value>)> {
    [("id", Some(Str(c.id))), ("header", Some(EncodeLabel(c.header))),
     ("accessorKey", OptStr(c.accessorKey)),
     ("cell", if c.cell.Some? then Some(EncodeCell(c.cell.value)) else None),
     ("enableSorting", OptBool(c.enableSorting)),
     ("properties", if c.properties.Some? then Some(EncodeMenuProperties(c.properties.value)) else None)]
  }

  function EncodeColumn(c: Column): Value {
    Obj(Fields(ColumnFields(c)))
  }

  function EncodeColumns(cs: seq<Column>): (r: seq<Value>)
    ensures |r| == |cs|
    ensures forall j :: 0 <= j < |cs| ==> r[j] == EncodeColumn(cs[j])
  {
    seq(|cs|, j requires 0 <= j < |cs| => EncodeColumn(cs[j]))
  }

  function EncodeStrings(xs: seq<string>): (r: seq<Value>)
    ensures |r| == |xs|
    ensures forall j :: 0 <= j < |xs| ==> r[j] == Str(xs[j])
  {
    seq(|xs|, j requires 0 <= j < |xs| => Str(xs[j]))
  }

  function EncodeFields(f: FieldsConfig): Value {
    Obj(Fields([("enabled", Some(Bool(f.enabled))), ("fields", Some(Arr(EncodeStrings(f.fields))))]))
  }

  function EncodePagination(p: PaginationConfig): Value {
    Obj(Fields([("enabled", Some(Bool(p.enabled))), ("pageSize", Some(Num(p.pageSize)))]))
  }

  function TableFields(t: Table): seq<(string, Option<Value>)> {
    [("columns", Some(Arr(EncodeColumns(t.columns)))),
     ("filtering", if t.filtering.Some? then Some(EncodeFields(t.filtering.value)) else None),
     ("sorting", if t.sorting.Some? then Some(EncodeFields(t.sorting.value)) else None),
     ("pagination", if t.pagination.Some? then Some(EncodePagination(t.pagination.value)) else None)]
  }

  function EncodeTable(t: Table): Value {
    Obj(Fields(TableFields(t)))
  }

  // ---------------------------------------------------------------------
  // Properties of the validator.

  /** A name that no pair carries is absent from the property list. */
  lemma {:induction false} FieldsOmit(ps: seq<(string, Option<Value>)>, k: string)
    requires forall i :: 0 <= i < |ps| ==> ps[i].0 != k
    ensures Get(Fields(ps), k) == None
    decreases |ps|
  {
    if ps != [] {
      var head := if ps[0].1.Some? then [Member(ps[0].0, ps[0].1.value)] else [];
      FieldsOmit(ps[1..], k);
      GetAppend(head, Fields(ps[1..]), k);
    }
  }

  /** With distinct names, every pair's value is what a lookup of its name finds. */
  lemma {:induction false} FieldsGet(ps: seq<(string, Option<Value>)>, i: nat)
    requires DistinctNames(ps) && i < |ps|
    ensures Get(Fields(ps), ps[i].0) == ps[i].1
    decreases |ps|
  {
    var head := if ps[0].1.Some? then [Member(ps[0].0, ps[0].1.value)] else [];
    GetAppend(head, Fields(ps[1..]), ps[i].0);
    if i == 0 {
      FieldsOmit(ps[1..], ps[0].0);
    } else {
      FieldsGet(ps[1..], i - 1);
    }
  }

  /** Looking a key up in a concatenation of property lists. */
  lemma {:induction false} GetAppend(a: seq<Member>, b: seq<Member>, k: string)
    ensures Get(a + b, k) == if Get(a, k).Some? then Get(a, k) else Get(b, k)
    decreases |a|
  {
    if a != [] {
      assert (a + b)[0] == a[0];
      assert (a + b)[1..] == a[1..] + b;
      GetAppend(a[1..], b, k);
    } else {
      assert a + b == b;
    }
  }

  lemma LabelRoundTrip(l: Label, path: seq<Segment>)
    ensures ParseLabel(EncodeLabel(l), path) == Success(l)
  {
    if l.I18n? {
      var ps := [("i18n", Some(Bool(true))), ("key", Some(Str(l.key)))];
      FieldsGet(ps, 0);
      FieldsGet(ps, 1);
    }
  }

  /** The properties an encoded menu item carries. */
  lemma MenuItemGets(m: MenuItem)
    ensures Get(EncodeMenuItem(m).members, "label") == Some(EncodeLabel(m.itemLabel))
    ensures Get(EncodeMenuItem(m).members, "icon") == EncodeIcon(m.icon)
    ensures Get(EncodeMenuItem(m).members, "action") == Some(Str(m.action))
    ensures Get(EncodeMenuItem(m).members, "variant") == OptStr(m.variant)
  {
    var ps := MenuItemFields(m);
    assert DistinctNames(ps);
    FieldsGet(ps, 0);
    FieldsGet(ps, 1);
    FieldsGet(ps, 2);
    FieldsGet(ps, 3);
  }

  lemma MenuItemRoundTrip(m: MenuItem, path: seq<Segment>)
    ensures ParseMenuItem(EncodeMenuItem(m), path) == Success(m)
  {
    var ms := EncodeMenuItem(m).members;
    MenuItemGets(m);
    LabelRoundTrip(m.itemLabel, path + [Key("label")]);
    assert LabelField(ms, "label", path) == Success(m.itemLabel);
    if m.icon.Some? {
      KeyNameRoundTrip(m.icon.value);
    }
    assert IconField(ms, path) == Success(m.icon);
    assert RequiredString(ms, "action", path) == Success(m.action);
    assert OptionalString(ms, "variant", path) == Success(m.variant);
  }

  lemma MenuItemsCons(items: seq<Value>, path: seq<Segment>, i: nat, first: MenuItem, rest: seq<MenuItem>)
    requires i < |items|
    requires ParseMenuItem(items[i], path + [Index(i)]) == Success(first)
    requires ParseMenuItems(items, path, i + 1) == Success(rest)
    ensures ParseMenuItems(items, path, i) == Success([first] + rest)
  {
  }

  lemma {:induction false} MenuItemsRoundTrip(items: seq<MenuItem>, path: seq<Segment>, i: nat)
    requires i <= |items|
    ensures ParseMenuItems(EncodeMenuItems(items), path, i) == Success(items[i..])
    decreases |items| - i
  {
    if i < |items| {
      MenuItemRoundTrip(items[i], path + [Index(i)]);
      MenuItemsRoundTrip(items, path, i + 1);
      MenuItemsCons(EncodeMenuItems(items), path, i, items[i], items[i + 1..]);
      SuffixCons(items, i);
    } else {
      assert items[i..] == [];
    }
  }

  lemma MenuPropertiesRoundTrip(p: MenuProperties, path: seq<Segment>)
    ensures ParseMenuProperties(EncodeMenuProperties(p), path) == Success(p)
  {
    FieldsGet([("items", Some(Arr(EncodeMenuItems(p.items))))], 0);
    MenuItemsRoundTrip(p.items, path + [Key("items")], 0);
    assert p.items[0..] == p.items;
  }

  /** The properties an encoded column carries. */
  lemma ColumnGets(c: Column)
    ensures Get(EncodeColumn(c).members, "id") == Some(Str(c.id))
    ensures Get(EncodeColumn(c).members, "header") == Some(EncodeLabel(c.header))
    ensures Get(EncodeColumn(c).members, "accessorKey") == OptStr(c.accessorKey)
    ensures Get(EncodeColumn(c).members, "cell") == if c.cell.Some? then Some(EncodeCell(c.cell.value)) else None
    ensures Get(EncodeColumn(c).members, "enableSorting") == OptBool(c.enableSorting)
    ensures Get(EncodeColumn(c).members, "properties")
      == if c.properties.Some? then Some(EncodeMenuProperties(c.properties.value)) else None
  {
    var ps := ColumnFields(c);
    assert DistinctNames(ps);
    FieldsGet(ps, 0);
    FieldsGet(ps, 1);
    FieldsGet(ps, 2);
    FieldsGet(ps, 3);
    FieldsGet(ps, 4);
    FieldsGet(ps, 5);
  }

  lemma CellRoundTrip(c: Cell, path: seq<Segment>)
    ensures ParseCell(EncodeCell(c), path) == Success(c)
  {
  }

  /** A column object parses once each of its properties does. */
  lemma ColumnOfParts(ms: seq<Member>, path: seq<Segment>, c: Column)
    requires RequiredString(ms, "id", path) == Success(c.id)
    requires LabelField(ms, "header", path) == Success(c.header)
    requires OptionalString(ms, "accessorKey", path) == Success(c.accessorKey)
    requires CellField(ms, path) == Success(c.cell)
    requires OptionalBool(ms, "enableSorting", path) == Success(c.enableSorting)
    requires OptionalMenuProperties(ms, path) == Success(c.properties)
    ensures ParseColumn(Obj(ms), path) == Success(c)
  {
  }

  lemma OptionalStringOf(ms: seq<Member>, k: string, path: seq<Segment>, o: Option<string>)
    requires Get(ms, k) == OptStr(o)
    ensures OptionalString(ms, k, path) == Success(o)
  {
  }

  lemma OptionalBoolOf(ms: seq<Member>, k: string, path: seq<Segment>, o: Option<bool>)
    requires Get(ms, k) == OptBool(o)
    ensures OptionalBool(ms, k, path) == Success(o)
  {
  }

  lemma CellFieldOf(ms: seq<Member>, path: seq<Segment>, c: Option<Cell>)
    requires Get(ms, "cell") == if c.Some? then Some(EncodeCell(c.value)) else None
    ensures CellField(ms, path) == Success(c)
  {
    if c.Some? {
      CellRoundTrip(c.value, path + [Key("cell")]);
    }
  }

  lemma LabelFieldOf(ms: seq<Member>, k: string, path: seq<Segment>, l: Label)
    requires Get(ms, k) == Some(EncodeLabel(l))
    ensures LabelField(ms, k, path) == Success(l)
  {
    LabelRoundTrip(l, path + [Key(k)]);
  }

  lemma MenuPropertiesFieldOf(ms: seq<Member>, path: seq<Segment>, p: Option<MenuProperties>)
    requires Get(ms, "properties") == if p.Some? then Some(EncodeMenuProperties(p.value)) else None
    ensures OptionalMenuProperties(ms, path) == Success(p)
  {
    if p.Some? {
      MenuPropertiesRoundTrip(p.value, path + [Key("properties")]);
    }
  }

  lemma ColumnRoundTrip(c: Column, path: seq<Segment>)
    ensures ParseColumn(EncodeColumn(c), path) == Success(c)
  {
    var ms := EncodeColumn(c).members;
    ColumnGets(c);
    assert RequiredString(ms, "id", path) == Success(c.id);
    LabelFieldOf(ms, "header", path, c.header);
    OptionalStringOf(ms, "accessorKey", path, c.accessorKey);
    CellFieldOf(ms, path, c.cell);
    OptionalBoolOf(ms, "enableSorting", path, c.enableSorting);
    MenuPropertiesFieldOf(ms, path, c.properties);
    ColumnOfParts(ms, path, c);
  }
  lemma ColumnsCons(items: seq<Value>, path: seq<Segment>, i: nat, first: Column, rest: seq<Column>)
    requires i < |items|
    requires ParseColumn(items[i], path + [Index(i)]) == Success(first)
    requires ParseColumns(items, path, i + 1) == Success(rest)
    ensures ParseColumns(items, path, i) == Success([first] + rest)
  {
  }

  lemma {:induction false} ColumnsRoundTrip(cs: seq<Column>, path: seq<Segment>, i: nat)
    requires i <= |cs|
    ensures ParseColumns(EncodeColumns(cs), path, i) == Success(cs[i..])
    decreases |cs| - i
  {
    var items := EncodeColumns(cs);
    if i < |cs| {
      ColumnRoundTrip(cs[i], path + [Index(i)]);
      ColumnsRoundTrip(cs, path, i + 1);
      ColumnsCons(items, path, i, cs[i], cs[i + 1..]);
      SuffixCons(cs, i);
    } else {
      assert cs[i..] == [];
    }
  }

  lemma {:induction false} StringsRoundTrip(xs: seq<string>, path: seq<Segment>, i: nat)
    requires i <= |xs|
    ensures ParseStrings(EncodeStrings(xs), path, i) == Success(xs[i..])
    decreases |xs| - i
  {
    if i < |xs| {
      StringsRoundTrip(xs, path, i + 1);
      assert EncodeStrings(xs)[i] == Str(xs[i]);
      SuffixCons(xs, i);
    } else {
      assert xs[i..] == [];
    }
  }

  lemma FieldsConfigRoundTrip(f: FieldsConfig, path: seq<Segment>)
    ensures ParseFieldsConfig(EncodeFields(f), path) == Success(f)
  {
    var ps := [("enabled", Some(Bool(f.enabled))), ("fields", Some(Arr(EncodeStrings(f.fields))))];
    FieldsGet(ps, 0);
    FieldsGet(ps, 1);
    StringsRoundTrip(f.fields, path + [Key("fields")], 0);
    assert f.fields[0..] == f.fields;
  }

  lemma PaginationRoundTrip(p: PaginationConfig, path: seq<Segment>)
    ensures ParsePaginationConfig(EncodePagination(p), path) == Success(p)
  {
    var ps := [("enabled", Some(Bool(p.enabled))), ("pageSize", Some(Num(p.pageSize)))];
    FieldsGet(ps, 0);
    FieldsGet(ps, 1);
  }

  /** The properties an encoded configuration carries. */
  lemma TableGets(t: Table)
    ensures Get(EncodeTable(t).members, "columns") == Some(Arr(EncodeColumns(t.columns)))
    ensures Get(EncodeTable(t).members, "filtering")
      == if t.filtering.Some? then Some(EncodeFields(t.filtering.value)) else None
    ensures Get(EncodeTable(t).members, "sorting")
      == if t.sorting.Some? then Some(EncodeFields(t.sorting.value)) else None
    ensures Get(EncodeTable(t).members, "pagination")
      == if t.pagination.Some? then Some(EncodePagination(t.pagination.value)) else None
  {
    var ps := TableFields(t);
    assert DistinctNames(ps);
    FieldsGet(ps, 0);
    FieldsGet(ps, 1);
    FieldsGet(ps, 2);
    FieldsGet(ps, 3);
  }

  lemma TableOfParts(ms: seq<Member>, t: Table)
    requires ColumnsField(ms) == Success(t.columns)
    requires OptionalFields(ms, "filtering") == Success(t.filtering)
    requires OptionalFields(ms, "sorting") == Success(t.sorting)
    requires OptionalPagination(ms) == Success(t.pagination)
    ensures ValidateTableConfig(Obj(ms)) == Success(t)
  {
  }

  lemma OptionalFieldsOf(ms: seq<Member>, k: string, f: Option<FieldsConfig>)
    requires Get(ms, k) == if f.Some? then Some(EncodeFields(f.value)) else None
    ensures OptionalFields(ms, k) == Success(f)
  {
    if f.Some? {
      FieldsConfigRoundTrip(f.value, [Key(k)]);
    }
  }

  /** Every typed configuration is accepted back exactly as it was written. */
  lemma TableRoundTrip(t: Table)
    ensures ValidateTableConfig(EncodeTable(t)) == Success(t)
  {
    var ms := EncodeTable(t).members;
    TableGets(t);
    ColumnsRoundTrip(t.columns, [Key("columns")], 0);
    assert t.columns[0..] == t.columns;
    assert ColumnsField(ms) == Success(t.columns);
    OptionalFieldsOf(ms, "filtering", t.filtering);
    OptionalFieldsOf(ms, "sorting", t.sorting);
    if t.pagination.Some? {
      PaginationRoundTrip(t.pagination.value, [Key("pagination")]);
    }
    assert OptionalPagination(ms) == Success(t.pagination);
    TableOfParts(ms, t);
  }

  // ---------------------------------------------------------------------
  // What is rejected, and what is not checked.

  /** The i18n form needs `i18n` to be exactly `true`: with `false` the
      header is neither a string nor the i18n object. */
  lemma I18nFalseRejected(key: string, path: seq<Segment>)
    ensures ParseLabel(Obj([Member("i18n", Bool(false)), Member("key", Str(key))]), path)
         == Failure(Issue(path, InvalidUnion))
  {
    assert Get([Member("i18n", Bool(false)), Member("key", Str(key))], "i18n") == Some(Bool(false));
  }

  /** Icon names are compared case-sensitively: a menu item whose label is
      valid but whose icon is `Pencil` fails on its icon. */
  lemma CapitalisedIconRejected(ms: seq<Member>, path: seq<Segment>)
    requires Get(ms, "label").Some? && IsLabel(Get(ms, "label").value)
    requires Get(ms, "icon") == Some(Str("Pencil"))
    ensures ParseMenuItem(Obj(ms), path) == Failure(Issue(path + [Key("icon")], InvalidEnumValue))
  {
    assert KeyOf("Pencil").None?;
  }

  /** When column `j` is the first column to fail, the columns fail with
      exactly that column's issue. */
  lemma {:induction false} FirstBadColumnDecides(items: seq<Value>, path: seq<Segment>, i: nat, j: nat)
    requires i <= j < |items| && !IsColumn(items[j])
    requires forall k :: i <= k < j ==> IsColumn(items[k])
    ensures ParseColumns(items, path, i) == Failure(ParseColumn(items[j], path + [Index(j)]).error)
    decreases j - i
  {
    if i < j {
      FirstBadColumnDecides(items, path, i + 1, j);
    }
  }

  /** One bad column rejects the whole configuration, with the issue of the
      first bad column. */
  lemma BadColumnRejectsConfig(v: Value, j: nat)
    requires v.Obj? && Get(v.members, "columns").Some? && Get(v.members, "columns").value.Arr?
    requires var items := Get(v.members, "columns").value.items;
      j < |items| && !IsColumn(items[j]) && forall k :: 0 <= k < j ==> IsColumn(items[k])
    ensures var items := Get(v.members, "columns").value.items;
      ValidateTableConfig(v) == Failure(ParseColumn(items[j], [Key("columns"), Index(j)]).error)
  {
    var items := Get(v.members, "columns").value.items;
    FirstBadColumnDecides(items, [Key("columns")], 0, j);
    assert [Key("columns")] + [Index(j)] == [Key("columns"), Index(j)];
    assert ColumnsField(v.members) == ParseColumns(items, [Key("columns")], 0);
  }

  /** A configuration with one column and nothing else is read as the
      table of that column's parse at `columns[0]`. */
  lemma SingleColumnConfig(v: Value)
    ensures var config := ValidateTableConfig(Obj([Member("columns", Arr([v]))]));
      var column := ParseColumn(v, [Key("columns"), Index(0)]);
      && (column.Failure? ==> config == Failure(column.error))
      && (column.Success? ==> config == Success(Table([column.value], None, None, None)))
  {
    var ms := [Member("columns", Arr([v]))];
    assert Get(ms, "columns") == Some(Arr([v]));
    assert Get(ms, "filtering").None? && Get(ms, "sorting").None? && Get(ms, "pagination").None?;
    assert [Key("columns")] + [Index(0)] == [Key("columns"), Index(0)];
    assert ParseColumns([v], [Key("columns")], 1) == Success([]);
    var column := ParseColumn(v, [Key("columns"), Index(0)]);
    if column.Success? {
      assert ParseColumns([v], [Key("columns")], 0) == Success([column.value] + []);
      assert [column.value] + [] == [column.value];
      assert ColumnsField(ms) == Success([column.value]);
    }
  }

  /** `validateTableColumn` accepts exactly what a configuration accepts as
      its only column, and reads the same column from it. */
  lemma ColumnAloneIsConfigColumn(v: Value)
    ensures var config := ValidateTableConfig(Obj([Member("columns", Arr([v]))]));
      && (ValidateTableColumn(v).Success? <==> config.Success?)
      && (config.Success? ==> config.value == Table([ValidateTableColumn(v).value], None, None, None))
  {
    SingleColumnConfig(v);
    if ValidateTableColumn(v).Success? {
      ColumnReadIndependentOfPath(v, [], [Key("columns"), Index(0)]);
    }
  }

  /** Where a menu item sits only changes where its issue is reported,
      never what is read from it. */
  lemma MenuItemReadIndependentOfPath(v: Value, p: seq<Segment>, q: seq<Segment>)
    requires ParseMenuItem(v, p).Success?
    ensures ParseMenuItem(v, q) == ParseMenuItem(v, p)
  {
    var ms := v.members;
    assert LabelField(ms, "label", q).value == LabelField(ms, "label", p).value;
    assert IconField(ms, q) == IconField(ms, p);
    assert RequiredString(ms, "action", q) == RequiredString(ms, "action", p);
    assert OptionalString(ms, "variant", q) == OptionalString(ms, "variant", p);
  }

  lemma {:induction false} MenuItemsReadIndependentOfPath(items: seq<Value>, p: seq<Segment>, q: seq<Segment>, i: nat)
    requires i <= |items| && ParseMenuItems(items, p, i).Success?
    ensures ParseMenuItems(items, q, i) == ParseMenuItems(items, p, i)
    decreases |items| - i
  {
    if i < |items| {
      MenuItemReadIndependentOfPath(items[i], p + [Index(i)], q + [Index(i)]);
      MenuItemsReadIndependentOfPath(items, p, q, i + 1);
    }
  }

  lemma MenuPropertiesReadIndependentOfPath(ms: seq<Member>, p: seq<Segment>, q: seq<Segment>)
    requires OptionalMenuProperties(ms, p).Success?
    ensures OptionalMenuProperties(ms, q) == OptionalMenuProperties(ms, p)
  {
    if Get(ms, "properties").Some? {
      var items := Get(Get(ms, "properties").value.members, "items").value.items;
      MenuItemsReadIndependentOfPath(items, p + [Key("properties"), Key("items")], q + [Key("properties"), Key("items")], 0);
      assert p + [Key("properties")] + [Key("items")] == p + [Key("properties"), Key("items")];
      assert q + [Key("properties")] + [Key("items")] == q + [Key("properties"), Key("items")];
    }
  }

  /** Where a column sits only changes where its issue is reported, never
      what is read from it. */
  lemma ColumnReadIndependentOfPath(v: Value, p: seq<Segment>, q: seq<Segment>)
    requires ParseColumn(v, p).Success?
    ensures ParseColumn(v, q) == ParseColumn(v, p)
  {
    var ms := v.members;
    assert RequiredString(ms, "id", q) == RequiredString(ms, "id", p);
    assert LabelField(ms, "header", q).value == LabelField(ms, "header", p).value;
    assert OptionalString(ms, "accessorKey", q) == OptionalString(ms, "accessorKey", p);
    assert CellField(ms, q) == CellField(ms, p);
    assert OptionalBool(ms, "enableSorting", q) == OptionalBool(ms, "enableSorting", p);
    MenuPropertiesReadIndependentOfPath(ms, p, q);
  }

  /** Nothing relates the parts of a configuration to each other: two
      columns with the same id, sorting on a field no column declares and a
      negative page size are all accepted. */
  lemma NoCrossChecks()
    ensures var c := Column("id", Literal("Id"), None, None, None, None);
      var t := Table([c, c], None, Some(FieldsConfig(true, ["nowhere"])), Some(PaginationConfig(true, -5)));
      ValidateTableConfig(EncodeTable(t)) == Success(t)
  {
    var c := Column("id", Literal("Id"), None, None, None, None);
    TableRoundTrip(Table([c, c], None, Some(FieldsConfig(true, ["nowhere"])), Some(PaginationConfig(true, -5))));
  }
}
