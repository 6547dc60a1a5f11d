/** The hand-written column plan of the customers table: four columns, a
    status badge whose variant singles out exactly the status `active`, and
    an actions menu with an edit entry followed by a delete entry.  Only the
    column decisions are modelled; the surrounding markup is not. */
module CustomersPage {
  import opened Wrappers
  import opened Icons
  import opened Json
  import opened TableSchema

  /** A row of the table.  `status` is declared as `'active' | 'inactive'`,
      but the cell only casts what `row.getValue('status')` returns, so it
      may be any value or missing (`None`, the `undefined` of a row without
      the field). */
  datatype Customer = Customer(id: string, name: string, email: string, status: Option<Value>)

  datatype BadgeVariant = DefaultVariant | SecondaryVariant

  /** A rendered badge: its variant and the value placed inside it. */
  datatype Badge = Badge(variant: BadgeVariant, content: Option<Value>)

  /** An entry of the actions menu: the icon drawn before it and its label. */
  datatype MenuEntry = MenuEntry(icon: IconKey, caption: string)

  /** What activating a menu entry logs: the entry's tag and the row. */
  datatype Activation = Activation(tag: string, row: Customer)

  /** What a column's own cell renderer produces for a row. */
  datatype Rendered =
    | BadgeOut(badge: Badge)
    | MenuOut(trigger: IconKey, entries: seq<MenuEntry>)

  const EditEntry: MenuEntry := MenuEntry(Pencil, "Edit")
  const DeleteEntry: MenuEntry := MenuEntry(Trash, "Delete")

  /** The `columns` array, in order.  The status and actions columns carry
      cell functions; the other two leave rendering to the table. */
  function ColumnPlan(): (cols: seq<Column>)
    ensures |cols| == 4
    ensures cols[0].id == "name" && cols[1].id == "email" && cols[2].id == "status" && cols[3].id == "actions"
    ensures forall i :: 0 <= i < |cols| ==> (cols[i].enableSorting.Some? <==> cols[i].id == "name")
    ensures cols[0].enableSorting == Some(true)
    ensures cols[3].header == Literal("") && cols[3].accessorKey.None?
    ensures forall i :: 0 <= i < 3 ==> cols[i].accessorKey == Some(cols[i].id)
    ensures forall i :: 0 <= i < |cols| ==> cols[i].properties.None?
  {
    [ Column("name", Literal("Name"), Some("name"), None, Some(true), None),
      Column("email", Literal("Email"), Some("email"), None, None, None),
      Column("status", Literal("Status"), Some("status"), Some(CustomCell("status badge")), None, None),
      Column("actions", Literal(""), None, Some(CustomCell("actions menu")), None, None) ]
  }

  /** The status cell: `===` singles out the string `active` for the
      default variant; every other value, a missing or `null` status
      included, gets the secondary one.  The status goes into the badge as
      it is. */
  function StatusBadge(row: Customer): (b: Badge)
    ensures b.content == row.status
    ensures b.variant == DefaultVariant <==> row.status == Some(Str("active"))
  {
    Badge(if row.status == Some(Str("active")) then DefaultVariant else SecondaryVariant, row.status)
  }

  /** The actions cell: a trigger showing the up-down chevrons, then the edit
      entry and the delete entry, whatever the row. */
  function ActionsMenu(row: Customer): (r: Rendered)
    ensures r.MenuOut? && r.trigger == ChevronsUpDown
    ensures r.entries == [EditEntry, DeleteEntry]
  {
    MenuOut(ChevronsUpDown, [EditEntry, DeleteEntry])
  }

  /** Activating an entry logs its label as the tag together with the row
      object as it was given. */
  function Activate(e: MenuEntry, row: Customer): (a: Activation)
    ensures a.tag == e.caption && a.row == row
  {
    Activation(e.caption, row)
  }

  /** The cell function of the column with the given id, applied to a row;
      `None` where the column has no cell function of its own. */
  function CellOf(columnId: string, row: Customer): (r: Option<Rendered>)
    ensures r.Some? <==> columnId == "status" || columnId == "actions"
    ensures columnId == "status" ==> r == Some(BadgeOut(StatusBadge(row)))
    ensures columnId == "actions" ==> r == Some(MenuOut(ChevronsUpDown, [EditEntry, DeleteEntry]))
  {
    if columnId == "status" then Some(BadgeOut(StatusBadge(row)))
    else if columnId == "actions" then Some(ActionsMenu(row))
    else None
  }

  /** Exactly the columns that declare a cell function have one. */
  lemma CellFunctionsMatchPlan(row: Customer)
    ensures forall i :: 0 <= i < |ColumnPlan()| ==>
      (CellOf(ColumnPlan()[i].id, row).Some? <==> ColumnPlan()[i].cell.Some?)
  {
    var cols := ColumnPlan();
    forall i | 0 <= i < |cols|
      ensures CellOf(cols[i].id, row).Some? <==> cols[i].cell.Some?
    {
      assert i == 0 || i == 1 || i == 2 || i == 3;
    }
  }

  /** Only one status value earns the default variant, and the comparison is
      strict and case-sensitive: `Active`, a missing status and `null` are
      all shown as secondary. */
  lemma DefaultVariantIsExactMatch(a: Customer, b: Customer)
    requires StatusBadge(a).variant == DefaultVariant && StatusBadge(b).variant == DefaultVariant
    ensures a.status == b.status == Some(Str("active"))
    ensures StatusBadge(a.(status := Some(Str("Active")))).variant == SecondaryVariant
    ensures StatusBadge(a.(status := None)).variant == SecondaryVariant
    ensures StatusBadge(a.(status := Some(Null))).variant == SecondaryVariant
  {
  }

  /** The two entries log different tags, so a log line tells which entry
      was activated, and both hand on the same row unchanged. */
  lemma ActivationsTellEntriesApart(row: Customer)
    ensures var entries := ActionsMenu(row).entries;
      && Activate(entries[0], row) == Activation("Edit", row)
      && Activate(entries[1], row) == Activation("Delete", row)
      && Activate(entries[0], row).tag != Activate(entries[1], row).tag
  {
  }

  /** The icons the page draws are keys of the icon table under their exact
      names. */
  lemma MenuIconsAreIconKeys()
    ensures KeyOf("pencil") == Some(EditEntry.icon)
    ensures KeyOf("trash") == Some(DeleteEntry.icon)
    ensures KeyOf("chevronsUpDown") == Some(ActionsMenu(Customer("", "", "", None)).trigger)
  {
  }

  /** Every column of the plan is a column the table-configuration validator
      accepts, read back exactly as written. */
  lemma ColumnPlanValidates()
    ensures forall i :: 0 <= i < |ColumnPlan()| ==>
      ValidateTableColumn(EncodeColumn(ColumnPlan()[i])) == Success(ColumnPlan()[i])
  {
    var cols := ColumnPlan();
    forall i | 0 <= i < |cols|
      ensures ValidateTableColumn(EncodeColumn(cols[i])) == Success(cols[i])
    {
      ColumnRoundTrip(cols[i], []);
    }
  }
}
