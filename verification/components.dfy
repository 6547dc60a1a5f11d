/** The built-in catalogue: the eleven component types registered at start-up,
    with their property contracts and install dependencies, and the icon
    component's name lookup. */
module Catalogue {
  import opened Wrappers
  import opened Text
  import opened OrderedSet
  import opened Types
  import opened Icons
  import opened Registry
  import opened Seqs

  /** One `registry.register(name, component, schema)` call. */
  datatype Registration = Registration(name: string, component: Handle, schema: ComponentSchema)

  function Prop(t: PropType, required: bool): PropertySchema {
    PropertySchema(t, Some(required), None, None)
  }

  function Schema(typeName: string, properties: map<string, PropertySchema>, deps: Option<seq<string>>): ComponentSchema {
    ComponentSchema(typeName, properties, None, None, deps)
  }

  /** `className` optional, `children` required of the given kind. */
  function Container(typeName: string, childKind: PropType, deps: Option<seq<string>>): ComponentSchema {
    Schema(typeName, map["className" := Prop(StringType, false), "children" := Prop(childKind, true)], deps)
  }

  const DataTableDeps: seq<string> := ["table", "button", "input", "dropdown-menu", "badge"]

  const Registrations: seq<Registration> := [
    Registration("DataTable", Handle("DataTable"),
      Schema("DataTable", map["config" := Prop(ObjectType, true), "data" := Prop(ArrayType, true)], Some(DataTableDeps))),
    Registration("Card", Handle("Card"), Container("Card", ArrayType, Some(["card"]))),
    Registration("CardHeader", Handle("CardHeader"), Container("CardHeader", ArrayType, None)),
    Registration("CardTitle", Handle("CardTitle"), Container("CardTitle", StringType, None)),
    Registration("CardDescription", Handle("CardDescription"), Container("CardDescription", StringType, None)),
    Registration("CardContent", Handle("CardContent"), Container("CardContent", ArrayType, None)),
    Registration("Button", Handle("Button"),
      Schema("Button", map["variant" := Prop(StringType, false), "size" := Prop(StringType, false),
                           "children" := Prop(ArrayType, true)], Some(["button"]))),
    Registration("Link", Handle("Link"),
      Schema("Link", map["href" := Prop(StringType, true), "children" := Prop(ArrayType, true)], None)),
    Registration("Icon", Handle("IconComponent"),
      Schema("Icon", map["name" := Prop(StringType, true), "className" := Prop(StringType, false)], None)),
    Registration("div", Handle("Div"), Container("div", ArrayType, None)),
    Registration("p", Handle("Paragraph"), Container("p", StringType, None))
  ]

  function Names(regs: seq<Registration>): (ns: seq<string>)
    ensures |ns| == |regs|
    ensures forall i :: 0 <= i < |regs| ==> ns[i] == regs[i].name
  {
    seq(|regs|, i requires 0 <= i < |regs| => regs[i].name)
  }

  /** Performs the registrations in order. */
  function Load(r: Registry, regs: seq<Registration>): Registry
    decreases |regs|
  {
    if regs == [] then r
    else Load(Register(r, regs[0].name, regs[0].component, regs[0].schema).registry, regs[1..])
  }

  function ItemOf(reg: Registration): ComponentRegistryItem {
    ComponentRegistryItem(reg.name, reg.component, reg.schema)
  }

  /** Splitting off the first registration keeps the names distinct and
      the first name out of the rest. */
  lemma NamesSplit(regs: seq<Registration>)
    requires regs != [] && NoDup(Names(regs))
    ensures Names(regs[1..]) == Names(regs)[1..]
    ensures NoDup(Names(regs[1..]))
    ensures regs[0].name !in Names(regs[1..])
    ensures forall n :: n in Names(regs) <==> n == regs[0].name || n in Names(regs[1..])
  {
    var tail := regs[1..];
    assert Names(tail) == Names(regs)[1..];
    assert Names(regs) == [regs[0].name] + Names(tail);
  }

  /** Fresh names for a whole list of registrations. */
  predicate AllFresh(r: Registry, regs: seq<Registration>) {
    forall i :: 0 <= i < |regs| ==> Get(r, regs[i].name).None?
  }

  /** One step of loading distinct fresh names: the first registration is
      filed and appended, and the rest stay distinct and fresh. */
  lemma LoadStep(r: Registry, regs: seq<Registration>)
    requires regs != [] && NoDup(Names(regs)) && AllFresh(r, regs)
    ensures var r1 := Register(r, regs[0].name, regs[0].component, regs[0].schema).registry;
      && Load(r, regs) == Load(r1, regs[1..])
      && NoDup(Names(regs[1..]))
      && AllFresh(r1, regs[1..])
      && r1.order == r.order + [regs[0].name]
      && Get(r1, regs[0].name) == Some(ItemOf(regs[0]))
      && regs[0].name !in Names(regs[1..])
      && Names(regs) == [regs[0].name] + Names(regs[1..])
  {
    NamesSplit(regs);
    var tail := regs[1..];
    assert Names(regs) == [regs[0].name] + Names(tail);
    forall i | 0 <= i < |tail| ensures tail[i].name != regs[0].name && Get(r, tail[i].name).None? {
      assert tail[i] == regs[i + 1];
      assert Names(tail)[i] == tail[i].name;
    }
  }

  /** Registering distinct fresh names files each registration under its name
      and touches no other name. */
  lemma {:induction false} LoadFresh(r: Registry, regs: seq<Registration>)
    requires NoDup(Names(regs)) && AllFresh(r, regs)
    ensures forall i :: 0 <= i < |regs| ==> Get(Load(r, regs), regs[i].name) == Some(ItemOf(regs[i]))
    ensures forall n :: n !in Names(regs) ==> Get(Load(r, regs), n) == Get(r, n)
    decreases |regs|
  {
    if regs != [] {
      var r1 := Register(r, regs[0].name, regs[0].component, regs[0].schema).registry;
      var tail := regs[1..];
      LoadStep(r, regs);
      LoadFresh(r1, tail);
      var result := Load(r1, tail);
      forall i | 0 <= i < |regs| ensures Get(result, regs[i].name) == Some(ItemOf(regs[i])) {
        if i > 0 {
          assert regs[i] == tail[i - 1];
        }
      }
    }
  }

  /** ... and `getAll` then lists the new names after the old ones, in call
      order. */
  lemma {:induction false} LoadFreshOrder(r: Registry, regs: seq<Registration>)
    requires NoDup(Names(regs)) && AllFresh(r, regs)
    ensures Load(r, regs).order == r.order + Names(regs)
    decreases |regs|
  {
    if regs != [] {
      var r1 := Register(r, regs[0].name, regs[0].component, regs[0].schema).registry;
      LoadStep(r, regs);
      LoadFreshOrder(r1, regs[1..]);
      AppendAssoc(r.order, [regs[0].name], Names(regs[1..]));
    }
  }

  /** The registry as it stands after the catalogue has been loaded. */
  function Catalogue(): Registry {
    Load(Empty, Registrations)
  }

  const CatalogueNames: seq<string> := ["DataTable", "Card", "CardHeader", "CardTitle", "CardDescription",
    "CardContent", "Button", "Link", "Icon", "div", "p"]

  lemma RegistrationNamesDistinct()
    ensures Names(Registrations) == CatalogueNames
    ensures NoDup(CatalogueNames)
  {
    assert Names(Registrations) == CatalogueNames;
  }

  /** Each registration of the catalogue is what `get` returns for its name,
      and `getAll` lists the eleven names in registration order. */
  lemma CatalogueLookup()
    ensures HoldsRegistrations(Catalogue())
    ensures Catalogue().order == CatalogueNames
    ensures |GetAll(Catalogue())| == 11
  {
    RegistrationNamesDistinct();
    LoadFresh(Empty, Registrations);
    LoadFreshOrder(Empty, Registrations);
  }

  /** The loaded catalogue, described entry by entry. */
  ghost predicate HoldsRegistrations(c: Registry) {
    forall i :: 0 <= i < |Registrations| ==> Get(c, Registrations[i].name) == Some(ItemOf(Registrations[i]))
  }

  /** Every entry of the loaded catalogue is filed under its schema's own
      type name. */
  lemma CatalogueTypesMatchNames()
    ensures forall e :: e in GetAll(Catalogue()) ==> e.schema.typeName == e.name
  {
    CatalogueLookup();
    TypesMatchNames(Catalogue());
  }

  lemma RegistrationTypesMatchNames()
    ensures forall i :: 0 <= i < |Registrations| ==> Registrations[i].schema.typeName == Registrations[i].name
  {
  }

  lemma TypesMatchNames(c: Registry)
    requires HoldsRegistrations(c)
    requires c.order == CatalogueNames
    ensures forall e :: e in GetAll(c) ==> e.schema.typeName == e.name
  {
    RegistrationNamesDistinct();
    RegistrationTypesMatchNames();
    var all := GetAll(c);
    forall i | 0 <= i < |all| ensures all[i].schema.typeName == all[i].name {
      assert all[i].name == Names(Registrations)[i] == Registrations[i].name;
      assert Get(c, Registrations[i].name) == Some(ItemOf(Registrations[i]));
    }
  }

  /** The dependency lists the catalogue declares. */
  lemma CatalogueDependencies()
    ensures Get(Catalogue(), "DataTable").Some?
      && Get(Catalogue(), "DataTable").value.schema.dependencies == Some(["table", "button", "input", "dropdown-menu", "badge"])
    ensures Get(Catalogue(), "Card").Some? && Get(Catalogue(), "Card").value.schema.dependencies == Some(["card"])
    ensures Get(Catalogue(), "Button").Some? && Get(Catalogue(), "Button").value.schema.dependencies == Some(["button"])
    ensures forall n :: n in ["CardHeader", "CardTitle", "CardDescription", "CardContent", "Link", "Icon", "div", "p"] ==>
      Get(Catalogue(), n).Some? && Get(Catalogue(), n).value.schema.dependencies.None?
  {
    CatalogueLookup();
    DependenciesOf(Catalogue());
  }

  lemma DependenciesOf(c: Registry)
    requires HoldsRegistrations(c)
    ensures Get(c, "DataTable").Some?
      && Get(c, "DataTable").value.schema.dependencies == Some(["table", "button", "input", "dropdown-menu", "badge"])
    ensures Get(c, "Card").Some? && Get(c, "Card").value.schema.dependencies == Some(["card"])
    ensures Get(c, "Button").Some? && Get(c, "Button").value.schema.dependencies == Some(["button"])
    ensures forall n :: n in ["CardHeader", "CardTitle", "CardDescription", "CardContent", "Link", "Icon", "div", "p"] ==>
      Get(c, n).Some? && Get(c, n).value.schema.dependencies.None?
  {
    assert Get(c, "DataTable") == Some(ItemOf(Registrations[0]));
    assert Get(c, "Card") == Some(ItemOf(Registrations[1]));
    assert Get(c, "Button") == Some(ItemOf(Registrations[6]));
    NoDependenciesOf(c);
  }

  lemma NoDependenciesOf(c: Registry)
    requires HoldsRegistrations(c)
    ensures forall n :: n in ["CardHeader", "CardTitle", "CardDescription", "CardContent", "Link", "Icon", "div", "p"] ==>
      Get(c, n).Some? && Get(c, n).value.schema.dependencies.None?
  {
    CardPartsHaveNoDependencies(c);
    OthersHaveNoDependencies(c);
  }

  lemma CardPartsHaveNoDependencies(c: Registry)
    requires HoldsRegistrations(c)
    ensures Get(c, "CardHeader").Some? && Get(c, "CardHeader").value.schema.dependencies.None?
    ensures Get(c, "CardTitle").Some? && Get(c, "CardTitle").value.schema.dependencies.None?
    ensures Get(c, "CardDescription").Some? && Get(c, "CardDescription").value.schema.dependencies.None?
    ensures Get(c, "CardContent").Some? && Get(c, "CardContent").value.schema.dependencies.None?
  {
    assert Get(c, Registrations[2].name) == Some(ItemOf(Registrations[2]));
    assert Get(c, Registrations[3].name) == Some(ItemOf(Registrations[3]));
    assert Get(c, Registrations[4].name) == Some(ItemOf(Registrations[4]));
    assert Get(c, Registrations[5].name) == Some(ItemOf(Registrations[5]));
  }

  lemma OthersHaveNoDependencies(c: Registry)
    requires HoldsRegistrations(c)
    ensures Get(c, "Link").Some? && Get(c, "Link").value.schema.dependencies.None?
    ensures Get(c, "Icon").Some? && Get(c, "Icon").value.schema.dependencies.None?
    ensures Get(c, "div").Some? && Get(c, "div").value.schema.dependencies.None?
    ensures Get(c, "p").Some? && Get(c, "p").value.schema.dependencies.None?
  {
    assert Get(c, Registrations[7].name) == Some(ItemOf(Registrations[7]));
    assert Get(c, Registrations[8].name) == Some(ItemOf(Registrations[8]));
    assert Get(c, Registrations[9].name) == Some(ItemOf(Registrations[9]));
    assert Get(c, Registrations[10].name) == Some(ItemOf(Registrations[10]));
  }

  /** The required properties the catalogue declares. */
  lemma CatalogueRequiredProperties()
    ensures Get(Catalogue(), "DataTable").Some? && Get(Catalogue(), "Link").Some?
    ensures IsRequired(Get(Catalogue(), "DataTable").value.schema, "config")
    ensures IsRequired(Get(Catalogue(), "DataTable").value.schema, "data")
    ensures IsRequired(Get(Catalogue(), "Link").value.schema, "href")
    ensures !IsRequired(Get(Catalogue(), "Link").value.schema, "className")
  {
    CatalogueLookup();
    RequiredOf(Catalogue());
  }

  lemma RequiredOf(c: Registry)
    requires HoldsRegistrations(c)
    ensures Get(c, "DataTable").Some? && Get(c, "Link").Some?
    ensures IsRequired(Get(c, "DataTable").value.schema, "config")
    ensures IsRequired(Get(c, "DataTable").value.schema, "data")
    ensures IsRequired(Get(c, "Link").value.schema, "href")
    ensures !IsRequired(Get(c, "Link").value.schema, "className")
  {
    assert Get(c, "DataTable") == Some(ItemOf(Registrations[0]));
    assert Get(c, "Link") == Some(ItemOf(Registrations[7]));
  }

  /** What the icon component does with a name: draw one of the icons,
      render nothing, or hand React a value that is not a component. */
  datatype IconOutcome =
    | Draws(key: IconKey)
    | DrawsNothing
    | RenderFault(inherited: string)

  /** The lower-case property names every object literal inherits from
      `Object.prototype`; `Icons[...]` finds them although they are not
      icons, and both values are truthy.  The other inherited names all hold
      a capital letter, so a lower-cased name cannot reach them. */
  const InheritedNames: set<string> := {"constructor", "__proto__"}

  /** The icon component's lookup, `Icons[name.toLowerCase()]`: an own key
      is drawn, an inherited property passes the `!Icon` test and then fails
      to render, and any other miss renders nothing. */
  function IconComponent(name: string): (r: IconOutcome)
    ensures r.Draws? ==> KeyName(r.key) == ToLower(name)
    ensures r.RenderFault? <==> ToLower(name) in InheritedNames
    ensures r.RenderFault? ==> r.inherited == ToLower(name)
    ensures r.DrawsNothing? <==>
      (forall k :: KeyName(k) != ToLower(name)) && ToLower(name) !in InheritedNames
  {
    var low := ToLower(name);
    match KeyOf(low)
    case Some(k) => Draws(k)
    case None => if low in InheritedNames then RenderFault(low) else DrawsNothing
  }

  /** The camel-case keys can never be found: a lower-cased name has no
      capital letter, and each of these keys has one. */
  lemma CamelCaseIconsUnreachable(name: string)
    ensures IconComponent(name) != Draws(ChevronDown)
    ensures IconComponent(name) != Draws(ChevronUp)
    ensures IconComponent(name) != Draws(ChevronsUpDown)
  {
    var low := ToLower(name);
    assert forall i :: 0 <= i < |low| ==> !IsUpper(low[i]);
    assert IsUpper(KeyName(ChevronDown)[7]);
    assert IsUpper(KeyName(ChevronUp)[7]);
    assert IsUpper(KeyName(ChevronsUpDown)[8]);
  }

  /** The lower-case keys are found whatever the case of the name. */
  lemma IconComponentIgnoresCase()
    ensures IconComponent("pencil") == Draws(Pencil)
    ensures IconComponent("Pencil") == Draws(Pencil)
    ensures IconComponent("TRASH") == Draws(Trash)
    ensures IconComponent("chevronDown") == DrawsNothing
  {
    assert ToLower("Pencil") == "pencil";
    assert ToLower("pencil") == "pencil";
    assert ToLower("TRASH") == "trash";
    assert ToLower("chevronDown") == "chevrondown";
  }

  /** `Constructor`, in any case, and `__proto__` reach inherited members of
      the icon table and so fail at render instead of rendering nothing. */
  lemma InheritedNamesFailToRender()
    ensures IconComponent("Constructor") == RenderFault("constructor")
    ensures IconComponent("CONSTRUCTOR") == RenderFault("constructor")
    ensures IconComponent("__proto__") == RenderFault("__proto__")
    ensures IconComponent("toString") == DrawsNothing
  {
    assert ToLower("Constructor") == "constructor";
    assert ToLower("CONSTRUCTOR") == "constructor";
    assert ToLower("__proto__") == "__proto__";
    assert ToLower("toString") == "tostring";
  }

  const AllIconKeys: seq<IconKey> := [Pencil, Trash, ChevronDown, ChevronUp, ChevronsUpDown, Plus, X, Check]

  /** Case-insensitive icon lookup: the first key whose lower-cased name
      equals the lower-cased `name`. */
  function IconLookup(name: string): (r: Option<IconKey>)
    ensures r.Some? ==> ToLower(KeyName(r.value)) == ToLower(name)
    ensures r.None? ==> forall k :: ToLower(KeyName(k)) != ToLower(name)
  {
    IconLookupFrom(name, 0)
  }

  function IconLookupFrom(name: string, i: nat): (r: Option<IconKey>)
    requires i <= |AllIconKeys|
    ensures r.Some? ==> ToLower(KeyName(r.value)) == ToLower(name)
    ensures r.None? ==> forall j :: i <= j < |AllIconKeys| ==> ToLower(KeyName(AllIconKeys[j])) != ToLower(name)
    decreases |AllIconKeys| - i
  {
    if i == |AllIconKeys| then None
    else if ToLower(KeyName(AllIconKeys[i])) == ToLower(name) then Some(AllIconKeys[i])
    else IconLookupFrom(name, i + 1)
  }

  /** The lower-cased names of the icon table, in table order. */
  lemma LoweredKeyNames()
    ensures ToLower(KeyName(Pencil)) == "pencil"
    ensures ToLower(KeyName(Trash)) == "trash"
    ensures ToLower(KeyName(ChevronDown)) == "chevrondown"
    ensures ToLower(KeyName(ChevronUp)) == "chevronup"
    ensures ToLower(KeyName(ChevronsUpDown)) == "chevronsupdown"
    ensures ToLower(KeyName(Plus)) == "plus"
    ensures ToLower(KeyName(X)) == "x"
    ensures ToLower(KeyName(Check)) == "check"
  {
  }

  /** Every key is reachable by its own exported name, camel-case included. */
  lemma IconLookupReachesEveryKey(k: IconKey)
    ensures IconLookup(KeyName(k)) == Some(k)
  {
    LoweredKeyNames();
    assert AllIconKeys[0] == Pencil && AllIconKeys[1] == Trash && AllIconKeys[2] == ChevronDown;
    assert AllIconKeys[3] == ChevronUp && AllIconKeys[4] == ChevronsUpDown && AllIconKeys[5] == Plus;
    assert AllIconKeys[6] == X && AllIconKeys[7] == Check;
  }
}
