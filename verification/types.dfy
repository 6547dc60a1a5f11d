/** The schema data model: the registry-side component contract and the
    page-side tree of component instances. */
module Types {
  import opened Wrappers
  import opened Json

  /** The primitive kind a component property is declared to take. */
  datatype PropType = StringType | NumberType | BooleanType | ObjectType | ArrayType

  /** The literal that names a property kind in a schema. */
  function PropTypeName(t: PropType): string {
    match t
    case StringType => "string"
    case NumberType => "number"
    case BooleanType => "boolean"
    case ObjectType => "object"
    case ArrayType => "array"
  }

  /** Reads a property-kind literal; exactly the five names are accepted. */
  function ParsePropType(s: string): (r: Option<PropType>)
    ensures r.Some? ==> PropTypeName(r.value) == s
    ensures r.None? ==> forall t :: PropTypeName(t) != s
  {
    if s == "string" then Some(StringType)
    else if s == "number" then Some(NumberType)
    else if s == "boolean" then Some(BooleanType)
    else if s == "object" then Some(ObjectType)
    else if s == "array" then Some(ArrayType)
    else None
  }

  lemma PropTypeNameRoundTrip(t: PropType)
    ensures ParsePropType(PropTypeName(t)) == Some(t)
  {
  }

  datatype PropertySchema = PropertySchema(
    propType: PropType,
    required: Option<bool>,
    default: Option<Value>,
    i18n: Option<bool>)

  datatype VariantSchema = VariantSchema(
    properties: map<string, PropertySchema>,
    styles: Option<map<string, string>>)

  datatype BehaviorSchema = BehaviorSchema(behaviorType: string, config: seq<Member>)

  /** The contract a component type declares when it is registered. */
  datatype ComponentSchema = ComponentSchema(
    typeName: string,
    properties: map<string, PropertySchema>,
    variants: Option<map<string, VariantSchema>>,
    behaviors: Option<seq<BehaviorSchema>>,
    dependencies: Option<seq<string>>)

  /** The install units a schema declares; an absent list declares none. */
  function DeclaredDependencies(s: ComponentSchema): seq<string> {
    s.dependencies.GetOr([])
  }

  /** Property `p` is declared with `required: true`. */
  predicate IsRequired(s: ComponentSchema, p: string) {
    p in s.properties && s.properties[p].required == Some(true)
  }

  /** One node of a page's declared tree.  The generators traverse
      `properties.children`, never the `children` field. */
  datatype ComponentInstance = ComponentInstance(
    id: string,
    typeName: string,
    region: string,
    properties: seq<Member>,
    children: Option<seq<ComponentInstance>>)

  /** Where a page obtains its rows; the `transform` callback is not modelled. */
  datatype DataSchema = DataSchema(source: string, query: Option<seq<Member>>)

  datatype PageSchema = PageSchema(
    layout: string,
    title: string,
    components: seq<ComponentInstance>,
    data: Option<DataSchema>)

  /** An opaque reference to the rendering function registered for a type. */
  datatype Handle = Handle(name: string)

  datatype ComponentRegistryItem = ComponentRegistryItem(
    name: string,
    component: Handle,
    schema: ComponentSchema)
}
