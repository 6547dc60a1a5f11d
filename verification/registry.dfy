/** The component registry: a name-keyed catalogue of registered component
    types.  JavaScript's `Map` is modelled as a finite map together with the
    order in which names were first inserted, which is the order `getAll`
    reports. */
module Registry {
  import opened Wrappers
  import opened Types
  import opened OrderedSet

  datatype State = State(items: map<string, ComponentRegistryItem>, order: seq<string>)

  /** `order` lists each registered name once, and every entry is filed
      under its own name. */
  predicate Valid(st: State) {
    && NoDup(st.order)
    && (forall i :: 0 <= i < |st.order| ==> st.order[i] in st.items)
    && (forall n :: n in st.items ==> n in st.order)
    && (forall n :: n in st.items ==> st.items[n].name == n)
  }

  type Registry = st: State | Valid(st) witness State(map[], [])

  const Empty: Registry := State(map[], [])

  /** The outcome of a registration: the new registry and the warning logged
      when a name was already taken.  Registration never fails. */
  datatype Registered = Registered(registry: Registry, warning: Option<string>)

  function OverwriteWarning(name: string): string {
    "Component " + name + " is already registered. It will be overwritten."
  }

  /** `registry.get(name)`; `None` stands for `undefined`. */
  function Get(r: Registry, name: string): Option<ComponentRegistryItem> {
    if name in r.items then Some(r.items[name]) else None
  }

  /** `registry.register(name, component, schema)`. */
  function Register(r: Registry, name: string, component: Handle, schema: ComponentSchema): (res: Registered)
    ensures Get(res.registry, name) == Some(ComponentRegistryItem(name, component, schema))
    ensures forall m :: m != name ==> Get(res.registry, m) == Get(r, m)
    ensures res.warning.Some? <==> Get(r, name).Some?
    ensures res.warning.Some? ==> res.warning.value == OverwriteWarning(name)
    ensures Get(r, name).Some? ==> res.registry.order == r.order
    ensures Get(r, name).None? ==> res.registry.order == r.order + [name]
  {
    var item := ComponentRegistryItem(name, component, schema);
    if name in r.items then
      Registered(State(r.items[name := item], r.order), Some(OverwriteWarning(name)))
    else
      var order' := r.order + [name];
      assert NoDup(order') by {
        forall i, j | 0 <= i < j < |order'| ensures order'[i] != order'[j] {
          if j == |r.order| {
            assert order'[i] == r.order[i] && r.order[i] in r.items;
          }
        }
      }
      Registered(State(r.items[name := item], order'), None)
  }

  /** `registry.getAll()`: one entry per registered name, in order of first
      registration. */
  function GetAll(r: Registry): (all: seq<ComponentRegistryItem>)
    ensures |all| == |r.order| == |r.items|
    ensures forall i :: 0 <= i < |all| ==> all[i].name == r.order[i]
    ensures forall i :: 0 <= i < |all| ==> Get(r, all[i].name) == Some(all[i])
    ensures forall i, j :: 0 <= i < j < |all| ==> all[i].name != all[j].name
    ensures forall n :: Get(r, n).Some? ==> exists i :: 0 <= i < |all| && all[i].name == n
  {
    NoDupCardinality(r.order);
    assert (set x | x in r.order) == r.items.Keys;
    seq(|r.order|, i requires 0 <= i < |r.order| => r.items[r.order[i]])
  }

  /** Registering an already-registered name replaces its entry where it
      stands in `getAll`; a new name is appended. */
  lemma GetAllAfterRegister(r: Registry, name: string, component: Handle, schema: ComponentSchema)
    ensures var after := GetAll(Register(r, name, component, schema).registry);
      var item := ComponentRegistryItem(name, component, schema);
      && (Get(r, name).None? ==> after == GetAll(r) + [item])
      && (Get(r, name).Some? ==> |after| == |GetAll(r)|)
      && (Get(r, name).Some? ==> forall i :: 0 <= i < |after| ==>
            after[i] == if GetAll(r)[i].name == name then item else GetAll(r)[i])
  {
    if Get(r, name).None? {
      GetAllAfterRegisterNew(r, name, component, schema);
    }
  }

  lemma GetAllAfterRegisterNew(r: Registry, name: string, component: Handle, schema: ComponentSchema)
    requires Get(r, name).None?
    ensures GetAll(Register(r, name, component, schema).registry) == GetAll(r) + [ComponentRegistryItem(name, component, schema)]
  {
    var r' := Register(r, name, component, schema).registry;
    var after := GetAll(r');
    var before := GetAll(r);
    var item := ComponentRegistryItem(name, component, schema);
    assert r'.order == r.order + [name];
    assert |after| == |before| + 1;
    forall i | 0 <= i < |after| ensures after[i] == (before + [item])[i] {
      if i < |before| {
        var n := r.order[i];
        assert r'.order[i] == n && n in r.items && n != name;
        assert Get(r', n) == Get(r, n) == Some(before[i]);
        assert Get(r', after[i].name) == Some(after[i]);
      } else {
        assert after[i].name == name;
        assert Get(r', name) == Some(item);
      }
    }
  }

  /** Registering a name twice leaves only the second registration
      retrievable, warns the second time, and keeps the catalogue size. */
  lemma OverwriteKeepsSecond(r: Registry, name: string, c1: Handle, s1: ComponentSchema, c2: Handle, s2: ComponentSchema)
    ensures var first := Register(r, name, c1, s1).registry;
      var second := Register(first, name, c2, s2);
      && Get(second.registry, name) == Some(ComponentRegistryItem(name, c2, s2))
      && second.warning == Some(OverwriteWarning(name))
      && |GetAll(second.registry)| == |GetAll(first)|
  {
  }

  /** `registry.installDependencies(schema)`: returns without acting, whether
      or not the schema declares dependencies; the list of install requests
      it issues is always empty. */
  function InstallDependencies(r: Registry, schema: ComponentSchema): (requests: seq<string>)
    ensures requests == []
  {
    []
  }
}
