/** The schema-driven page generator: from a page schema it computes the
    install units the page's components need (the dependency closure), the
    import lines, and the page text, and it performs the directory, install
    and write steps of `generatePage` as recorded effects.

    A schema component is an object with a `type` property; its children are
    `properties.children`, an array or a single value.  All three traversals
    of the source visit the same nodes: a child is descended into when it is
    an object that has a `type`, strings and other values are passed over,
    and a `null` element of a children array stops the run with a type error. */
module Generator {
  import opened Wrappers
  import opened Text
  import opened OrderedSet
  import opened Json
  import opened Types
  import Registry
  import opened Effects

  // ---------------------------------------------------------------------
  // The component tree.

  /** An object with a `type` property. */
  predicate IsNode(v: Value) {
    v.Obj? && HasKey(v.members, "type")
  }

  function TypeOf(v: Value): Value
    requires IsNode(v)
  {
    Get(v.members, "type").value
  }

  /** A top-level instance as the generator sees it.  Only its type and its
      properties are carried over: `id`, `region` and `children` are never
      read. */
  function AsNode(ci: ComponentInstance): (v: Value)
    ensures IsNode(v) && TypeOf(v) == Str(ci.typeName)
    ensures Get(v.members, "properties") == Some(Obj(ci.properties))
  {
    Obj([Member("type", Str(ci.typeName)), Member("properties", Obj(ci.properties))])
  }

  function AsNodes(cs: seq<ComponentInstance>): (vs: seq<Value>)
    ensures |vs| == |cs|
    ensures forall i :: 0 <= i < |cs| ==> vs[i] == AsNode(cs[i])
  {
    seq(|cs|, i requires 0 <= i < |cs| => AsNode(cs[i]))
  }

  /** `component.properties?.children`: found only when the component is an
      object whose `properties` is an object with a `children` property. */
  function ChildrenOf(v: Value): (r: Option<Value>)
    ensures r.Some? <==>
      (v.Obj? && Get(v.members, "properties").Some? && Get(v.members, "properties").value.Obj?
       && HasKey(Get(v.members, "properties").value.members, "children"))
    ensures r.Some? ==> r == Get(Get(v.members, "properties").value.members, "children")
    ensures r.Some? ==> r.value < v
  {
    if v.Obj? then
      match Get(v.members, "properties")
      case Some(Obj(pm)) => Get(pm, "children")
      case _ => None
    else None
  }

  /** `component.properties?.children` when it is truthy, as a list: the
      elements of an array, any other value on its own. */
  function Kids(v: Value): (r: seq<Value>)
    ensures forall c :: c in r ==> c < v
    ensures ChildrenOf(v).None? || !Truthy(ChildrenOf(v).value) ==> r == []
    ensures ChildrenOf(v).Some? && Truthy(ChildrenOf(v).value) && ChildrenOf(v).value.Arr? ==>
      r == ChildrenOf(v).value.items
    ensures ChildrenOf(v).Some? && Truthy(ChildrenOf(v).value) && !ChildrenOf(v).value.Arr? ==>
      r == [ChildrenOf(v).value]
  {
    match ChildrenOf(v)
    case None => []
    case Some(c) =>
      if !Truthy(c) then []
      else if c.Arr? then
        assert forall x :: x in c.items ==> x < c;
        c.items
      else [c]
  }

  // ---------------------------------------------------------------------
  // The traversal shared by the dependency closure and the imports.

  /** The `type` values visited, in visiting order, and whether a `null`
      child stopped the traversal after them. */
  datatype Trace = Trace(types: seq<Value>, stopped: bool)

  /** `a` followed by `b`, unless `a` already stopped. */
  function Seq(a: Trace, b: Trace): (r: Trace)
    ensures r.stopped <==> a.stopped || b.stopped
    ensures !r.stopped ==> r.types == a.types + b.types
  {
    if a.stopped then a else Trace(a.types + b.types, b.stopped)
  }

  /** `processComponent(v)`: the node's own type, then its children in order. */
  function WalkNode(v: Value): Trace
    requires IsNode(v)
    decreases v, 1
  {
    Seq(Trace([TypeOf(v)], false), WalkList(Kids(v), v))
  }

  /** `children.forEach(...)`: a typed object is descended into, `null`
      stops everything, anything else is passed over. */
  function WalkList(cs: seq<Value>, ghost bound: Value): Trace
    requires forall c :: c in cs ==> c < bound
    decreases bound, 0, |cs|
  {
    if cs == [] then Trace([], false)
    else
      assert cs[0] in cs;
      assert forall c :: c in cs[1..] ==> c in cs;
      if cs[0] == Null then Trace([], true)
      else if IsNode(cs[0]) then Seq(WalkNode(cs[0]), WalkList(cs[1..], bound))
      else WalkList(cs[1..], bound)
  }

  /** `schema.components.forEach(processComponent)`. */
  function WalkPage(page: PageSchema): Trace {
    var nodes := AsNodes(page.components);
    WalkList(nodes, Arr(nodes))
  }

  // ---------------------------------------------------------------------
  // Reachability, defined independently of the traversal.

  /** `w` is `v`, or lies below `v` through children that are typed objects. */
  ghost predicate Reaches(v: Value, w: Value)
    decreases v
  {
    var ks := Kids(v);
    v == w || exists i :: 0 <= i < |ks| && IsNode(ks[i]) && Reaches(ks[i], w)
  }

  /** Some node reachable from `v` has type `t`. */
  ghost predicate NodeHasType(v: Value, t: Value) {
    exists w :: Reaches(v, w) && IsNode(w) && TypeOf(w) == t
  }

  /** Some node reachable from `v` has a `null` child. */
  ghost predicate NodeHasNull(v: Value) {
    exists w :: Reaches(v, w) && IsNode(w) && Null in Kids(w)
  }

  ghost predicate ListHasType(cs: seq<Value>, t: Value) {
    exists i :: 0 <= i < |cs| && IsNode(cs[i]) && NodeHasType(cs[i], t)
  }

  ghost predicate ListHasNull(cs: seq<Value>) {
    exists i :: 0 <= i < |cs| && (cs[i] == Null || (IsNode(cs[i]) && NodeHasNull(cs[i])))
  }

  lemma NodeHasTypeUnfold(v: Value, t: Value)
    requires IsNode(v)
    ensures NodeHasType(v, t) <==> TypeOf(v) == t || ListHasType(Kids(v), t)
  {
    if NodeHasType(v, t) && TypeOf(v) != t {
      NodeHasTypeBelow(v, t);
    }
    if ListHasType(Kids(v), t) {
      NodeHasTypeAbove(v, t);
    }
    if TypeOf(v) == t {
      assert Reaches(v, v);
    }
  }

  lemma NodeHasTypeBelow(v: Value, t: Value)
    requires IsNode(v) && NodeHasType(v, t) && TypeOf(v) != t
    ensures ListHasType(Kids(v), t)
  {
    var ks := Kids(v);
    var w :| Reaches(v, w) && IsNode(w) && TypeOf(w) == t;
    assert v != w;
    var i :| 0 <= i < |ks| && IsNode(ks[i]) && Reaches(ks[i], w);
    assert NodeHasType(ks[i], t);
  }

  lemma NodeHasTypeAbove(v: Value, t: Value)
    requires IsNode(v) && ListHasType(Kids(v), t)
    ensures NodeHasType(v, t)
  {
    var ks := Kids(v);
    var i :| 0 <= i < |ks| && IsNode(ks[i]) && NodeHasType(ks[i], t);
    var w :| Reaches(ks[i], w) && IsNode(w) && TypeOf(w) == t;
    assert ks[i] in ks;
    assert Reaches(v, w);
  }

  lemma NodeHasNullUnfold(v: Value)
    requires IsNode(v)
    ensures NodeHasNull(v) <==> ListHasNull(Kids(v))
  {
    if NodeHasNull(v) {
      NodeHasNullBelow(v);
    }
    if ListHasNull(Kids(v)) {
      NodeHasNullAbove(v);
    }
  }

  lemma NodeHasNullBelow(v: Value)
    requires IsNode(v) && NodeHasNull(v)
    ensures ListHasNull(Kids(v))
  {
    var ks := Kids(v);
    var w :| Reaches(v, w) && IsNode(w) && Null in Kids(w);
    if v == w {
      var i :| 0 <= i < |ks| && ks[i] == Null;
      assert ListHasNull(ks);
    } else {
      var i :| 0 <= i < |ks| && IsNode(ks[i]) && Reaches(ks[i], w);
      assert NodeHasNull(ks[i]);
    }
  }

  lemma NodeHasNullAbove(v: Value)
    requires IsNode(v) && ListHasNull(Kids(v))
    ensures NodeHasNull(v)
  {
    var ks := Kids(v);
    var i :| 0 <= i < |ks| && (ks[i] == Null || (IsNode(ks[i]) && NodeHasNull(ks[i])));
    assert ks[i] in ks;
    if ks[i] == Null {
      assert Reaches(v, v);
    } else {
      var w :| Reaches(ks[i], w) && IsNode(w) && Null in Kids(w);
      assert Reaches(v, w);
    }
  }

  lemma ListHasTypeSplit(cs: seq<Value>, t: Value)
    requires cs != []
    ensures ListHasType(cs, t) <==> (IsNode(cs[0]) && NodeHasType(cs[0], t)) || ListHasType(cs[1..], t)
  {
    if ListHasType(cs, t) {
      ListHasTypeHeadOrTail(cs, t);
    }
    if ListHasType(cs[1..], t) {
      ListHasTypeFromTail(cs, t);
    }
  }

  lemma ListHasTypeHeadOrTail(cs: seq<Value>, t: Value)
    requires cs != [] && ListHasType(cs, t)
    ensures (IsNode(cs[0]) && NodeHasType(cs[0], t)) || ListHasType(cs[1..], t)
  {
    var i :| 0 <= i < |cs| && IsNode(cs[i]) && NodeHasType(cs[i], t);
    if i > 0 {
      assert cs[1..][i - 1] == cs[i];
    }
  }

  lemma ListHasTypeFromTail(cs: seq<Value>, t: Value)
    requires cs != [] && ListHasType(cs[1..], t)
    ensures ListHasType(cs, t)
  {
    var tail := cs[1..];
    var i :| 0 <= i < |tail| && IsNode(tail[i]) && NodeHasType(tail[i], t);
    assert cs[i + 1] == tail[i];
  }

  lemma ListHasNullSplit(cs: seq<Value>)
    requires cs != []
    ensures ListHasNull(cs) <==> cs[0] == Null || (IsNode(cs[0]) && NodeHasNull(cs[0])) || ListHasNull(cs[1..])
  {
    var tail := cs[1..];
    if ListHasNull(cs) {
      var i :| 0 <= i < |cs| && (cs[i] == Null || (IsNode(cs[i]) && NodeHasNull(cs[i])));
      if i > 0 {
        assert tail[i - 1] == cs[i];
      }
    }
    if ListHasNull(tail) {
      var i :| 0 <= i < |tail| && (tail[i] == Null || (IsNode(tail[i]) && NodeHasNull(tail[i])));
      assert cs[i + 1] == tail[i];
    }
  }

  /** The traversal stops exactly when some reachable node has a `null`
      child; otherwise it visits exactly the types of the reachable nodes. */
  lemma {:induction false} WalkNodeVisitsReachable(v: Value)
    requires IsNode(v)
    ensures WalkNode(v).stopped <==> NodeHasNull(v)
    ensures !WalkNode(v).stopped ==> forall t :: t in WalkNode(v).types <==> NodeHasType(v, t)
    decreases v, 1
  {
    WalkListVisitsReachable(Kids(v), v);
    NodeHasNullUnfold(v);
    forall t ensures !WalkNode(v).stopped ==> (t in WalkNode(v).types <==> NodeHasType(v, t)) {
      NodeHasTypeUnfold(v, t);
    }
  }

  lemma {:induction false} WalkListVisitsReachable(cs: seq<Value>, bound: Value)
    requires forall c :: c in cs ==> c < bound
    ensures WalkList(cs, bound).stopped <==> ListHasNull(cs)
    ensures !WalkList(cs, bound).stopped ==> forall t :: t in WalkList(cs, bound).types <==> ListHasType(cs, t)
    decreases bound, 0, |cs|
  {
    if cs != [] {
      assert cs[0] in cs;
      assert forall c :: c in cs[1..] ==> c in cs;
      WalkListVisitsReachable(cs[1..], bound);
      if IsNode(cs[0]) {
        WalkNodeVisitsReachable(cs[0]);
      }
      forall t ensures ListHasType(cs, t) <==> (IsNode(cs[0]) && NodeHasType(cs[0], t)) || ListHasType(cs[1..], t) {
        ListHasTypeSplit(cs, t);
      }
      ListHasNullSplit(cs);
    }
  }

  // ---------------------------------------------------------------------
  // `installRequiredComponents`: the dependency closure.

  /** What `analyzeComponent` adds for a visited `type`: the dependencies
      declared by its registration.  A type that is not a registered name,
      and a registration without a dependency list, add nothing. */
  function DepsOf(reg: Registry.Registry, t: Value): (ds: seq<string>)
    ensures !t.Str? || Registry.Get(reg, t.s).None? ==> ds == []
  {
    if t.Str? && Registry.Get(reg, t.s).Some? then
      DeclaredDependencies(Registry.Get(reg, t.s).value.schema)
    else []
  }

  /** The dependencies added, in order, over a sequence of visited types. */
  function FlatDeps(reg: Registry.Registry, ts: seq<Value>): (ds: seq<string>)
    decreases |ts|
  {
    if ts == [] then [] else DepsOf(reg, ts[0]) + FlatDeps(reg, ts[1..])
  }

  lemma {:induction false} FlatDepsMembers(reg: Registry.Registry, ts: seq<Value>, d: string)
    ensures d in FlatDeps(reg, ts) <==> exists t :: t in ts && d in DepsOf(reg, t)
    decreases |ts|
  {
    if ts != [] {
      FlatDepsMembers(reg, ts[1..], d);
      assert ts[0] in ts;
      assert forall t :: t in ts[1..] ==> t in ts;
      if exists t :: t in ts && d in DepsOf(reg, t) {
        var t :| t in ts && d in DepsOf(reg, t);
        if t != ts[0] {
          assert t in ts[1..];
        }
      }
    }
  }

  /** The `requiredComponents` set as an insertion-ordered list, or the
      error that ends the traversal. */
  function RequiredComponents(reg: Registry.Registry, page: PageSchema): (r: Result<seq<string>, Fault>)
    ensures r.Success? ==> NoDup(r.value)
    ensures r.Failure? ==> r.error == NullChild
  {
    var tr := WalkPage(page);
    if tr.stopped then Failure(NullChild) else Success(InsertAll([], FlatDeps(reg, tr.types)))
  }

  lemma PageNodesBelow(page: PageSchema)
    ensures forall c :: c in AsNodes(page.components) ==> c < Arr(AsNodes(page.components))
  {
  }

  /** The closure fails exactly when a `null` child is reachable; otherwise
      it holds each dependency of each reachable node's type, once. */
  lemma RequiredComponentsIsUnion(reg: Registry.Registry, page: PageSchema)
    ensures var nodes := AsNodes(page.components);
      RequiredComponents(reg, page).Failure? <==> ListHasNull(nodes)
    ensures var nodes := AsNodes(page.components);
      RequiredComponents(reg, page).Success? ==>
        forall d :: d in RequiredComponents(reg, page).value <==> exists t :: ListHasType(nodes, t) && d in DepsOf(reg, t)
  {
    var nodes := AsNodes(page.components);
    PageNodesBelow(page);
    WalkListVisitsReachable(nodes, Arr(nodes));
    var tr := WalkPage(page);
    if !tr.stopped {
      forall d ensures d in FlatDeps(reg, tr.types) <==> exists t :: ListHasType(nodes, t) && d in DepsOf(reg, t) {
        FlatDepsMembers(reg, tr.types, d);
      }
    }
  }

  /** A tree whose reachable types all declare no dependencies installs
      nothing: the closure is empty, so no install command is run. */
  lemma NoDeclaredDependenciesNoInstall(reg: Registry.Registry, page: PageSchema)
    requires forall t :: ListHasType(AsNodes(page.components), t) ==> DepsOf(reg, t) == []
    ensures RequiredComponents(reg, page).Success? ==> RequiredComponents(reg, page).value == []
  {
    RequiredComponentsIsUnion(reg, page);
  }

  // ---------------------------------------------------------------------
  // `generateImports`.

  /** The import line of one component type. */
  function ImportLine(t: string): string {
    "import { " + t + " } from '@/components/ui/" + ToLower(t) + "';"
  }

  /** Different types give different import lines, so the set of lines has
      one entry per distinct type. */
  lemma ImportLineInjective(a: string, b: string)
    requires ImportLine(a) == ImportLine(b)
    ensures a == b
  {
    var tail := " } from '@/components/ui/";
    assert |"import { "| == 9 && |tail| == 25;
    assert |ImportLine(a)| == 9 + |a| + 25 + |a| + 2;
    assert |ImportLine(b)| == 9 + |b| + 25 + |b| + 2;
    assert |a| == |b|;
    assert ImportLine(a) == "import { " + a + (tail + ToLower(a) + "';");
    assert ImportLine(b) == "import { " + b + (tail + ToLower(b) + "';");
    assert ImportLine(a)[9..9 + |a|] == a;
    assert ImportLine(b)[9..9 + |b|] == b;
  }

  /** The first visited `type` that is not a string, if any. */
  function FirstNonString(ts: seq<Value>): (r: Option<Value>)
    ensures r.None? <==> forall i :: 0 <= i < |ts| ==> ts[i].Str?
    ensures r.Some? ==> !r.value.Str? && r.value in ts
    decreases |ts|
  {
    if ts == [] then None
    else if !ts[0].Str? then Some(ts[0])
    else
      var r := FirstNonString(ts[1..]);
      assert forall i :: 1 <= i < |ts| ==> ts[i] == ts[1..][i - 1];
      r
  }

  function Strings(ts: seq<Value>): (r: seq<string>)
    requires forall i :: 0 <= i < |ts| ==> ts[i].Str?
    ensures |r| == |ts|
    ensures forall i :: 0 <= i < |ts| ==> Str(r[i]) == ts[i]
  {
    seq(|ts|, i requires 0 <= i < |ts| => ts[i].s)
  }

  /** The `imports` set as an insertion-ordered list.  `toLowerCase` throws
      on the first visited type that is not a string. */
  function ImportLines(page: PageSchema): (r: Result<seq<string>, Fault>)
    ensures r.Success? ==> NoDup(r.value)
  {
    var tr := WalkPage(page);
    match FirstNonString(tr.types)
    case Some(t) => Failure(TypeNotString(t))
    case None =>
      if tr.stopped then Failure(NullChild)
      else Success(InsertAll([], Map(ImportLine, Strings(tr.types))))
  }

  /** `generateImports(schema)`. */
  function Imports(page: PageSchema): (r: Result<string, Fault>)
    ensures r.Success? <==> ImportLines(page).Success?
  {
    var lines :- ImportLines(page);
    Success(Join(lines, "\n"))
  }

  /** The imports succeed exactly when no `null` child is reachable and every
      reachable type is a string. */
  lemma ImportLinesSucceed(page: PageSchema)
    ensures var nodes := AsNodes(page.components);
      ImportLines(page).Success? <==> !ListHasNull(nodes) && forall t :: ListHasType(nodes, t) ==> t.Str?
  {
    var nodes := AsNodes(page.components);
    PageNodesBelow(page);
    WalkListVisitsReachable(nodes, Arr(nodes));
    var tr := WalkPage(page);
    if !tr.stopped && FirstNonString(tr.types).Some? {
      var t := FirstNonString(tr.types).value;
      assert ListHasType(nodes, t);
    }
    if !tr.stopped && FirstNonString(tr.types).None? {
      forall t | ListHasType(nodes, t) ensures t.Str? {
        var k :| 0 <= k < |tr.types| && tr.types[k] == t;
      }
    }
  }

  lemma ImportLinesOf(ss: seq<string>, t: string)
    ensures InsertAll([], Map(ImportLine, ss)) == Map(ImportLine, InsertAll([], ss))
    ensures ImportLine(t) in Map(ImportLine, ss) <==> t in ss
  {
    forall a, b | a in [] + ss && b in [] + ss && ImportLine(a) == ImportLine(b) ensures a == b {
      ImportLineInjective(a, b);
    }
    InsertAllMap(ImportLine, [], ss);
    assert Map(ImportLine, []) == [];
    if ImportLine(t) in Map(ImportLine, ss) {
      var k :| 0 <= k < |ss| && Map(ImportLine, ss)[k] == ImportLine(t);
      ImportLineInjective(ss[k], t);
    }
    if t in ss {
      var k :| 0 <= k < |ss| && ss[k] == t;
      assert Map(ImportLine, ss)[k] == ImportLine(t);
    }
  }

  lemma StringsMember(ts: seq<Value>, t: string)
    requires forall i :: 0 <= i < |ts| ==> ts[i].Str?
    ensures t in Strings(ts) <==> Str(t) in ts
  {
    var ss := Strings(ts);
    if t in ss {
      var k :| 0 <= k < |ss| && ss[k] == t;
      assert ts[k] == Str(t);
    }
    if Str(t) in ts {
      var k :| 0 <= k < |ts| && ts[k] == Str(t);
      assert ss[k] == t;
    }
  }

  /** Successful imports hold one line per distinct reachable type, in
      first-visit order, whether the type is registered or not. */
  lemma ImportLinesOnePerType(page: PageSchema)
    requires ImportLines(page).Success?
    ensures ImportLines(page).value == Map(ImportLine, InsertAll([], Strings(WalkPage(page).types)))
    ensures forall t :: ImportLine(t) in ImportLines(page).value <==> ListHasType(AsNodes(page.components), Str(t))
  {
    var nodes := AsNodes(page.components);
    var tr := WalkPage(page);
    var ss := Strings(tr.types);
    var lines := ImportLines(page).value;
    assert lines == InsertAll([], Map(ImportLine, ss));
    ImportLinesOf(ss, "");
    PageNodesBelow(page);
    WalkListVisitsReachable(nodes, Arr(nodes));
    forall t ensures ImportLine(t) in lines <==> ListHasType(nodes, Str(t)) {
      ImportLinesOf(ss, t);
      StringsMember(tr.types, t);
    }
  }

  // ---------------------------------------------------------------------
  // `generatePageBody`.

  /** `{ ...component.properties }`: an object's own members; a string's
      characters and an array's elements under their index keys; nothing
      for any other value or an absent `properties`. */
  function Spread(p: Option<Value>): (ms: seq<Member>)
    ensures p.Some? && p.value.Obj? ==> ms == p.value.members
    ensures p.Some? && p.value.Str? ==> |ms| == |p.value.s|
    ensures p.Some? && p.value.Arr? ==> |ms| == |p.value.items|
    ensures p.None? || !(p.value.Obj? || p.value.Str? || p.value.Arr?) ==> ms == []
  {
    match p
    case Some(Obj(ms)) => ms
    case Some(Str(s)) => seq(|s|, i requires 0 <= i < |s| => Member(IntToString(i), Str([s[i]])))
    case Some(Arr(items)) => seq(|items|, i requires 0 <= i < |items| => Member(IntToString(i), items[i]))
    case _ => []
  }

  /** The entry written for one property: `children` as an array literal
      around its (rewritten) text, any other key as its JSON text. */
  function EntryText(m: Member, childrenText: string): string {
    if m.key == "children" then "children={[" + childrenText + "]}"
    else m.key + "={" + StringifyText(m.val) + "}"
  }

  function EntryTexts(ms: seq<Member>, childrenText: string): (r: seq<string>)
    ensures |r| == |ms|
    ensures forall i :: 0 <= i < |ms| ==> r[i] == EntryText(ms[i], childrenText)
  {
    seq(|ms|, i requires 0 <= i < |ms| => EntryText(ms[i], childrenText))
  }

  /** The JSX element for a type's text and its entries. */
  function Element(typeText: string, entries: seq<string>): string {
    "<" + typeText + "\n        " + Join(entries, "\n        ") + "\n      />"
  }

  /** `generateComponent(component)`. */
  function NodeText(v: Value): (r: Result<string, Fault>)
    requires IsNode(v)
    ensures r.Failure? ==> r.error == NullChild
    decreases v, 2
  {
    var childrenText :- ChildrenText(v);
    Success(Element(Interp(TypeOf(v)), EntryTexts(Spread(Get(v.members, "properties")), childrenText)))
  }

  /** An element opens with `<` and the type, and shows every entry. */
  lemma ElementShows(typeText: string, entries: seq<string>, i: int)
    requires 0 <= i < |entries|
    ensures Contains(Element(typeText, entries), entries[i])
    ensures var open := "<" + typeText;
      |open| <= |Element(typeText, entries)| && Element(typeText, entries)[..|open|] == open
  {
    var open := "<" + typeText;
    var sep := "\n        ";
    JoinContainsEach(entries, sep, i);
    ContainsWithin(open + sep, Join(entries, sep), "\n      />", entries[i]);
    assert Element(typeText, entries) == open + (sep + Join(entries, sep) + "\n      />");
  }

  /** The text `props.children` holds when the entries are written: a truthy
      array becomes its elements' texts joined, a typed object its own
      component text, and any other value stays as it is and is
      interpolated. */
  function ChildrenText(v: Value): (r: Result<string, Fault>)
    requires IsNode(v)
    ensures r.Failure? ==> r.error == NullChild
    decreases v, 1
  {
    match Get(v.members, "properties")
    case Some(Obj(pm)) =>
      (match Get(pm, "children")
       case Some(c) =>
         if Truthy(c) && c.Arr? then
           assert forall x :: x in c.items ==> x < v;
           var texts :- ElementTexts(c.items, v);
           Success(Join(texts, ",\n          "))
         else if Truthy(c) && IsNode(c) then NodeText(c)
         else Success(Interp(c))
       case None => Success(""))
    case _ => Success("")
  }

  /** `children.map(...)`: a typed object gives its component text, any other
      element its JSON text (a function, whose JSON is `undefined`, the empty
      string), and a `null` element throws. */
  function ElementTexts(items: seq<Value>, ghost bound: Value): (r: Result<seq<string>, Fault>)
    requires forall c :: c in items ==> c < bound
    ensures r.Success? ==> |r.value| == |items|
    ensures r.Failure? ==> r.error == NullChild
    decreases bound, 0, |items|
  {
    if items == [] then Success([])
    else
      assert items[0] in items;
      assert forall c :: c in items[1..] ==> c in items;
      if items[0] == Null then Failure(NullChild)
      else
        var head :- if IsNode(items[0]) then NodeText(items[0]) else Success(Stringify(items[0]).GetOr(""));
        var rest :- ElementTexts(items[1..], bound);
        Success([head] + rest)
  }

  /** Serialising a component throws exactly when a `null` child is
      reachable from it, the same condition that stops the closure. */
  lemma {:induction false} NodeTextFailsOnNull(v: Value)
    requires IsNode(v)
    ensures NodeText(v).Failure? <==> NodeHasNull(v)
    decreases v, 2
  {
    ChildrenTextFailsOnNull(v);
    NodeHasNullUnfold(v);
  }

  lemma {:induction false} ChildrenTextFailsOnNull(v: Value)
    requires IsNode(v)
    ensures ChildrenText(v).Failure? <==> ListHasNull(Kids(v))
    decreases v, 1
  {
    var p := Get(v.members, "properties");
    if p.Some? && p.value.Obj? && Get(p.value.members, "children").Some? {
      var c := Get(p.value.members, "children").value;
      if Truthy(c) && c.Arr? {
        assert forall x :: x in c.items ==> x < v;
        ElementTextsFailOnNull(c.items, v);
      } else if Truthy(c) {
        assert Kids(v) == [c];
        ListHasNullSplit([c]);
        assert [c][1..] == [];
        if IsNode(c) {
          NodeTextFailsOnNull(c);
        }
      }
    }
  }

  lemma {:induction false} ElementTextsFailOnNull(items: seq<Value>, bound: Value)
    requires forall c :: c in items ==> c < bound
    ensures ElementTexts(items, bound).Failure? <==> ListHasNull(items)
    decreases bound, 0, |items|
  {
    if items != [] {
      assert items[0] in items;
      assert forall c :: c in items[1..] ==> c in items;
      ListHasNullSplit(items);
      if items[0] != Null {
        if IsNode(items[0]) {
          NodeTextFailsOnNull(items[0]);
        }
        ElementTextsFailOnNull(items[1..], bound);
      }
    }
  }

  /** A serialised component opens with `<` and its type, and shows every
      property of the spread: `children` as an array literal around the
      rewritten children, any other key as `key={JSON}`. */
  lemma NodeTextShowsEachProperty(v: Value, i: int)
    requires IsNode(v) && NodeText(v).Success?
    requires 0 <= i < |Spread(Get(v.members, "properties"))|
    ensures var m := Spread(Get(v.members, "properties"))[i];
      Contains(NodeText(v).value, if m.key == "children" then "children={[" + ChildrenText(v).value + "]}"
                                  else m.key + "={" + StringifyText(m.val) + "}")
    ensures var open := "<" + Interp(TypeOf(v));
      |open| <= |NodeText(v).value| && NodeText(v).value[..|open|] == open
  {
    var entries := EntryTexts(Spread(Get(v.members, "properties")), ChildrenText(v).value);
    assert NodeText(v).value == Element(Interp(TypeOf(v)), entries);
    ElementShows(Interp(TypeOf(v)), entries, i);
  }

  /** A lone string child is written raw between the brackets, not quoted. */
  lemma LoneStringChildIsRaw(v: Value, pm: seq<Member>, s: string)
    requires IsNode(v) && Get(v.members, "properties") == Some(Obj(pm))
    requires Get(pm, "children") == Some(Str(s))
    ensures ChildrenText(v) == Success(s)
  {
  }

  /** The same string as an element of a children array is written as JSON,
      in quotes. */
  lemma StringElementIsQuoted(v: Value, pm: seq<Member>, s: string)
    requires IsNode(v) && Get(v.members, "properties") == Some(Obj(pm))
    requires Get(pm, "children") == Some(Arr([Str(s)]))
    ensures ChildrenText(v) == Success(Quote(s))
  {
    assert Str(s) in [Str(s)];
    var items := [Str(s)];
    assert items[1..] == [];
    assert items[0] != Null && !IsNode(items[0]);
    assert Stringify(items[0]) == Some(Quote(s));
    assert ElementTexts(items[1..], v) == Success([]);
    var r := ElementTexts(items, v);
    assert r.Success? && |r.value| == 1 && r.value[0] == Quote(s);
    assert r.value == [Quote(s)];
    assert r == Success([Quote(s)]);
    assert Join([Quote(s)], ",\n          ") == Quote(s);
  }

  /** A paragraph with the text child `Hello`. */
  lemma ParagraphExample()
    ensures NodeText(Obj([Member("type", Str("p")), Member("properties", Obj([Member("children", Str("Hello"))]))]))
         == Success("<" + "p" + "\n        " + "children={[Hello]}" + "\n      />")
  {
    var pm := [Member("children", Str("Hello"))];
    var v := Obj([Member("type", Str("p")), Member("properties", Obj(pm))]);
    assert Get(v.members, "properties") == Some(Obj(pm));
    assert Get(pm, "children") == Some(Str("Hello"));
    LoneStringChildIsRaw(v, pm, "Hello");
    var entries := EntryTexts(pm, "Hello");
    assert |entries| == 1 && entries[0] == "children={[Hello]}";
    assert entries == ["children={[Hello]}"];
    assert Join(entries, "\n        ") == "children={[Hello]}";
    assert NodeText(v) == Success(Element("p", entries));
    assert Spread(Get(v.members, "properties")) == pm;
    assert TypeOf(v) == Str("p");
  }

  /** A successful list of texts is the first element's text followed by
      the texts of the rest. */
  lemma ElementTextsCons(items: seq<Value>, bound: Value)
    requires forall c :: c in items ==> c < bound
    requires ElementTexts(items, bound).Success? && items != []
    ensures forall c :: c in items[1..] ==> c < bound
    ensures ElementTexts(items[1..], bound).Success?
    ensures ElementTexts(items, bound).value == [ElementTexts(items, bound).value[0]] + ElementTexts(items[1..], bound).value
    ensures IsNode(items[0]) ==> NodeText(items[0]) == Success(ElementTexts(items, bound).value[0])
    ensures !IsNode(items[0]) ==> ElementTexts(items, bound).value[0] == Stringify(items[0]).GetOr("")
  {
    assert items[0] in items;
    assert forall c :: c in items[1..] ==> c in items;
  }

  /** The texts of a list of elements, position by position. */
  lemma {:induction false} ElementTextsAt(items: seq<Value>, bound: Value, i: int)
    requires forall c :: c in items ==> c < bound
    requires ElementTexts(items, bound).Success? && 0 <= i < |items|
    ensures IsNode(items[i]) ==> NodeText(items[i]) == Success(ElementTexts(items, bound).value[i])
    ensures !IsNode(items[i]) ==> ElementTexts(items, bound).value[i] == Stringify(items[i]).GetOr("")
    decreases |items|
  {
    ElementTextsCons(items, bound);
    if i > 0 {
      ElementTextsAt(items[1..], bound, i - 1);
      assert items[1..][i - 1] == items[i];
    }
  }

  const H1Open: string := "<h1 className=\"text-3xl font-bold tracking-tight mb-6\">"

  /** The `return (...)` statement around the title and the components. */
  function BodyText(title: string, components: seq<string>): string {
    Join(["return (\n    <div className=\"container mx-auto py-10\">\n      ",
          H1Open + title + "</h1>",
          "\n      ",
          Join(components, "\n      "),
          "\n    </div>\n  );"], "")
  }

  /** `generatePageBody(schema)`: the top-level components, serialised in
      declared order. */
  function PageBody(page: PageSchema): (r: Result<string, Fault>)
    ensures r.Failure? ==> r.error == NullChild
  {
    var nodes := AsNodes(page.components);
    PageNodesBelow(page);
    var texts :- ElementTexts(nodes, Arr(nodes));
    Success(BodyText(page.title, texts))
  }

  /** The body carries the title inside the `h1`, every top-level
      component's text, and each component's text directly before the
      next one's. */
  lemma PageBodyShowsTitleAndComponents(page: PageSchema, i: int)
    requires PageBody(page).Success? && 0 <= i < |page.components|
    ensures Contains(PageBody(page).value, H1Open + page.title + "</h1>")
    ensures NodeText(AsNode(page.components[i])).Success?
    ensures Contains(PageBody(page).value, NodeText(AsNode(page.components[i])).value)
    ensures i + 1 < |page.components| ==>
      && NodeText(AsNode(page.components[i + 1])).Success?
      && Contains(PageBody(page).value, NodeText(AsNode(page.components[i])).value + "\n      "
                                        + NodeText(AsNode(page.components[i + 1])).value)
  {
    var nodes := AsNodes(page.components);
    PageNodesBelow(page);
    var texts := ElementTexts(nodes, Arr(nodes)).value;
    var mid := "\n      ";
    var pieces := ["return (\n    <div className=\"container mx-auto py-10\">\n      ",
                   H1Open + page.title + "</h1>", mid, Join(texts, mid), "\n    </div>\n  );"];
    var body := PageBody(page).value;
    assert body == Join(pieces, "");
    JoinContainsEach(pieces, "", 1);
    JoinContainsEach(pieces, "", 3);
    ElementTextsAt(nodes, Arr(nodes), i);
    JoinContainsEach(texts, mid, i);
    ContainsTrans(body, Join(texts, mid), texts[i]);
    if i + 1 < |page.components| {
      ElementTextsAt(nodes, Arr(nodes), i + 1);
      JoinContainsAdjacent(texts, mid, i);
      ContainsTrans(body, Join(texts, mid), texts[i] + mid + texts[i + 1]);
    }
  }

  /** The title's `h1` comes first: the first top-level component follows it
      directly. */
  lemma PageBodyShowsTitleFirst(page: PageSchema)
    requires PageBody(page).Success? && |page.components| > 0
    ensures NodeText(AsNode(page.components[0])).Success?
    ensures Contains(PageBody(page).value, H1Open + page.title + "</h1>" + "\n      "
                                           + NodeText(AsNode(page.components[0])).value)
  {
    var nodes := AsNodes(page.components);
    PageNodesBelow(page);
    var texts := ElementTexts(nodes, Arr(nodes)).value;
    assert PageBody(page).value == BodyText(page.title, texts);
    ElementTextsAt(nodes, Arr(nodes), 0);
    TitleBeforeFirstComponent(page.title, texts);
  }

  /** In the body text the title's `h1` is followed directly by the first
      component. */
  lemma TitleBeforeFirstComponent(title: string, texts: seq<string>)
    requires |texts| > 0
    ensures Contains(BodyText(title, texts), H1Open + title + "</h1>" + "\n      " + texts[0])
  {
    var mid := "\n      ";
    var open := "return (\n    <div className=\"container mx-auto py-10\">\n      ";
    var close := "\n    </div>\n  );";
    var rest := if |texts| == 1 then "" else mid + Join(texts[1..], mid);
    assert Join(texts, mid) == texts[0] + rest;
    var head := H1Open + title + "</h1>" + mid + texts[0];
    var ps := [open, H1Open + title + "</h1>", mid, Join(texts, mid), close];
    assert BodyText(title, texts) == Join(ps, "");
    JoinNoSeparator(ps);
    assert BodyText(title, texts) == open + head + (rest + close);
    ContainsMiddle(open, head, rest + close);
  }

  // ---------------------------------------------------------------------
  // `generatePageContent`.

  /** The declaration line of the page function. */
  function Declaration(name: string): string {
    "export default function " + CapitalizeFirst(name) + "Page() {"
  }

  /** The module text around the imports and the body. */
  function ContentText(name: string, imports: string, body: string): string {
    Join(["'use client';\n\nimport { useState, useEffect } from 'react';\nimport { ",
          name, "PageSchema } from '@/schemas/", name, "';\n",
          imports, "\n\n", Declaration(name), "\n  ", body, "\n}"], "")
  }

  /** `generatePageContent(name, schema)`: the imports are computed before
      the body, so their error is the one reported. */
  function PageContent(name: string, page: PageSchema): (r: Result<string, Fault>)
  {
    var imports :- Imports(page);
    var body :- PageBody(page);
    Success(ContentText(name, imports, body))
  }

  /** The content fails exactly when the imports fail, with their error: a
      tree the imports accept cannot make the body throw. */
  lemma PageContentFailsWithImports(name: string, page: PageSchema)
    ensures PageContent(name, page).Success? <==> ImportLines(page).Success?
    ensures PageContent(name, page).Failure? ==> PageContent(name, page).error == ImportLines(page).error
  {
    ImportsImplyBody(page);
  }

  lemma ImportsImplyBody(page: PageSchema)
    ensures ImportLines(page).Success? ==> PageBody(page).Success?
  {
    var nodes := AsNodes(page.components);
    PageNodesBelow(page);
    ImportLinesSucceed(page);
    ElementTextsFailOnNull(nodes, Arr(nodes));
  }

  /** The page module declares `<Name>Page` with only the first letter of
      the name upper-cased, and carries the imports and the body. */
  lemma PageContentShape(name: string, page: PageSchema)
    requires PageContent(name, page).Success?
    ensures Contains(PageContent(name, page).value, Declaration(name))
    ensures Contains(PageContent(name, page).value, Imports(page).value)
    ensures Contains(PageContent(name, page).value, PageBody(page).value)
  {
    ContentTextShows(name, Imports(page).value, PageBody(page).value);
  }

  lemma ContentTextShows(name: string, imports: string, body: string)
    ensures Contains(ContentText(name, imports, body), Declaration(name))
    ensures Contains(ContentText(name, imports, body), imports)
    ensures Contains(ContentText(name, imports, body), body)
  {
    var pieces := ["'use client';\n\nimport { useState, useEffect } from 'react';\nimport { ",
          name, "PageSchema } from '@/schemas/", name, "';\n",
          imports, "\n\n", Declaration(name), "\n  ", body, "\n}"];
    JoinContainsEach(pieces, "", 5);
    JoinContainsEach(pieces, "", 7);
    JoinContainsEach(pieces, "", 9);
  }

  // ---------------------------------------------------------------------
  // `generatePage` and `generatePages`.

  /** The install command for a non-empty closure: every unit, space-joined. */
  function InstallCommand(units: seq<string>): string {
    "bun x shadcn@latest add " + Join(units, " ")
  }

  /** `installRequiredComponents` after the traversal: no command for an
      empty closure; otherwise one command, whose failure status
      (`installOk` is false) throws. */
  function InstallRun(units: seq<string>, installOk: string -> bool): Run {
    if units == [] then Done([])
    else
      var command := InstallCommand(units);
      Run([RunCommand(command)], if installOk(command) then None else Some(InstallFailed(command)))
  }

  /** The commands run among `effects`, in order. */
  function Commands(effects: seq<Effect>): seq<string>
    decreases |effects|
  {
    if effects == [] then []
    else (if effects[0].RunCommand? then [effects[0].command] else []) + Commands(effects[1..])
  }

  lemma {:induction false} CommandsAppend(a: seq<Effect>, b: seq<Effect>)
    ensures Commands(a + b) == Commands(a) + Commands(b)
    decreases |a|
  {
    if a != [] {
      assert (a + b)[1..] == a[1..] + b;
      CommandsAppend(a[1..], b);
    } else {
      assert a + b == b;
    }
  }

  /** The steps of `generatePage` once the closure and the content are
      known: create `dir`, install the closure, write `dir/page.tsx`.  Each
      step runs only when the previous one succeeded. */
  function PageRun(dir: Path, closure: Result<seq<string>, Fault>, installOk: string -> bool,
                   content: Result<string, Fault>): (r: Run)
    ensures |r.effects| >= 1 && r.effects[0] == MakeDir(dir)
    ensures r.failure.None? ==> content.Success? && r.effects[|r.effects| - 1] == WriteFile(dir + ["page.tsx"], content.value)
    ensures r.failure.Some? ==> forall i :: 0 <= i < |r.effects| ==> !r.effects[i].WriteFile?
    ensures closure.Failure? ==> r == Run([MakeDir(dir)], Some(closure.error))
  {
    match closure
    case Failure(e) => Run([MakeDir(dir)], Some(e))
    case Success(units) =>
      var written :=
        match content
        case Failure(e) => Run([], Some(e))
        case Success(text) => Done([WriteFile(dir + ["page.tsx"], text)]);
      Then(Done([MakeDir(dir)]), Then(InstallRun(units, installOk), written))
  }

  /** `generatePage(name, schema)` with the page directory `<pagesDir>/<name>`. */
  function GeneratePage(reg: Registry.Registry, installOk: string -> bool, pagesDir: Path,
                        name: string, page: PageSchema): Run
  {
    PageRun(pagesDir + [name], RequiredComponents(reg, page), installOk, PageContent(name, page))
  }

  /** The install command runs at most once, exactly when the closure was
      computed and is non-empty, and names every unit. */
  lemma PageRunInstallsOnce(dir: Path, closure: Result<seq<string>, Fault>, installOk: string -> bool,
                            content: Result<string, Fault>)
    ensures var cmds := Commands(PageRun(dir, closure, installOk, content).effects);
      && |cmds| <= 1
      && (|cmds| == 1 <==> closure.Success? && closure.value != [])
      && (|cmds| == 1 ==> cmds[0] == InstallCommand(closure.value))
      && (|cmds| == 1 ==> forall u :: u in closure.value ==> Contains(cmds[0], u))
  {
    var r := PageRun(dir, closure, installOk, content);
    assert Commands([MakeDir(dir)]) == [];
    if closure.Success? {
      var units := closure.value;
      var install := InstallRun(units, installOk);
      var written :=
        match content
        case Failure(e) => Run([], Some(e))
        case Success(text) => Done([WriteFile(dir + ["page.tsx"], text)]);
      assert Commands(written.effects) == [] by {
        if written.effects != [] {
          assert written.effects[1..] == [];
        }
      }
      var rest := if install.failure.Some? then install.effects else install.effects + written.effects;
      assert r.effects == [MakeDir(dir)] + rest;
      CommandsAppend([MakeDir(dir)], rest);
      CommandsAppend(install.effects, written.effects);
      if units != [] {
        assert Commands(install.effects) == [InstallCommand(units)] by {
          assert install.effects[1..] == [];
        }
        forall u | u in units ensures Contains(InstallCommand(units), u) {
          var k :| 0 <= k < |units| && units[k] == u;
          JoinContainsEach(units, " ", k);
          ContainsWithin("bun x shadcn@latest add ", Join(units, " "), "", u);
          assert "bun x shadcn@latest add " + Join(units, " ") + "" == InstallCommand(units);
        }
      }
    }
  }

  /** Per page: at most one install, run exactly when the dependency closure
      of the tree is non-empty, naming every unit of it. */
  lemma GeneratePageInstallsOnce(reg: Registry.Registry, installOk: string -> bool, pagesDir: Path,
                                 name: string, page: PageSchema)
    ensures var cmds := Commands(GeneratePage(reg, installOk, pagesDir, name, page).effects);
      var closure := RequiredComponents(reg, page);
      && |cmds| <= 1
      && (|cmds| == 1 <==> closure.Success? && closure.value != [])
      && (|cmds| == 1 ==> cmds[0] == InstallCommand(closure.value))
  {
    PageRunInstallsOnce(pagesDir + [name], RequiredComponents(reg, page), installOk, PageContent(name, page));
  }

  /** `generatePages()` over the loaded schemas, in order: a loop without a
      `catch`, so the first failing page ends the batch. */
  function GeneratePages(reg: Registry.Registry, installOk: string -> bool, pagesDir: Path,
                         schemas: seq<(string, PageSchema)>): Run
  {
    RunAll(PageRuns(reg, installOk, pagesDir, schemas))
  }

  function PageRuns(reg: Registry.Registry, installOk: string -> bool, pagesDir: Path,
                    schemas: seq<(string, PageSchema)>): (runs: seq<Run>)
    ensures |runs| == |schemas|
    ensures forall i :: 0 <= i < |schemas| ==> runs[i] == GeneratePage(reg, installOk, pagesDir, schemas[i].0, schemas[i].1)
  {
    seq(|schemas|, i requires 0 <= i < |schemas| => GeneratePage(reg, installOk, pagesDir, schemas[i].0, schemas[i].1))
  }

  /** When page `k` is the first to fail, the batch reports its error and
      performs nothing of the pages after it. */
  lemma GeneratePagesStopsAtFirstFailure(reg: Registry.Registry, installOk: string -> bool, pagesDir: Path,
                                         schemas: seq<(string, PageSchema)>, k: nat)
    requires k < |schemas|
    requires GeneratePage(reg, installOk, pagesDir, schemas[k].0, schemas[k].1).failure.Some?
    requires forall i :: 0 <= i < k ==> GeneratePage(reg, installOk, pagesDir, schemas[i].0, schemas[i].1).failure.None?
    ensures var runs := PageRuns(reg, installOk, pagesDir, schemas);
      GeneratePages(reg, installOk, pagesDir, schemas) == Run(AllEffects(runs[..k + 1]), runs[k].failure)
  {
    RunAllStopsAtFirstFailure(PageRuns(reg, installOk, pagesDir, schemas), k);
  }

  // ---------------------------------------------------------------------
  // What the generator reads of a page.

  /** Two pages the generator cannot tell apart: the same title and, position
      by position, components of the same type and properties. */
  predicate SameView(p: PageSchema, q: PageSchema) {
    && p.title == q.title
    && |p.components| == |q.components|
    && forall i :: 0 <= i < |p.components| ==>
         p.components[i].typeName == q.components[i].typeName && p.components[i].properties == q.components[i].properties
  }

  lemma SameViewSameNodes(p: PageSchema, q: PageSchema)
    requires SameView(p, q)
    ensures AsNodes(p.components) == AsNodes(q.components)
  {
  }

  /** A page's layout and data block, and each top-level component's id,
      region and `children` field, never influence the generated page. */
  lemma OnlyTypeAndPropertiesMatter(reg: Registry.Registry, installOk: string -> bool, pagesDir: Path,
                                    name: string, p: PageSchema, q: PageSchema)
    requires SameView(p, q)
    ensures GeneratePage(reg, installOk, pagesDir, name, p) == GeneratePage(reg, installOk, pagesDir, name, q)
  {
    SameViewSameNodes(p, q);
    assert WalkPage(p) == WalkPage(q);
    assert RequiredComponents(reg, p) == RequiredComponents(reg, q);
    assert ImportLines(p) == ImportLines(q);
    assert PageBody(p) == PageBody(q);
    assert PageContent(name, p) == PageContent(name, q);
  }
}
