/** The JavaScript values the schemas are made of: the JSON values plus
    functions (a column's `cell` may be one), with the two conversions to
    text that the generators rely on — `JSON.stringify` and template-literal
    interpolation. */
module Json {
  import opened Wrappers
  import opened Text

  /** A JavaScript value.  A missing property plays the part of `undefined`;
      numbers are integers; a function is known by its source text. */
  datatype Value =
    | Null
    | Bool(b: bool)
    | Num(n: int)
    | Str(s: string)
    | Func(source: string)
    | Arr(items: seq<Value>)
    | Obj(members: seq<Member>)

  /** One own property of an object, in property order. */
  datatype Member = Member(key: string, val: Value)

  /** `obj[k]`: the value of the first property named `k`, or `undefined`. */
  function Get(ms: seq<Member>, k: string): (r: Option<Value>)
    ensures r.Some? <==> exists j :: 0 <= j < |ms| && ms[j].key == k
    ensures r.Some? ==> exists j :: 0 <= j < |ms| && ms[j] == Member(k, r.value)
    ensures r.Some? ==> r.value < Obj(ms)
    decreases |ms|
  {
    if ms == [] then None
    else if ms[0].key == k then Some(ms[0].val)
    else
      var r := Get(ms[1..], k);
      assert r.Some? ==> exists j :: 0 <= j < |ms| && ms[j] == Member(k, r.value) by {
        if r.Some? {
          var j :| 0 <= j < |ms[1..]| && ms[1..][j] == Member(k, r.value);
          assert ms[j + 1] == Member(k, r.value);
        }
      }
      assert (exists j :: 0 <= j < |ms[1..]| && ms[1..][j].key == k) <==> (exists j :: 0 <= j < |ms| && ms[j].key == k) by {
        if exists j :: 0 <= j < |ms| && ms[j].key == k {
          var j :| 0 <= j < |ms| && ms[j].key == k;
          assert j > 0 && ms[1..][j - 1].key == k;
        }
      }
      r
  }

  /** `k in obj`. */
  predicate HasKey(ms: seq<Member>, k: string) {
    Get(ms, k).Some?
  }

  /** JavaScript truthiness (`if (v)`). */
  predicate Truthy(v: Value) {
    match v
    case Null => false
    case Bool(b) => b
    case Num(n) => n != 0
    case Str(s) => s != ""
    case _ => true
  }

  function Quote(s: string): string {
    "\"" + s + "\""
  }

  /** `JSON.stringify(v)`; `None` is its `undefined` result for a function.
      Strings are quoted without escaping and no indentation is produced. */
  function Stringify(v: Value): (r: Option<string>)
    ensures r.None? <==> v.Func?
    decreases v
  {
    match v
    case Null => Some("null")
    case Bool(b) => Some(if b then "true" else "false")
    case Num(n) => Some(IntToString(n))
    case Str(s) => Some(Quote(s))
    case Func(_) => None
    case Arr(items) => Some("[" + Join(StringifyItems(items), ",") + "]")
    case Obj(ms) => Some("{" + Join(StringifyMembers(ms), ",") + "}")
  }

  /** Array elements: a function element is written `null`. */
  function StringifyItems(items: seq<Value>): (r: seq<string>)
    ensures |r| == |items|
    ensures forall i :: 0 <= i < |items| ==> r[i] == Stringify(items[i]).GetOr("null")
    decreases items
  {
    if items == [] then []
    else [Stringify(items[0]).GetOr("null")] + StringifyItems(items[1..])
  }

  /** Object properties: a function-valued property is left out. */
  function StringifyMembers(ms: seq<Member>): (r: seq<string>)
    ensures |r| <= |ms|
    ensures |r| == |ms| <==> forall j :: 0 <= j < |ms| ==> !ms[j].val.Func?
    decreases ms
  {
    if ms == [] then []
    else
      var rest := StringifyMembers(ms[1..]);
      match Stringify(ms[0].val)
      case None => rest
      case Some(t) => [Quote(ms[0].key) + ":" + t] + rest
  }

  /** The entry a property that is not a function contributes: its quoted
      key, a colon and the JSON of its value. */
  function EntryText(m: Member): string
    requires !m.val.Func?
  {
    Quote(m.key) + ":" + Stringify(m.val).value
  }

  /** How many of the first `j` properties are written, that is, are not
      functions. */
  function WrittenBefore(ms: seq<Member>, j: nat): (n: nat)
    requires j <= |ms|
    ensures n <= j
  {
    if j == 0 then 0
    else WrittenBefore(ms, j - 1) + (if ms[j - 1].val.Func? then 0 else 1)
  }

  /** Counting from the second property shifts the count by what the first
      property contributes. */
  lemma {:induction false} WrittenBeforeTail(ms: seq<Member>, j: nat)
    requires 1 <= j <= |ms|
    ensures WrittenBefore(ms, j) == (if ms[0].val.Func? then 0 else 1) + WrittenBefore(ms[1..], j - 1)
  {
    if j > 1 {
      WrittenBeforeTail(ms, j - 1);
      assert ms[1..][j - 2] == ms[j - 1];
    }
  }

  /** An object is written as the entries of its non-function properties,
      in property order: the property at `j` is the entry at the number of
      non-function properties before it, and there are no other entries. */
  lemma {:induction false} StringifyMembersAt(ms: seq<Member>, j: nat)
    requires j < |ms|
    ensures |StringifyMembers(ms)| == WrittenBefore(ms, |ms|)
    ensures !ms[j].val.Func? ==>
      WrittenBefore(ms, j) < |StringifyMembers(ms)| && StringifyMembers(ms)[WrittenBefore(ms, j)] == EntryText(ms[j])
    decreases |ms|
  {
    WrittenBeforeTail(ms, |ms|);
    if |ms| > 1 {
      StringifyMembersAt(ms[1..], if j == 0 then 0 else j - 1);
    } else {
      assert StringifyMembers(ms[1..]) == [];
    }
    if j > 0 {
      WrittenBeforeTail(ms, j);
      assert ms[1..][j - 1] == ms[j];
    }
  }

  /** `${JSON.stringify(v)}` inside a template literal. */
  function StringifyText(v: Value): string {
    Stringify(v).GetOr("undefined")
  }

  /** `${v}` inside a template literal: strings raw, arrays comma-joined
      (with `null` as the empty string), plain objects `[object Object]`. */
  function Interp(v: Value): string
    decreases v
  {
    match v
    case Null => "null"
    case Bool(b) => if b then "true" else "false"
    case Num(n) => IntToString(n)
    case Str(s) => s
    case Func(src) => src
    case Arr(items) => Join(InterpItems(items), ",")
    case Obj(_) => "[object Object]"
  }

  function InterpItems(items: seq<Value>): (r: seq<string>)
    ensures |r| == |items|
    decreases items
  {
    if items == [] then []
    else [if items[0] == Null then "" else Interp(items[0])] + InterpItems(items[1..])
  }
}
