// JSON values, and the JSON Schema 2020-12 subschemas the type generator reads, with the values each accepts.
module Schemas {
  import opened Wrappers

  datatype Json =
    | Null
    | Bool(b: bool)
    | Num(n: real)
    | Str(s: string)
    | Arr(items: seq<Json>)
    | Obj(fields: map<string, Json>)

  /** `type`: absent, one name, or a list of names. */
  datatype TypeKeyword = NoType | One(name: string) | Many(names: seq<string>)

  /** `false`; `true` (which the generator does not tell from any other non-object); an object. */
  datatype Schema = False | Open | Dict(k: Keywords)

  /** The list under `oneOf`, `anyOf` or `allOf`, when the keyword is there. */
  datatype Operands = Missing | Listed(list: seq<Schema>)

  datatype Property = Property(name: string, schema: Schema)

  /** The object under `properties`, when the keyword is there; the names of a document's object are distinct. */
  datatype Properties = Undeclared | Declared(list: seq<Property>)

  /** A member of `patternProperties`: the names its pattern matches, and the schema of their values. */
  datatype Pattern = Pattern(keys: iset<string>, schema: Schema)

  /** The keywords the generator reads, plus what it ignores: `prefixItems`, `patternProperties`, and `other`, the
      values every remaining keyword accepts. */
  datatype Keywords = Keywords(
    ref: Option<string>,
    constant: Option<Json>,
    enumeration: Option<seq<Json>>,
    oneOf: Operands,
    anyOf: Operands,
    allOf: Operands,
    ty: TypeKeyword,
    prefixItems: seq<Schema>,
    items: Option<Schema>,
    properties: Properties,
    required: seq<string>,
    additional: Option<Schema>,
    patterns: seq<Pattern>,
    other: iset<Json>)

  /** A reference, in the file where it stands. */
  datatype Place = Place(file: string, ref: string)

  /** What it names: a schema, in the file that defines it. */
  datatype Target = Target(file: string, schema: Schema)

  /** What references mean: the file being read, the schemas that references name, and the answer once the unfolding
      budget is spent (or the reference names nothing). */
  datatype Definitions = Definitions(here: string, targets: imap<Place, Target>, base: bool)

  ghost predicate HasType(name: string, v: Json) {
    match name
    case "null" => v.Null?
    case "boolean" => v.Bool?
    case "string" => v.Str?
    case "number" => v.Num?
    case "integer" => v.Num? && v.n.Floor as real == v.n
    case "array" => v.Arr?
    case "object" => v.Obj?
    case _ => false
  }

  ghost predicate TypeAccepts(ty: TypeKeyword, v: Json) {
    match ty
    case NoType => true
    case One(name) => HasType(name, v)
    case Many(names) => exists i :: 0 <= i < |names| && HasType(names[i], v)
  }

  /** Some pattern of `patternProperties` matches the name. */
  ghost predicate Matched(k: Keywords, name: string) {
    exists i :: 0 <= i < |k.patterns| && name in k.patterns[i].keys
  }

  ghost predicate Named(props: seq<Property>, name: string) {
    exists i :: 0 <= i < |props| && props[i].name == name
  }

  /** The named properties: Python's `schema.get("properties", {})`. */
  function Props(k: Keywords): seq<Property> {
    if k.properties.Declared? then k.properties.list else []
  }

  /** `s` accepts `v` when at most `n` references are unfolded on any path. */
  ghost predicate Accepts(n: nat, defs: Definitions, s: Schema, v: Json)
    decreases n, s
  {
    match s
    case False => false
    case Open => true
    case Dict(k) =>
      && v in k.other
      && (k.ref.Some? ==> RefAccepts(n, defs, k, v))
      && (k.constant.Some? ==> v == k.constant.value)
      && (k.enumeration.Some? ==> v in k.enumeration.value)
      && OperandsAccept(n, defs, k, v)
      && TypeAccepts(k.ty, v)
      && (v.Arr? ==> ItemsAccept(n, defs, k, v.items))
      && (v.Obj? ==> MembersAccept(n, defs, k, v.fields))
  }

  /** Core, section 8.2.3.1: a reference is read in the file it stands in, its target in the target's own. */
  ghost predicate RefAccepts(n: nat, defs: Definitions, k: Keywords, v: Json)
    requires k.ref.Some?
    decreases n, k
  {
    var place := Place(defs.here, k.ref.value);
    if place in defs.targets && n > 0 then
      Accepts(n - 1, defs.(here := defs.targets[place].file), defs.targets[place].schema, v)
    else defs.base
  }

  /** Core, section 10.2.1. */
  ghost predicate OperandsAccept(n: nat, defs: Definitions, k: Keywords, v: Json)
    decreases n, k
  {
    && (k.oneOf.Listed? ==>
          exists i :: && 0 <= i < |k.oneOf.list|
                      && Accepts(n, defs, k.oneOf.list[i], v)
                      && forall j :: 0 <= j < |k.oneOf.list| && j != i ==> !Accepts(n, defs, k.oneOf.list[j], v))
    && (k.anyOf.Listed? ==> exists i :: 0 <= i < |k.anyOf.list| && Accepts(n, defs, k.anyOf.list[i], v))
    && (k.allOf.Listed? ==> forall i :: 0 <= i < |k.allOf.list| ==> Accepts(n, defs, k.allOf.list[i], v))
  }

  /** Core, sections 10.3.1.1 and 10.3.1.2: `items` constrains only what `prefixItems` leaves. */
  ghost predicate ItemsAccept(n: nat, defs: Definitions, k: Keywords, items: seq<Json>)
    decreases n, k
  {
    && (forall i :: 0 <= i < |items| && i < |k.prefixItems| ==> Accepts(n, defs, k.prefixItems[i], items[i]))
    && (k.items.Some? ==>
          forall i :: |k.prefixItems| <= i < |items| ==> Accepts(n, defs, k.items.value, items[i]))
  }

  /** Core, sections 10.3.2.1 to 10.3.2.3, and `required` (Validation, section 6.5.3). */
  ghost predicate MembersAccept(n: nat, defs: Definitions, k: Keywords, fields: map<string, Json>)
    decreases n, k
  {
    && (forall i :: 0 <= i < |k.required| ==> k.required[i] in fields)
    && (k.properties.Declared? ==>
          forall i :: 0 <= i < |k.properties.list| && k.properties.list[i].name in fields ==>
            Accepts(n, defs, k.properties.list[i].schema, fields[k.properties.list[i].name]))
    && (forall i, name :: 0 <= i < |k.patterns| && name in fields && name in k.patterns[i].keys ==>
          Accepts(n, defs, k.patterns[i].schema, fields[name]))
    && (k.additional.Some? ==>
          forall name :: name in fields && !Named(Props(k), name) && !Matched(k, name) ==>
            Accepts(n, defs, k.additional.value, fields[name]))
  }
}
