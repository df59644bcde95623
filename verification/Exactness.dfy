// Where the emitted type narrows the schema, exactly when; and a fragment where it is the schema, exactly.
module Exactness {
  import opened Wrappers
  import opened Schemas
  import opened TypeTexts
  import opened Emitters
  import opened Soundness

  /** No keyword at all. */
  ghost const BARE := Keywords(None, None, None, Missing, Missing, Missing, NoType, [], None, Undeclared, [], None,
                               [], iset v: Json | true)

  /** Every accepted value inhabits the emitted type. */
  ghost predicate Sound(n: nat, e: Emitter, defs: Definitions, decls: Declarations, s: Schema) {
    forall v :: Accepts(n, defs, s, v) ==> Inhabits(n, decls, e.TypeOf(s), v)
  }

  /** A dictionary whose text comes from `type` and the keywords under it. */
  predicate Typed(e: Emitter, k: Keywords) {
    k.ref.None? && k.constant.None? && k.enumeration.None? && ComposeBlank(e, k)
  }

  lemma TypedText(e: Emitter, k: Keywords)
    requires Typed(e, k)
    ensures e.TypeOf(Dict(k)) == e.TypedOf(k)
    ensures Printable(e, Dict(k)) <==> PrintableTyped(e, k)
    ensures k.ty == One("object") || (k.ty.NoType? && k.properties.Declared?) ==>
              e.TypeOf(Dict(k)) == [A(e.ObjectOf(k))]
    ensures k.ty == One("array") && k.items.Some? ==> e.TypeOf(Dict(k)) == [A(ArrayOf(e.TypeOf(k.items.value)))]
    ensures k.ty == One("array") && k.items.None? ==> e.TypeOf(Dict(k)) == [A(ArrayOf([A(Unknown)]))]
    ensures forall name :: name in PRIMITIVES && k.ty == One(name) ==> e.TypeOf(Dict(k)) == [A(PRIMITIVES[name])]
  {
    ComposeBlankIsEmpty(e, k);
  }

  /** What a dictionary accepts when only `type` and the keywords under it are there. */
  lemma TypedAccepts(n: nat, defs: Definitions, k: Keywords, v: Json)
    requires k == BARE.(ty := k.ty, prefixItems := k.prefixItems, items := k.items, properties := k.properties,
                        required := k.required, additional := k.additional, patterns := k.patterns)
    ensures Accepts(n, defs, Dict(k), v) <==>
              && TypeAccepts(k.ty, v)
              && (v.Arr? ==> ItemsAccept(n, defs, k, v.items))
              && (v.Obj? ==> MembersAccept(n, defs, k, v.fields))
  {}

  // ------------------------------------------------------------------ the three shapes that narrow

  /** `properties` without `type`: JSON Schema lets every non-object through, the emitted type none. */
  lemma {:induction false} TypelessPropertiesSoundness(n: nat, w: World, e: Emitter, refs: iset<string>,
                                                       defs: Definitions,
                                                       decls: Declarations, k: Keywords)
    requires Linked(w, e, refs, defs, decls) && Printable(e, Dict(k)) && CleanAs(e, refs, k, "object")
    requires Typed(e, k) && k.ty.NoType? && k.properties.Declared?
    ensures Sound(n, e, defs, decls, Dict(k)) <==> forall v :: Accepts(n, defs, Dict(k), v) ==> v.Obj?
  {
    TypedText(e, k);
    assert PrintableAs(e, k, Some("object"));
    forall v | Accepts(n, defs, Dict(k), v) ensures Inhabits(n, decls, e.TypeOf(Dict(k)), v) <==> v.Obj? {
      OneAtom(n, decls, e.ObjectOf(k), v);
      if v.Obj? { ObjectAdmits(n, w, e, refs, defs, decls, k, v); }
    }
  }

  predicate DistinctNames(props: seq<Property>) {
    forall i, j :: 0 <= i < j < |props| ==> props[i].name != props[j].name
  }

  /** An object schema of members, patterns, `required` and `additionalProperties`, whatever else it says of values that
      are not objects, with an index line of a type of its own. */
  ghost predicate Indexed(e: Emitter, refs: iset<string>, k: Keywords) {
    && k == BARE.(ty := One("object"), properties := k.properties, required := k.required, additional := k.additional,
                  patterns := k.patterns, items := k.items, prefixItems := k.prefixItems)
    && k.additional.Some? && !k.additional.value.Open? && e.IndexOf(k).Values?
    && Clean(e, refs, k.additional.value, false) && DistinctNames(Props(k))
    && forall i :: 0 <= i < |Props(k)| ==> Clean(e, refs, Props(k)[i].schema, false)
  }

  /** The schema lets a member of this name have this value: the member of `properties` it is, every pattern it matches,
      and `additionalProperties` when it is neither. */
  ghost predicate MemberAccepts(n: nat, defs: Definitions, k: Keywords, name: string, v: Json) {
    && (forall i :: 0 <= i < |Props(k)| && Props(k)[i].name == name ==> Accepts(n, defs, Props(k)[i].schema, v))
    && (forall i :: 0 <= i < |k.patterns| && name in k.patterns[i].keys ==> Accepts(n, defs, k.patterns[i].schema, v))
    && (k.additional.Some? && !Named(Props(k), name) && !Matched(k, name) ==> Accepts(n, defs, k.additional.value, v))
  }

  lemma MembersOneByOne(n: nat, defs: Definitions, k: Keywords, fields: map<string, Json>)
    ensures MembersAccept(n, defs, k, fields) <==>
              && (forall i :: 0 <= i < |k.required| ==> k.required[i] in fields)
              && (forall name :: name in fields ==> MemberAccepts(n, defs, k, name, fields[name]))
  {
    hide Accepts;
    if forall name :: name in fields ==> MemberAccepts(n, defs, k, name, fields[name]) {
      forall i | k.properties.Declared? && 0 <= i < |k.properties.list| && k.properties.list[i].name in fields
        ensures Accepts(n, defs, k.properties.list[i].schema, fields[k.properties.list[i].name])
      {
        assert MemberAccepts(n, defs, k, Props(k)[i].name, fields[Props(k)[i].name]);
      }
    }
  }

  /** A member of this name can have some value. */
  ghost predicate Possible(n: nat, defs: Definitions, k: Keywords, name: string) {
    exists v :: MemberAccepts(n, defs, k, name, v)
  }

  /** Some name that is required can have no value: the schema accepts no object. */
  ghost predicate Impossible(n: nat, defs: Definitions, k: Keywords) {
    exists i :: 0 <= i < |k.required| && !Possible(n, defs, k, k.required[i])
  }

  /** The index line binds named members and pattern-matched members too; the schema's `additionalProperties` does not.
      It does no harm when it admits whatever each of those members may be. */
  ghost predicate IndexHarmless(n: nat, e: Emitter, defs: Definitions, decls: Declarations, k: Keywords)
    requires k.additional.Some?
  {
    forall name, v :: (Named(Props(k), name) || Matched(k, name)) && MemberAccepts(n, defs, k, name, v) ==>
      Inhabits(n, decls, e.TypeOf(k.additional.value), v)
  }

  lemma {:induction false} IndexLineSoundness(n: nat, w: World, e: Emitter, refs: iset<string>, defs: Definitions,
                                              decls: Declarations, k: Keywords)
    requires Linked(w, e, refs, defs, decls) && Printable(e, Dict(k)) && Indexed(e, refs, k)
    ensures Sound(n, e, defs, decls, Dict(k)) <==> Impossible(n, defs, k) || IndexHarmless(n, e, defs, decls, k)
  {
    if Sound(n, e, defs, decls, Dict(k)) && !Impossible(n, defs, k) {
      forall name, v | (Named(Props(k), name) || Matched(k, name)) && MemberAccepts(n, defs, k, name, v)
        ensures Inhabits(n, decls, e.TypeOf(k.additional.value), v)
      {
        MemberMustInhabit(n, e, refs, defs, decls, k, name, v);
      }
    }
    if Impossible(n, defs, k) || IndexHarmless(n, e, defs, decls, k) {
      forall v | Accepts(n, defs, Dict(k), v) ensures Inhabits(n, decls, e.TypeOf(Dict(k)), v) {
        ImpossibleAcceptsNothing(n, defs, k, v);
        HarmlessIndexAdmits(n, w, e, refs, defs, decls, k, v);
      }
    }
  }

  lemma ImpossibleAcceptsNothing(n: nat, defs: Definitions, k: Keywords, v: Json)
    requires Accepts(n, defs, Dict(k), v) && k.ty == One("object")
    ensures !Impossible(n, defs, k)
  {
    MembersOneByOne(n, defs, k, v.fields);
    hide MemberAccepts;
    forall i | 0 <= i < |k.required| ensures Possible(n, defs, k, k.required[i]) {
      assert MemberAccepts(n, defs, k, k.required[i], v.fields[k.required[i]]);
    }
  }

  /** Values for the first `i` required names. */
  ghost function Witnesses(n: nat, defs: Definitions, k: Keywords, i: nat): (fields: map<string, Json>)
    requires i <= |k.required| && !Impossible(n, defs, k)
    ensures forall j :: 0 <= j < i ==> k.required[j] in fields
    ensures forall name :: name in fields ==> MemberAccepts(n, defs, k, name, fields[name])
  {
    if i == 0 then map[]
    else
      assert Possible(n, defs, k, k.required[i - 1]);
      var v :| MemberAccepts(n, defs, k, k.required[i - 1], v);
      Witnesses(n, defs, k, i - 1)[k.required[i - 1] := v]
  }

  /** An accepted object with this member, and with one value for each name that is required. */
  lemma SomeObjectHas(n: nat, e: Emitter, refs: iset<string>, defs: Definitions, k: Keywords, name: string, v: Json)
    returns (example: Json)
    requires Indexed(e, refs, k) && !Impossible(n, defs, k) && MemberAccepts(n, defs, k, name, v)
    ensures example.Obj? && name in example.fields && example.fields[name] == v && Accepts(n, defs, Dict(k), example)
  {
    hide MemberAccepts, MembersAccept, ItemsAccept, Clean, Accepts, Props, DistinctNames, Matched;
    var fields := Witnesses(n, defs, k, |k.required|)[name := v];
    example := Obj(fields);
    TypedAccepts(n, defs, k, example);
    MembersOneByOne(n, defs, k, fields);
    assert forall i :: 0 <= i < |k.required| ==> k.required[i] in fields;
  }

  lemma MemberMustInhabit(n: nat, e: Emitter, refs: iset<string>, defs: Definitions, decls: Declarations, k: Keywords,
                          name: string, v: Json)
    requires Indexed(e, refs, k) && Sound(n, e, defs, decls, Dict(k)) && !Impossible(n, defs, k)
    requires MemberAccepts(n, defs, k, name, v)
    ensures Inhabits(n, decls, e.TypeOf(k.additional.value), v)
  {
    var example := SomeObjectHas(n, e, refs, defs, k, name, v);
    TypedText(e, k);
    hide Accepts, Clean, Props, DistinctNames, MemberAccepts, Impossible;
    assert Inhabits(n, decls, e.TypeOf(Dict(k)), example);
    OneAtom(n, decls, e.ObjectOf(k), example);
    assert e.IndexOf(k) == Values(e.TypeOf(k.additional.value));
    assert name in example.fields && example.fields[name] == v;
  }

  lemma {:induction false} HarmlessIndexAdmits(n: nat, w: World, e: Emitter, refs: iset<string>, defs: Definitions,
                                               decls: Declarations, k: Keywords, v: Json)
    requires Linked(w, e, refs, defs, decls) && Printable(e, Dict(k)) && Indexed(e, refs, k)
    requires IndexHarmless(n, e, defs, decls, k) && Accepts(n, defs, Dict(k), v)
    ensures Inhabits(n, decls, e.TypeOf(Dict(k)), v)
  {
    TypedText(e, k);
    OneAtom(n, decls, e.ObjectOf(k), v);
    MembersOneByOne(n, defs, k, v.fields);
    assert PrintableAs(e, k, Some("object"));
    assert MembersAccept(n, defs, k, v.fields);
    assert e.IndexOf(k) == Values(e.TypeOf(k.additional.value));
    hide Accepts, MemberAccepts, MembersAccept, Clean, Indexed, IndexHarmless, Matched;
    forall name | name in v.fields
      ensures Inhabits(n, decls, e.TypeOf(k.additional.value), v.fields[name])
      ensures forall i :: 0 <= i < |Props(k)| && Props(k)[i].name == name ==>
                Inhabits(n, decls, e.TypeOf(Props(k)[i].schema), v.fields[name])
    {
      MemberAdmitted(n, w, e, refs, defs, decls, k, name, v.fields[name]);
    }
  }

  lemma MemberAdmitted(n: nat, w: World, e: Emitter, refs: iset<string>, defs: Definitions, decls: Declarations,
                       k: Keywords, name: string, v: Json)
    requires Linked(w, e, refs, defs, decls) && Indexed(e, refs, k) && IndexHarmless(n, e, defs, decls, k)
    requires PrintableAs(e, k, Some("object")) && MemberAccepts(n, defs, k, name, v)
    ensures Inhabits(n, decls, e.TypeOf(k.additional.value), v)
    ensures forall i :: 0 <= i < |Props(k)| && Props(k)[i].name == name ==>
              Inhabits(n, decls, e.TypeOf(Props(k)[i].schema), v)
  {
    hide Inhabits, Accepts, Linked;
    forall i | 0 <= i < |Props(k)| && Props(k)[i].name == name
      ensures Inhabits(n, decls, e.TypeOf(Props(k)[i].schema), v)
    {
      EmittedTypeAdmits(n, w, e, refs, defs, decls, Props(k)[i].schema, false, v);
    }
    if !Named(Props(k), name) && !Matched(k, name) {
      EmittedTypeAdmits(n, w, e, refs, defs, decls, k.additional.value, false, v);
    }
  }

  ghost predicate Satisfiable(n: nat, defs: Definitions, s: Schema) {
    exists v :: Accepts(n, defs, s, v)
  }

  /** The first `i` positions of `prefixItems` can all be filled. */
  ghost predicate Fillable(n: nat, defs: Definitions, prefix: seq<Schema>, i: nat)
    requires i <= |prefix|
  {
    forall j :: 0 <= j < i ==> Satisfiable(n, defs, prefix[j])
  }

  /** Whatever a reachable prefix position accepts, the item type admits. */
  ghost predicate PrefixHarmless(n: nat, e: Emitter, defs: Definitions, decls: Declarations, k: Keywords)
    requires k.items.Some?
  {
    forall i, v :: 0 <= i < |k.prefixItems| && Fillable(n, defs, k.prefixItems, i) ==>
      (Accepts(n, defs, k.prefixItems[i], v) ==> Inhabits(n, decls, e.TypeOf(k.items.value), v))
  }

  /** An array schema of prefix and further items, whatever it says of objects: `items` binds only what follows
      `prefixItems`, the emitted `Array<...>` every item. */
  ghost predicate Tuple(e: Emitter, refs: iset<string>, k: Keywords) {
    && k == BARE.(ty := One("array"), items := k.items, prefixItems := k.prefixItems, properties := k.properties,
                  required := k.required, additional := k.additional, patterns := k.patterns)
    && k.items.Some? && Clean(e, refs, k.items.value, false)
  }

  lemma {:induction false} PrefixItemsSoundness(n: nat, w: World, e: Emitter, refs: iset<string>, defs: Definitions,
                                                decls: Declarations, k: Keywords)
    requires Linked(w, e, refs, defs, decls) && Printable(e, Dict(k)) && Tuple(e, refs, k)
    ensures Sound(n, e, defs, decls, Dict(k)) <==> PrefixHarmless(n, e, defs, decls, k)
  {
    if Sound(n, e, defs, decls, Dict(k)) {
      forall i, v | 0 <= i < |k.prefixItems| && Fillable(n, defs, k.prefixItems, i)
        ensures Accepts(n, defs, k.prefixItems[i], v) ==> Inhabits(n, decls, e.TypeOf(k.items.value), v)
      {
        if Accepts(n, defs, k.prefixItems[i], v) { PrefixItem(n, w, e, refs, defs, decls, k, i, v); }
      }
    }
    if PrefixHarmless(n, e, defs, decls, k) {
      forall v | Accepts(n, defs, Dict(k), v) ensures Inhabits(n, decls, e.TypeOf(Dict(k)), v) {
        HarmlessPrefixAdmits(n, w, e, refs, defs, decls, k, v);
      }
    }
  }

  lemma PrefixItem(n: nat, w: World, e: Emitter, refs: iset<string>, defs: Definitions, decls: Declarations,
                   k: Keywords,
                   i: nat, v: Json)
    requires Tuple(e, refs, k) && Sound(n, e, defs, decls, Dict(k))
    requires i < |k.prefixItems| && Fillable(n, defs, k.prefixItems, i) && Accepts(n, defs, k.prefixItems[i], v)
    ensures Inhabits(n, decls, e.TypeOf(k.items.value), v)
  {
    var before := seq(i, j requires 0 <= j < i => var w :| Accepts(n, defs, k.prefixItems[j], w); w);
    var tuple := Arr(before + [v]);
    TypedAccepts(n, defs, k, tuple);
    TypedText(e, k);
    assert Inhabits(n, decls, e.TypeOf(Dict(k)), tuple);
    OneAtom(n, decls, ArrayOf(e.TypeOf(k.items.value)), tuple);
    assert tuple.items[i] == v;
  }

  lemma {:induction false} HarmlessPrefixAdmits(n: nat, w: World, e: Emitter, refs: iset<string>, defs: Definitions,
                                                decls: Declarations, k: Keywords, v: Json)
    requires Linked(w, e, refs, defs, decls) && Printable(e, Dict(k)) && Tuple(e, refs, k)
    requires PrefixHarmless(n, e, defs, decls, k) && Accepts(n, defs, Dict(k), v)
    ensures Inhabits(n, decls, e.TypeOf(Dict(k)), v)
  {
    TypedText(e, k);
    TypedAccepts(n, defs, k, v);
    OneAtom(n, decls, ArrayOf(e.TypeOf(k.items.value)), v);
    forall i | 0 <= i < |v.items| ensures Inhabits(n, decls, e.TypeOf(k.items.value), v.items[i]) {
      if i < |k.prefixItems| {
        forall j | 0 <= j < i ensures Satisfiable(n, defs, k.prefixItems[j]) {
          assert Accepts(n, defs, k.prefixItems[j], v.items[j]);
        }
        assert Fillable(n, defs, k.prefixItems, i) && Accepts(n, defs, k.prefixItems[i], v.items[i]);
      } else {
        EmittedTypeAdmits(n, w, e, refs, defs, decls, k.items.value, false, v.items[i]);
      }
    }
  }

  ghost function Primitive(name: string): Schema {
    Dict(BARE.(ty := One(name)))
  }

  lemma PrimitiveMeaning(n: nat, e: Emitter, defs: Definitions, decls: Declarations, name: string, v: Json)
    requires name in PRIMITIVES
    ensures Accepts(n, defs, Primitive(name), v) <==> HasType(name, v)
    ensures Inhabits(n, decls, e.TypeOf(Primitive(name)), v) <==> InAtom(n, decls, PRIMITIVES[name], v)
  {
    TypedText(e, Primitive(name).k);
    TypedAccepts(n, defs, Primitive(name).k, v);
    OneAtom(n, decls, PRIMITIVES[name], v);
  }

  // One input for each: accepted, and outside the emitted type.

  /** A number, under `properties` alone. */
  lemma TypelessExample(n: nat, e: Emitter, defs: Definitions, decls: Declarations)
    ensures var s := Dict(BARE.(properties := Declared([Property("a", Primitive("string"))])));
            Accepts(n, defs, s, Num(3.0)) && !Inhabits(n, decls, e.TypeOf(s), Num(3.0))
  {
    var k := BARE.(properties := Declared([Property("a", Primitive("string"))]));
    TypedText(e, k);
    TypedAccepts(n, defs, k, Num(3.0));
    OneAtom(n, decls, e.ObjectOf(k), Num(3.0));
  }

  lemma IndexRejects(n: nat, decls: Declarations, atom: Atom, v: Json, name: string)
    requires atom.ObjectType? && atom.index.Values? && v.Obj? && name in v.fields
    requires !Inhabits(n, decls, atom.index.ty, v.fields[name])
    ensures !Inhabits(n, decls, [A(atom)], v)
  {
    OneAtom(n, decls, atom, v);
  }

  lemma ItemsReject(n: nat, decls: Declarations, elem: Text, v: Json, i: nat)
    requires v.Arr? && i < |v.items| && !Inhabits(n, decls, elem, v.items[i])
    ensures !Inhabits(n, decls, [A(ArrayOf(elem))], v)
  {
    OneAtom(n, decls, ArrayOf(elem), v);
  }

  lemma NamedMemberRejected(n: nat, e: Emitter, defs: Definitions, decls: Declarations, name: string, member: Schema,
                            extra: Schema, v: Json)
    requires !extra.Open? && !extra.False?
    requires Accepts(n, defs, member, v) && !Inhabits(n, decls, e.TypeOf(extra), v)
    ensures var s := Dict(BARE.(ty := One("object"), properties := Declared([Property(name, member)]),
                                additional := Some(extra)));
            Accepts(n, defs, s, Obj(map[name := v])) && !Inhabits(n, decls, e.TypeOf(s), Obj(map[name := v]))
  {
    var props := [Property(name, member)];
    var k := BARE.(ty := One("object"), properties := Declared(props), additional := Some(extra));
    assert Props(k) == props && props[0].name == name && Named(props, name);
    TypedAccepts(n, defs, k, Obj(map[name := v]));
    TypedText(e, k);
    IndexRejects(n, decls, e.ObjectOf(k), Obj(map[name := v]), name);
  }

  /** A named string beside numeric extra members. */
  lemma IndexLineExample(n: nat, e: Emitter, defs: Definitions, decls: Declarations)
    ensures var s := Dict(BARE.(ty := One("object"), properties := Declared([Property("a", Primitive("string"))]),
                                additional := Some(Primitive("number"))));
            && Accepts(n, defs, s, Obj(map["a" := Str("x")]))
            && !Inhabits(n, decls, e.TypeOf(s), Obj(map["a" := Str("x")]))
  {
    PrimitiveMeaning(n, e, defs, decls, "string", Str("x"));
    PrimitiveMeaning(n, e, defs, decls, "number", Str("x"));
    NamedMemberRejected(n, e, defs, decls, "a", Primitive("string"), Primitive("number"), Str("x"));
  }

  /** A string ahead of numeric items. */
  lemma PrefixItemsExample(n: nat, e: Emitter, defs: Definitions, decls: Declarations)
    ensures var s := Dict(BARE.(ty := One("array"), prefixItems := [Primitive("string")],
                                items := Some(Primitive("number"))));
            Accepts(n, defs, s, Arr([Str("x")])) && !Inhabits(n, decls, e.TypeOf(s), Arr([Str("x")]))
  {
    var k := BARE.(ty := One("array"), prefixItems := [Primitive("string")], items := Some(Primitive("number")));
    var v := Arr([Str("x")]);
    TypedAccepts(n, defs, k, v);
    TypedText(e, k);
    hide Accepts, Inhabits;
    PrimitiveMeaning(n, e, defs, decls, "string", Str("x"));
    PrimitiveMeaning(n, e, defs, decls, "number", Str("x"));
    ItemsReject(n, decls, e.TypeOf(Primitive("number")), v, 0);
  }

  // ------------------------------------------------------------------ where the type is the schema

  predicate Scalar(v: Json) {
    !v.Arr? && !v.Obj?
  }

  /** Type names whose printed atom means the same; `integer` prints `number`. */
  predicate Faithful(name: string) {
    name in PRIMITIVES && name != "integer"
  }

  /** A schema of one printable keyword group at each level, whose operands under `allOf` print no top-level `|`. */
  ghost predicate Plain(e: Emitter, refs: iset<string>, s: Schema)
    decreases s
  {
    s.Dict? ==>
      if s.k.ref.Some? then
        s.k == BARE.(ref := s.k.ref) && s.k.ref.value in refs && e.RefName(s.k.ref.value) !in {"", "unknown"}
      else if s.k.constant.Some? then s.k == BARE.(constant := s.k.constant) && Scalar(s.k.constant.value)
      else if s.k.enumeration.Some? then
        && s.k == BARE.(enumeration := s.k.enumeration) && s.k.enumeration.value != []
        && forall i :: 0 <= i < |s.k.enumeration.value| ==> Scalar(s.k.enumeration.value[i])
      else if s.k.anyOf.Listed? then
        && s.k == BARE.(anyOf := s.k.anyOf) && s.k.anyOf.list != []
        && forall i :: 0 <= i < |s.k.anyOf.list| ==> Plain(e, refs, s.k.anyOf.list[i])
      else if s.k.allOf.Listed? then
        && s.k == BARE.(allOf := s.k.allOf) && s.k.allOf.list != []
        && forall i :: 0 <= i < |s.k.allOf.list| ==>
          Plain(e, refs, s.k.allOf.list[i]) && Single(e.TypeOf(s.k.allOf.list[i]))
      else PlainTyped(e, refs, s.k)
  }

  ghost predicate PlainTyped(e: Emitter, refs: iset<string>, k: Keywords)
    decreases k
  {
    match k.ty
    case NoType => k == BARE
    case Many(names) => k == BARE.(ty := k.ty) && names != [] && forall i :: 0 <= i < |names| ==> Faithful(names[i])
    case One(name) =>
      if name == "array" then
        k == BARE.(ty := k.ty, items := k.items) && (k.items.Some? ==> Plain(e, refs, k.items.value))
      else if name == "object" then
        && k == BARE.(ty := k.ty, properties := k.properties, required := k.required, additional := k.additional)
        && (k.properties.Declared? ==>
              forall i :: 0 <= i < |k.properties.list| ==> Plain(e, refs, k.properties.list[i].schema))
        && (forall i :: 0 <= i < |k.required| ==> Named(Props(k), k.required[i]))
        && (k.additional.Some? ==> k.additional.value.Open? || (Props(k) == [] && Plain(e, refs, k.additional.value)))
      else k == BARE.(ty := k.ty) && Faithful(name)
  }

  lemma {:induction false} PlainIsPrintable(e: Emitter, refs: iset<string>, s: Schema)
    requires Plain(e, refs, s)
    ensures Printable(e, s)
    decreases s
  {
    if s.Dict? && s.k.ref.None? && s.k.constant.None? && s.k.enumeration.None? {
      var k := s.k;
      if k.anyOf.Listed? || k.allOf.Listed? {
        var list := Chosen(k).list;
        forall i | 0 <= i < |list| ensures Printable(e, list[i]) { PlainIsPrintable(e, refs, list[i]); }
        if |list| == 1 { PrintableIsNotBlank(e, list[0]); }
      } else {
        PlainTypedIsPrintable(e, refs, k);
      }
    }
  }

  lemma {:induction false} PlainTypedIsPrintable(e: Emitter, refs: iset<string>, k: Keywords)
    requires PlainTyped(e, refs, k)
    ensures PrintableTyped(e, k) && Typed(e, k)
    decreases k
  {
    match k.ty
    case NoType =>
    case Many(names) =>
    case One(name) =>
      if name == "array" {
        if k.items.Some? { PlainIsPrintable(e, refs, k.items.value); }
      } else if name == "object" {
        if k.additional.Some? { PlainIsPrintable(e, refs, k.additional.value); }
        if k.properties.Declared? {
          forall i | 0 <= i < |k.properties.list| ensures Printable(e, k.properties.list[i].schema) {
            PlainIsPrintable(e, refs, k.properties.list[i].schema);
          }
        }
        assert PrintableAs(e, k, Some("object"));
      }
  }

  lemma PrintableIsNotBlank(e: Emitter, s: Schema)
    requires Printable(e, s)
    ensures !Blank(e, s)
  {
    TextIsAType(e, s);
    BlankIsEmpty(e, s);
  }

  lemma ScalarLiteral(l: Json, v: Json)
    requires Scalar(l)
    ensures LiteralAdmits(l, v) <==> l == v
  {}

  ghost predicate PlainLinked(w: World, e: Emitter, refs: iset<string>, defs: Definitions, decls: Declarations) {
    && Linked(w, e, refs, defs, decls)
    && forall file, r :: r in w.refs(file) ==>
         LinkedAt(w, defs, decls, file, r)
         && var target := defs.targets[Place(file, r)];
            Plain(w.emitters(target.file), w.refs(target.file), target.schema)
  }

  /** On plain schemas over plain references the emitted type is exact: it admits what the schema accepts, no more. */
  lemma {:induction false} EmittedTypeIsExact(n: nat, w: World, e: Emitter, refs: iset<string>, defs: Definitions,
                                              decls: Declarations, s: Schema, v: Json)
    requires PlainLinked(w, e, refs, defs, decls) && Plain(e, refs, s)
    ensures Inhabits(n, decls, e.TypeOf(s), v) <==> Accepts(n, defs, s, v)
    decreases n, s, 1
  {
    match s
    case False => OneAtom(n, decls, Never, v);
    case Open => OneAtom(n, decls, Unknown, v);
    case Dict(k) =>
      if k.ref.Some? {
        var r := k.ref.value;
        OnlyRefAccepts(n, defs, k, v);
        OneAtom(n, decls, Name(e.RefName(r)), v);
        assert LinkedAt(w, defs, decls, defs.here, r);
        if n > 0 {
          var t := defs.targets[Place(defs.here, r)];
          PlainLinkedElsewhere(w, e, refs, defs, decls, t.file);
          EmittedTypeIsExact(n - 1, w, w.emitters(t.file), w.refs(t.file), defs.(here := t.file), decls, t.schema, v);
        }
      } else if k.constant.Some? {
        ScalarAccepts(n, defs, k, v);
        OneAtom(n, decls, Literal(k.constant.value), v);
        ScalarLiteral(k.constant.value, v);
      } else if k.enumeration.Some? {
        ScalarAccepts(n, defs, k, v);
        EnumerationIsExact(n, decls, k.enumeration.value, v);
      } else if k.anyOf.Listed? || k.allOf.Listed? {
        ComposedIsExact(n, w, e, refs, defs, decls, k, v);
      } else {
        PlainTypedIsPrintable(e, refs, k);
        TypedText(e, k);
        TypedIsExact(n, w, e, refs, defs, decls, k, v);
      }
  }

  lemma PlainLinkedElsewhere(w: World, e: Emitter, refs: iset<string>, defs: Definitions, decls: Declarations,
                             file: string)
    requires PlainLinked(w, e, refs, defs, decls)
    ensures PlainLinked(w, w.emitters(file), w.refs(file), defs.(here := file), decls)
  {
    LinkedElsewhere(w, e, refs, defs, decls, file);
    var there := defs.(here := file);
    forall other, r | r in w.refs(other)
      ensures LinkedAt(w, there, decls, other, r)
      ensures var target := there.targets[Place(other, r)];
              Plain(w.emitters(target.file), w.refs(target.file), target.schema)
    {
      assert LinkedAt(w, defs, decls, other, r);
    }
  }

  lemma OnlyRefAccepts(n: nat, defs: Definitions, k: Keywords, v: Json)
    requires k == BARE.(ref := k.ref) && k.ref.Some?
    ensures Accepts(n, defs, Dict(k), v) <==> RefAccepts(n, defs, k, v)
  {}

  lemma ScalarAccepts(n: nat, defs: Definitions, k: Keywords, v: Json)
    requires k == BARE.(constant := k.constant) || k == BARE.(enumeration := k.enumeration)
    ensures Accepts(n, defs, Dict(k), v) <==>
              (k.constant.Some? ==> v == k.constant.value) && (k.enumeration.Some? ==> v in k.enumeration.value)
  {}

  lemma ComposedAccepts(n: nat, defs: Definitions, k: Keywords, v: Json)
    requires k == BARE.(anyOf := k.anyOf) || k == BARE.(allOf := k.allOf)
    ensures Accepts(n, defs, Dict(k), v) <==>
              && (k.anyOf.Listed? ==> exists i :: 0 <= i < |k.anyOf.list| && Accepts(n, defs, k.anyOf.list[i], v))
              && (k.allOf.Listed? ==> forall i :: 0 <= i < |k.allOf.list| ==> Accepts(n, defs, k.allOf.list[i], v))
  {}

  lemma EnumerationIsExact(n: nat, decls: Declarations, values: seq<Json>, v: Json)
    requires values != [] && forall i :: 0 <= i < |values| ==> Scalar(values[i])
    ensures Inhabits(n, decls, Join(Bar, Literals(values)), v) <==> v in values
  {
    UnionMeaning(n, decls, Literals(values), v);
    forall i | 0 <= i < |values| ensures Inhabits(n, decls, Literals(values)[i], v) <==> values[i] == v {
      OneAtom(n, decls, Literal(values[i]), v);
      ScalarLiteral(values[i], v);
    }
  }

  lemma {:induction false} ComposedIsExact(n: nat, w: World, e: Emitter, refs: iset<string>, defs: Definitions,
                                           decls: Declarations, k: Keywords, v: Json)
    requires PlainLinked(w, e, refs, defs, decls) && Plain(e, refs, Dict(k)) && (k.anyOf.Listed? || k.allOf.Listed?)
    requires k.ref.None? && k.constant.None? && k.enumeration.None?
    ensures Inhabits(n, decls, e.TypeOf(Dict(k)), v) <==> Accepts(n, defs, Dict(k), v)
    decreases n, Dict(k), 0
  {
    var list := Chosen(k).list;
    var parts := e.TypesOf(list);
    forall i | 0 <= i < |list|
      ensures Reread(parts[i]).Some? && (Inhabits(n, decls, parts[i], v) <==> Accepts(n, defs, list[i], v))
    {
      PlainIsPrintable(e, refs, list[i]);
      TextIsAType(e, list[i]);
      EmittedTypeIsExact(n, w, e, refs, defs, decls, list[i], v);
    }
    ComposedAccepts(n, defs, k, v);
    ComposedText(e, refs, k);
    if k.anyOf.Listed? {
      UnionMeaning(n, decls, parts, v);
    } else {
      IntersectionExact(n, decls, parts, v);
    }
  }

  lemma ComposedText(e: Emitter, refs: iset<string>, k: Keywords)
    requires Plain(e, refs, Dict(k)) && (k.anyOf.Listed? || k.allOf.Listed?)
    requires k.ref.None? && k.constant.None? && k.enumeration.None?
    ensures e.TypeOf(Dict(k)) == Join(Separator(k), e.TypesOf(Chosen(k).list))
  {
    PlainIsPrintable(e, refs, Dict(k));
    var list := Chosen(k).list;
    if |list| == 1 {
      PlainIsPrintable(e, refs, list[0]);
      PrintableIsNotBlank(e, list[0]);
    }
    ComposeBlankIsEmpty(e, k);
  }

  lemma {:induction false} TypedIsExact(n: nat, w: World, e: Emitter, refs: iset<string>, defs: Definitions,
                                        decls: Declarations, k: Keywords, v: Json)
    requires PlainLinked(w, e, refs, defs, decls) && PlainTyped(e, refs, k)
    ensures Inhabits(n, decls, e.TypedOf(k), v) <==> Accepts(n, defs, Dict(k), v)
    decreases n, Dict(k), 0
  {
    TypedAccepts(n, defs, k, v);
    if k.ty.NoType? {
      OneAtom(n, decls, Unknown, v);
    } else if k.ty.Many? {
      NamesAreExact(n, e, decls, k, v);
    } else if k.ty.name == "array" {
      ArrayIsExact(n, w, e, refs, defs, decls, k, v);
    } else if k.ty.name == "object" {
      ObjectIsExact(n, w, e, refs, defs, decls, k, v);
    } else {
      NameIsExact(n, e, decls, k, v);
    }
  }

  lemma NameIsExact(n: nat, e: Emitter, decls: Declarations, k: Keywords, v: Json)
    requires k.ty.One? && Faithful(k.ty.name)
    ensures Inhabits(n, decls, e.TypedOf(k), v) <==> TypeAccepts(k.ty, v)
  {
    OneAtom(n, decls, PRIMITIVES[k.ty.name], v);
  }

  lemma NamesAreExact(n: nat, e: Emitter, decls: Declarations, k: Keywords, v: Json)
    requires k.ty.Many? && k.ty.names != [] && forall i :: 0 <= i < |k.ty.names| ==> Faithful(k.ty.names[i])
    ensures Inhabits(n, decls, e.TypedOf(k), v) <==> TypeAccepts(k.ty, v)
  {
    var names := k.ty.names;
    var parts := seq(|names|, i requires 0 <= i < |names| => e.TypedAs(k, Some(names[i])));
    forall i | 0 <= i < |names|
      ensures Reread(parts[i]).Some? && (Inhabits(n, decls, parts[i], v) <==> HasType(names[i], v))
    {
      OneAtom(n, decls, PRIMITIVES[names[i]], v);
    }
    UnionMeaning(n, decls, parts, v);
  }

  lemma {:induction false} ArrayIsExact(n: nat, w: World, e: Emitter, refs: iset<string>, defs: Definitions,
                                        decls: Declarations, k: Keywords, v: Json)
    requires PlainLinked(w, e, refs, defs, decls) && PlainTyped(e, refs, k) && k.ty == One("array")
    ensures Inhabits(n, decls, e.TypedOf(k), v) <==> v.Arr? && ItemsAccept(n, defs, k, v.items)
    decreases n, k
  {
    var elem := if k.items.Some? then e.TypeOf(k.items.value) else [A(Unknown)];
    OneAtom(n, decls, ArrayOf(elem), v);
    if v.Arr? {
      forall i | 0 <= i < |v.items|
        ensures Inhabits(n, decls, elem, v.items[i]) <==>
                  (k.items.Some? ==> Accepts(n, defs, k.items.value, v.items[i]))
      {
        OneAtom(n, decls, Unknown, v.items[i]);
        if k.items.Some? { EmittedTypeIsExact(n, w, e, refs, defs, decls, k.items.value, v.items[i]); }
      }
    }
  }

  lemma {:induction false} ObjectIsExact(n: nat, w: World, e: Emitter, refs: iset<string>, defs: Definitions,
                                         decls: Declarations, k: Keywords, v: Json)
    requires PlainLinked(w, e, refs, defs, decls) && PlainTyped(e, refs, k) && k.ty == One("object")
    ensures Inhabits(n, decls, e.TypedOf(k), v) <==> v.Obj? && MembersAccept(n, defs, k, v.fields)
    decreases n, k, 1
  {
    OneAtom(n, decls, e.ObjectOf(k), v);
    if v.Obj? { FieldsAreExact(n, w, e, refs, defs, decls, k, v); }
  }

  lemma {:induction false} FieldsAreExact(n: nat, w: World, e: Emitter, refs: iset<string>, defs: Definitions,
                                          decls: Declarations, k: Keywords, v: Json)
    requires PlainLinked(w, e, refs, defs, decls) && PlainTyped(e, refs, k) && k.ty == One("object") && v.Obj?
    ensures InAtom(n, decls, e.ObjectOf(k), v) <==> MembersAccept(n, defs, k, v.fields)
    decreases n, k, 0
  {
    var members := if k.properties.Declared? then e.MembersOf(k.properties.list, k.required) else [];
    var index := e.IndexOf(k);
    assert |members| == |Props(k)|;
    forall i | 0 <= i < |members| && members[i].name in v.fields
      ensures Inhabits(n, decls, members[i].ty, v.fields[members[i].name]) <==>
                Accepts(n, defs, Props(k)[i].schema, v.fields[members[i].name])
    {
      EmittedTypeIsExact(n, w, e, refs, defs, decls, k.properties.list[i].schema, v.fields[members[i].name]);
    }
    forall name | name in v.fields
      ensures index.Values? ==>
                (Inhabits(n, decls, index.ty, v.fields[name]) <==>
                 (k.additional.Some? ==> Accepts(n, defs, k.additional.value, v.fields[name])))
    {
      OneAtom(n, decls, Unknown, v.fields[name]);
      if k.additional.Some? { EmittedTypeIsExact(n, w, e, refs, defs, decls, k.additional.value, v.fields[name]); }
    }
    if InAtom(n, decls, e.ObjectOf(k), v) {
      forall i | 0 <= i < |k.required| ensures k.required[i] in v.fields {
        assert Named(Props(k), k.required[i]);
        var j :| 0 <= j < |Props(k)| && Props(k)[j].name == k.required[i];
        assert members[j].name == k.required[i] && !members[j].optional;
      }
    }
  }
}
