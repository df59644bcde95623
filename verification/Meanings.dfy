// What the generator makes of a schema, exactly: the values its printed type admits, told from the schema alone.
module Meanings {
  import opened Wrappers
  import opened Schemas
  import opened TypeTexts
  import opened Emitters
  import opened Soundness
  import opened Exactness

  // ------------------------------------------------------------------ the meaning

  /** The values of the printed type. `$ref`, `const`, `enum` and the first of `oneOf`, `anyOf` and `allOf` each hide
      what stands beside them; `oneOf` asks for some operand, not for one alone. */
  ghost predicate Means(n: nat, w: World, defs: Definitions, s: Schema, v: Json)
    decreases n, s
  {
    match s
    case False => false
    case Open => true
    case Dict(k) =>
      if k.ref.Some? then RefMeans(n, w, defs, k, v)
      else if k.constant.Some? then LiteralAdmits(k.constant.value, v)
      else if k.enumeration.Some? then
        exists i :: 0 <= i < |k.enumeration.value| && LiteralAdmits(k.enumeration.value[i], v)
      else if k.oneOf.Listed? && !Passed(w.emitters(defs.here), k.oneOf.list) then
        exists i :: 0 <= i < |k.oneOf.list| && Means(n, w, defs, k.oneOf.list[i], v)
      else if !k.oneOf.Listed? && k.anyOf.Listed? && !Passed(w.emitters(defs.here), k.anyOf.list) then
        exists i :: 0 <= i < |k.anyOf.list| && Means(n, w, defs, k.anyOf.list[i], v)
      else if !k.oneOf.Listed? && !k.anyOf.Listed? && k.allOf.Listed?
              && !Passed(w.emitters(defs.here), k.allOf.list) then
        forall i :: 0 <= i < |k.allOf.list| ==> Means(n, w, defs, k.allOf.list[i], v)
      else TypedMeans(n, w, defs, k, v)
  }

  /** A composition that prints nothing, so that `type` is read. */
  predicate Passed(e: Emitter, list: seq<Schema>) {
    list == [] || (|list| == 1 && Blank(e, list[0]))
  }

  /** A reference that resolves means what it names; any other prints `unknown`. */
  ghost predicate RefMeans(n: nat, w: World, defs: Definitions, k: Keywords, v: Json)
    requires k.ref.Some?
    decreases n, k
  {
    var place := Place(defs.here, k.ref.value);
    if k.ref.value !in w.refs(defs.here) then true
    else if place in defs.targets && n > 0 then
      Means(n - 1, w, defs.(here := defs.targets[place].file), defs.targets[place].schema, v)
    else defs.base
  }

  ghost predicate TypedMeans(n: nat, w: World, defs: Definitions, k: Keywords, v: Json)
    decreases n, k, 2
  {
    match k.ty
    case One(name) => NamedMeans(n, w, defs, k, Some(name), v)
    case Many(names) => exists i :: 0 <= i < |names| && NamedMeans(n, w, defs, k, Some(names[i]), v)
    case NoType => NamedMeans(n, w, defs, k, None, v)
  }

  /** `integer` is any number; `properties` make an object of any type name the generator does not know, and of none. */
  ghost predicate NamedMeans(n: nat, w: World, defs: Definitions, k: Keywords, name: Option<string>, v: Json)
    decreases n, k, 1
  {
    if name == Some("null") then v.Null?
    else if name == Some("boolean") then v.Bool?
    else if name == Some("string") then v.Str?
    else if name == Some("number") || name == Some("integer") then v.Num?
    else if name == Some("array") then
      v.Arr? && (k.items.Some? ==> forall i :: 0 <= i < |v.items| ==> Means(n, w, defs, k.items.value, v.items[i]))
    else if name == Some("object") || k.properties.Declared? then v.Obj? && MembersMean(n, w, defs, k, v.fields)
    else true
  }

  /** Every declared member is there unless it is not required, and means what its schema does. Members that are not
      declared come free, but for `additionalProperties`: a schema there binds every member, declared or not; `false`
      binds none when something is declared, and every one when nothing is. */
  ghost predicate MembersMean(n: nat, w: World, defs: Definitions, k: Keywords, fields: map<string, Json>)
    decreases n, k, 0
  {
    && (k.properties.Declared? ==>
          forall i :: 0 <= i < |k.properties.list| ==>
            var p := k.properties.list[i];
            if p.name in fields then Means(n, w, defs, p.schema, fields[p.name]) else p.name !in k.required)
    && (k.additional.Some? && (k.additional.value.False? ==> k.properties.Undeclared? || k.properties.list == []) ==>
          forall name :: name in fields ==> Means(n, w, defs, k.additional.value, fields[name]))
  }

  // ------------------------------------------------------------------ what is asked

  /** What the schema prints has no `|` outside brackets. */
  predicate Unbarred(e: Emitter, s: Schema)
    decreases s
  {
    s.Dict? ==>
      if s.k.ref.Some? || s.k.constant.Some? then true
      else if s.k.enumeration.Some? then |s.k.enumeration.value| == 1
      else if ComposeBlank(e, s.k) then s.k.ty.Many? ==> |s.k.ty.names| == 1
      else
        && (Separator(s.k) == Bar ==> |Chosen(s.k).list| == 1)
        && forall i :: 0 <= i < |Chosen(s.k).list| ==> Unbarred(e, Chosen(s.k).list[i])
  }

  /** At any depth the generator visits: operands of `allOf` print no bar, and references resolve or print `unknown`. */
  ghost predicate Unglued(e: Emitter, refs: iset<string>, s: Schema)
    decreases s
  {
    s.Dict? ==>
      if s.k.ref.Some? then KnownRef(e, refs, s.k.ref.value)
      else if s.k.constant.Some? || s.k.enumeration.Some? then true
      else if ComposeBlank(e, s.k) then UngluedTyped(e, refs, s.k)
      else
        forall i :: 0 <= i < |Chosen(s.k).list| ==>
          Unglued(e, refs, Chosen(s.k).list[i]) && (Separator(s.k) == Amp ==> Unbarred(e, Chosen(s.k).list[i]))
  }

  predicate UnknownName(e: Emitter, r: string) {
    e.RefName(r) == "unknown"
  }

  ghost predicate KnownRef(e: Emitter, refs: iset<string>, r: string) {
    if r in refs then e.RefName(r) != "" && !UnknownName(e, r) else UnknownName(e, r)
  }

  ghost predicate UngluedTyped(e: Emitter, refs: iset<string>, k: Keywords)
    decreases k, 1
  {
    match k.ty
    case Many(names) => forall i :: 0 <= i < |names| ==> UngluedAs(e, refs, k, Some(names[i]))
    case One(name) => UngluedAs(e, refs, k, Some(name))
    case NoType => UngluedAs(e, refs, k, None)
  }

  ghost predicate UngluedAs(e: Emitter, refs: iset<string>, k: Keywords, name: Option<string>)
    decreases k, 0
  {
    if name.Some? && name.value in PRIMITIVES then true
    else if name == Some("array") then k.items.Some? ==> Unglued(e, refs, k.items.value)
    else if name == Some("object") || k.properties.Declared? then
      && (k.properties.Declared? ==>
            forall i :: 0 <= i < |k.properties.list| ==> Unglued(e, refs, k.properties.list[i].schema))
      && (k.additional.Some? && e.IndexOf(k).Values? ==> Unglued(e, refs, k.additional.value))
    else true
  }

  /** The printed name of the reference is declared as the printed type of what it names, itself unglued. */
  ghost predicate MeantAt(w: World, defs: Definitions, decls: Declarations, file: string, r: string) {
    var name, place := w.emitters(file).RefName(r), Place(file, r);
    && place in defs.targets && name in decls.types
    && var target := defs.targets[place];
       var e := w.emitters(target.file);
       && decls.types[name] == e.TypeOf(target.schema)
       && Printable(e, target.schema)
       && Unglued(e, w.refs(target.file), target.schema)
  }

  ghost predicate Meant(w: World, e: Emitter, refs: iset<string>, defs: Definitions, decls: Declarations) {
    && e == w.emitters(defs.here) && refs == w.refs(defs.here)
    && defs.base == decls.base
    && forall file, r :: r in w.refs(file) ==> MeantAt(w, defs, decls, file, r)
  }

  lemma MeantElsewhere(w: World, e: Emitter, refs: iset<string>, defs: Definitions, decls: Declarations, file: string)
    requires Meant(w, e, refs, defs, decls)
    ensures Meant(w, w.emitters(file), w.refs(file), defs.(here := file), decls)
  {
    var there := defs.(here := file);
    forall other, r | r in w.refs(other) ensures MeantAt(w, there, decls, other, r) {
      assert MeantAt(w, defs, decls, other, r);
    }
  }

  // ------------------------------------------------------------------ unbarred texts

  lemma {:induction false} UnbarredIsSingle(e: Emitter, s: Schema)
    requires Printable(e, s) && Unbarred(e, s)
    ensures Single(e.TypeOf(s))
    decreases s
  {
    TextIsAType(e, s);
    if s.Dict? && s.k.ref.None? && s.k.constant.None? && s.k.enumeration.None? {
      var k := s.k;
      ComposeBlankIsEmpty(e, k);
      if !ComposeBlank(e, k) {
        var list := Chosen(k).list;
        var parts := e.TypesOf(list);
        forall i | 0 <= i < |list| ensures Single(parts[i]) { UnbarredIsSingle(e, list[i]); }
        if Separator(k) == Amp { IntersectionExact(0, Declarations(map[], true), parts, Null); }
      } else {
        TypedIsSingle(e, k);
      }
    }
  }

  lemma TypedIsSingle(e: Emitter, k: Keywords)
    requires k.ty.Many? ==> |k.ty.names| == 1
    ensures Single(e.TypedOf(k))
  {
    var name := match k.ty case NoType => None case One(name) => Some(name) case Many(names) => Some(names[0]);
    assert e.TypedOf(k) == e.TypedAs(k, name) by {
      if k.ty.Many? {
        var parts := seq(|k.ty.names|, i requires 0 <= i < |k.ty.names| => e.TypedAs(k, Some(k.ty.names[i])));
        assert Join(Bar, parts) == parts[0];
      }
    }
    assert |e.TypedAs(k, name)| == 1 && e.TypedAs(k, name)[0].A?;
  }

  // ------------------------------------------------------------------ the printed type has that meaning

  /** At every unfolding depth the emitted type admits exactly the values the schema means. */
  lemma {:induction false} EmittedTypeMeans(n: nat, w: World, e: Emitter, refs: iset<string>, defs: Definitions,
                                            decls: Declarations, s: Schema, v: Json)
    requires Meant(w, e, refs, defs, decls) && Printable(e, s) && Unglued(e, refs, s)
    ensures Inhabits(n, decls, e.TypeOf(s), v) <==> Means(n, w, defs, s, v)
    decreases n, s, 1
  {
    match s
    case False => OneAtom(n, decls, Never, v);
    case Open => OneAtom(n, decls, Unknown, v);
    case Dict(k) =>
      if k.ref.Some? {
        RefIsMeant(n, w, e, refs, defs, decls, k, v);
      } else if k.constant.Some? {
        OneAtom(n, decls, Literal(k.constant.value), v);
      } else if k.enumeration.Some? {
        EnumerationMeans(n, decls, k.enumeration.value, v);
      } else if ComposeBlank(e, k) {
        BareTyped(n, w, e, refs, defs, k, v);
        hide Means, Inhabits, Unglued, Printable, Meant;
        TypedIsMeant(n, w, e, refs, defs, decls, k, v);
      } else {
        hide Means, Inhabits, Unglued, Printable, Meant;
        ComposedIsMeant(n, w, e, refs, defs, decls, k, v);
      }
  }

  /** A schema that composes nothing is read by its type. */
  lemma BareTyped(n: nat, w: World, e: Emitter, refs: iset<string>, defs: Definitions, k: Keywords, v: Json)
    requires e == w.emitters(defs.here) && Printable(e, Dict(k)) && Unglued(e, refs, Dict(k))
    requires k.ref.None? && k.constant.None? && k.enumeration.None? && ComposeBlank(e, k)
    ensures e.TypeOf(Dict(k)) == e.TypedOf(k) && PrintableTyped(e, k) && UngluedTyped(e, refs, k)
    ensures Means(n, w, defs, Dict(k), v) == TypedMeans(n, w, defs, k, v)
  {
    ComposeBlankIsEmpty(e, k);
    hide TypedMeans, PrintableTyped, UngluedTyped, Blank;
  }

  lemma {:induction false} RefIsMeant(n: nat, w: World, e: Emitter, refs: iset<string>, defs: Definitions,
                                      decls: Declarations, k: Keywords, v: Json)
    requires Meant(w, e, refs, defs, decls) && k.ref.Some? && KnownRef(e, refs, k.ref.value)
    ensures Inhabits(n, decls, e.TypeOf(Dict(k)), v) <==> RefMeans(n, w, defs, k, v)
    decreases n, Dict(k), 0
  {
    var r := k.ref.value;
    OneAtom(n, decls, Unknown, v);
    OneAtom(n, decls, Name(e.RefName(r)), v);
    if r in refs {
      assert MeantAt(w, defs, decls, defs.here, r);
      if n > 0 {
        var t := defs.targets[Place(defs.here, r)];
        MeantElsewhere(w, e, refs, defs, decls, t.file);
        EmittedTypeMeans(n - 1, w, w.emitters(t.file), w.refs(t.file), defs.(here := t.file), decls, t.schema, v);
      }
    }
  }

  lemma EnumerationMeans(n: nat, decls: Declarations, values: seq<Json>, v: Json)
    requires values != []
    ensures Inhabits(n, decls, Join(Bar, Literals(values)), v) <==>
              exists i :: 0 <= i < |values| && LiteralAdmits(values[i], v)
  {
    UnionMeaning(n, decls, Literals(values), v);
    forall i | 0 <= i < |values|
      ensures Inhabits(n, decls, Literals(values)[i], v) <==> LiteralAdmits(values[i], v)
    {
      OneAtom(n, decls, Literal(values[i]), v);
    }
  }

  /** A composition that prints something means its operands together. */
  lemma ComposedMeaning(n: nat, w: World, defs: Definitions, k: Keywords, v: Json)
    requires k.ref.None? && k.constant.None? && k.enumeration.None? && !ComposeBlank(w.emitters(defs.here), k)
    ensures Means(n, w, defs, Dict(k), v) <==>
              if Separator(k) == Bar then
                exists i :: 0 <= i < |Chosen(k).list| && Means(n, w, defs, Chosen(k).list[i], v)
              else
                forall i :: 0 <= i < |Chosen(k).list| ==> Means(n, w, defs, Chosen(k).list[i], v)
  {
    hide TypedMeans, Blank;
  }

  lemma {:induction false} ComposedIsMeant(n: nat, w: World, e: Emitter, refs: iset<string>, defs: Definitions,
                                           decls: Declarations, k: Keywords, v: Json)
    requires Meant(w, e, refs, defs, decls) && Printable(e, Dict(k)) && Unglued(e, refs, Dict(k))
    requires k.ref.None? && k.constant.None? && k.enumeration.None? && !ComposeBlank(e, k)
    ensures Inhabits(n, decls, e.TypeOf(Dict(k)), v) <==> Means(n, w, defs, Dict(k), v)
    decreases n, Dict(k), 0
  {
    ComposeBlankIsEmpty(e, k);
    ComposedMeaning(n, w, defs, k, v);
    var list := Chosen(k).list;
    var parts := e.TypesOf(list);
    assert list != [] && forall i :: 0 <= i < |list| ==> Printable(e, list[i]) && Unglued(e, refs, list[i]);
    assert Separator(k) == Amp ==> forall i :: 0 <= i < |list| ==> Unbarred(e, list[i]);
    assert e.TypeOf(Dict(k)) == Join(Separator(k), parts);
    hide Means, ComposeBlank, Unglued, Printable, Unbarred, Inhabits, Meant;
    forall i | 0 <= i < |list|
      ensures Reread(parts[i]).Some? && (Inhabits(n, decls, parts[i], v) <==> Means(n, w, defs, list[i], v))
      ensures Separator(k) == Amp ==> Single(parts[i])
    {
      TextIsAType(e, list[i]);
      EmittedTypeMeans(n, w, e, refs, defs, decls, list[i], v);
      if Separator(k) == Amp { UnbarredIsSingle(e, list[i]); }
    }
    if Separator(k) == Bar {
      UnionMeaning(n, decls, parts, v);
    } else {
      IntersectionExact(n, decls, parts, v);
    }
  }

  lemma {:induction false} TypedIsMeant(n: nat, w: World, e: Emitter, refs: iset<string>, defs: Definitions,
                                        decls: Declarations, k: Keywords, v: Json)
    requires Meant(w, e, refs, defs, decls) && PrintableTyped(e, k) && UngluedTyped(e, refs, k)
    ensures Inhabits(n, decls, e.TypedOf(k), v) <==> TypedMeans(n, w, defs, k, v)
    decreases n, k, 3
  {
    match k.ty
    case NoType => NamedIsMeant(n, w, e, refs, defs, decls, k, None, v);
    case One(name) => NamedIsMeant(n, w, e, refs, defs, decls, k, Some(name), v);
    case Many(names) =>
      var parts := seq(|names|, i requires 0 <= i < |names| => e.TypedAs(k, Some(names[i])));
      forall i | 0 <= i < |names|
        ensures Reread(parts[i]).Some?
        ensures Inhabits(n, decls, parts[i], v) <==> NamedMeans(n, w, defs, k, Some(names[i]), v)
      {
        NamedTextIsAType(e, k, Some(names[i]));
        NamedIsMeant(n, w, e, refs, defs, decls, k, Some(names[i]), v);
      }
      UnionMeaning(n, decls, parts, v);
  }

  /** The names the generator knows as primitives mean what their atoms admit. */
  lemma PrimitiveMeans(n: nat, w: World, defs: Definitions, decls: Declarations, k: Keywords, name: string, v: Json)
    requires name in PRIMITIVES
    ensures InAtom(n, decls, PRIMITIVES[name], v) <==> NamedMeans(n, w, defs, k, Some(name), v)
  {
    hide MembersMean, Means;
  }

  lemma OtherNamesMean(n: nat, w: World, defs: Definitions, k: Keywords, name: Option<string>, v: Json)
    requires !(name.Some? && name.value in PRIMITIVES)
    ensures NamedMeans(n, w, defs, k, name, v) <==>
              if name == Some("array") then
                v.Arr? && (k.items.Some? ==>
                             forall i :: 0 <= i < |v.items| ==> Means(n, w, defs, k.items.value, v.items[i]))
              else if name == Some("object") || k.properties.Declared? then
                v.Obj? && MembersMean(n, w, defs, k, v.fields)
              else true
  {
    hide MembersMean, Means;
  }

  lemma {:induction false} NamedIsMeant(n: nat, w: World, e: Emitter, refs: iset<string>, defs: Definitions,
                                        decls: Declarations, k: Keywords, name: Option<string>, v: Json)
    requires Meant(w, e, refs, defs, decls) && PrintableAs(e, k, name) && UngluedAs(e, refs, k, name)
    ensures Inhabits(n, decls, e.TypedAs(k, name), v) <==> NamedMeans(n, w, defs, k, name, v)
    decreases n, k, 2
  {
    hide Means, Inhabits, Unglued, Printable, NamedMeans, Meant, MembersMean;
    OneAtom(n, decls, e.TypedAs(k, name)[0].atom, v);
    if name.Some? && name.value in PRIMITIVES {
      PrimitiveMeans(n, w, defs, decls, k, name.value, v);
    } else {
      OtherNamesMean(n, w, defs, k, name, v);
      if name == Some("array") {
        if v.Arr? { ItemsAreMeant(n, w, e, refs, defs, decls, k, v); }
      } else if name == Some("object") || k.properties.Declared? {
        if v.Obj? { MembersAreMeant(n, w, e, refs, defs, decls, k, v); }
      }
    }
  }

  lemma {:induction false} ItemsAreMeant(n: nat, w: World, e: Emitter, refs: iset<string>, defs: Definitions,
                                         decls: Declarations, k: Keywords, v: Json)
    requires Meant(w, e, refs, defs, decls) && v.Arr?
    requires k.items.Some? ==> Printable(e, k.items.value) && Unglued(e, refs, k.items.value)
    ensures InAtom(n, decls, ArrayOf(if k.items.Some? then e.TypeOf(k.items.value) else [A(Unknown)]), v) <==>
              (k.items.Some? ==> forall i :: 0 <= i < |v.items| ==> Means(n, w, defs, k.items.value, v.items[i]))
    decreases n, k, 1
  {
    hide Means, Inhabits, Unglued, Printable, Meant;
    forall i | 0 <= i < |v.items|
      ensures k.items.Some? ==>
                (Inhabits(n, decls, e.TypeOf(k.items.value), v.items[i]) <==>
                 Means(n, w, defs, k.items.value, v.items[i]))
      ensures Inhabits(n, decls, [A(Unknown)], v.items[i])
    {
      OneAtom(n, decls, Unknown, v.items[i]);
      if k.items.Some? { EmittedTypeMeans(n, w, e, refs, defs, decls, k.items.value, v.items[i]); }
    }
  }

  lemma {:induction false} MembersAreMeant(n: nat, w: World, e: Emitter, refs: iset<string>, defs: Definitions,
                                           decls: Declarations, k: Keywords, v: Json)
    requires Meant(w, e, refs, defs, decls) && v.Obj?
    requires PrintableAs(e, k, Some("object")) && UngluedAs(e, refs, k, Some("object"))
    ensures InAtom(n, decls, e.ObjectOf(k), v) <==> MembersMean(n, w, defs, k, v.fields)
    decreases n, k, 1
  {
    var index := e.IndexOf(k);
    if k.properties.Declared? {
      forall i | 0 <= i < |k.properties.list| && k.properties.list[i].name in v.fields
        ensures var p := k.properties.list[i];
                Inhabits(n, decls, e.TypeOf(p.schema), v.fields[p.name]) <==>
                Means(n, w, defs, p.schema, v.fields[p.name])
      {
        EmittedTypeMeans(n, w, e, refs, defs, decls, k.properties.list[i].schema, v.fields[k.properties.list[i].name]);
      }
    }
    forall name | name in v.fields
      ensures index.Values? ==>
                (Inhabits(n, decls, index.ty, v.fields[name]) <==>
                 (k.additional.Some? ==> Means(n, w, defs, k.additional.value, v.fields[name])))
    {
      OneAtom(n, decls, Unknown, v.fields[name]);
      if k.additional.Some? && index.Values? {
        EmittedTypeMeans(n, w, e, refs, defs, decls, k.additional.value, v.fields[name]);
      }
    }
    hide Means;
  }

  // ------------------------------------------------------------------ two shapes in their own words

  /** A closed object: the printed type admits the objects that have every required member that is declared, and whose
      declared members mean what their schemas do, whatever other members they have. */
  lemma ClosedObjectMeans(n: nat, w: World, e: Emitter, refs: iset<string>, defs: Definitions, decls: Declarations,
                          k: Keywords, v: Json)
    requires Meant(w, e, refs, defs, decls) && Printable(e, Dict(k)) && Unglued(e, refs, Dict(k))
    requires k == BARE.(ty := One("object"), properties := k.properties, required := k.required,
                        additional := Some(False))
    requires k.properties.Declared? && k.properties.list != []
    ensures Inhabits(n, decls, e.TypeOf(Dict(k)), v) <==>
              && v.Obj?
              && (forall i :: 0 <= i < |k.required| && Named(k.properties.list, k.required[i]) ==>
                    k.required[i] in v.fields)
              && (forall i :: 0 <= i < |k.properties.list| && k.properties.list[i].name in v.fields ==>
                    Means(n, w, defs, k.properties.list[i].schema, v.fields[k.properties.list[i].name]))
  {
    EmittedTypeMeans(n, w, e, refs, defs, decls, Dict(k), v);
    BareObjectMeans(n, w, defs, k, v);
    hide Inhabits, Means, Unglued, Printable, Meant;
    if v.Obj? { RequiredMembers(n, w, defs, k, v.fields); }
  }

  lemma BareObjectMeans(n: nat, w: World, defs: Definitions, k: Keywords, v: Json)
    requires k == BARE.(ty := One("object"), properties := k.properties, required := k.required,
                        additional := Some(False))
    ensures Means(n, w, defs, Dict(k), v) <==> v.Obj? && MembersMean(n, w, defs, k, v.fields)
  {
    assert k.ref.None? && k.constant.None? && k.enumeration.None?;
    assert k.oneOf.Missing? && k.anyOf.Missing? && k.allOf.Missing?;
    assert Means(n, w, defs, Dict(k), v) == TypedMeans(n, w, defs, k, v);
    hide MembersMean;
    assert "object"[0] == 'o';
    assert NamedMeans(n, w, defs, k, Some("object"), v) <==> v.Obj? && MembersMean(n, w, defs, k, v.fields);
  }

  /** Told from the side of `required`. */
  lemma RequiredMembers(n: nat, w: World, defs: Definitions, k: Keywords, fields: map<string, Json>)
    requires k.properties.Declared? && k.properties.list != [] && k.additional == Some(False)
    ensures MembersMean(n, w, defs, k, fields) <==>
              && (forall i :: 0 <= i < |k.required| && Named(k.properties.list, k.required[i]) ==>
                    k.required[i] in fields)
              && (forall i :: 0 <= i < |k.properties.list| && k.properties.list[i].name in fields ==>
                    Means(n, w, defs, k.properties.list[i].schema, fields[k.properties.list[i].name]))
  {
    hide Means;
    var list := k.properties.list;
    if MembersMean(n, w, defs, k, fields) {
      forall i | 0 <= i < |k.required| && Named(list, k.required[i]) ensures k.required[i] in fields {
        var j :| 0 <= j < |list| && list[j].name == k.required[i];
      }
    }
    if forall i :: 0 <= i < |k.required| && Named(list, k.required[i]) ==> k.required[i] in fields {
      forall i | 0 <= i < |list| && list[i].name in k.required ensures list[i].name in fields {
        var j :| 0 <= j < |k.required| && k.required[j] == list[i].name;
        assert Named(list, k.required[j]);
      }
    }
  }

  /** Where the type is exact, the meaning is what the schema accepts. */
  lemma PlainMeansAccepts(n: nat, w: World, e: Emitter, refs: iset<string>, defs: Definitions, decls: Declarations,
                          s: Schema, v: Json)
    requires PlainLinked(w, e, refs, defs, decls) && Plain(e, refs, s)
    requires Meant(w, e, refs, defs, decls) && Unglued(e, refs, s)
    ensures Means(n, w, defs, s, v) <==> Accepts(n, defs, s, v)
  {
    PlainIsPrintable(e, refs, s);
    EmittedTypeIsExact(n, w, e, refs, defs, decls, s, v);
    EmittedTypeMeans(n, w, e, refs, defs, decls, s, v);
  }
}
