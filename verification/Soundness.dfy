// The emitted type admits every value the schema accepts; where it does not, exactly when.
module Soundness {
  import opened Wrappers
  import opened Schemas
  import opened TypeTexts
  import opened Emitters

  // ------------------------------------------------------------------ schemas of objects

  /** What a list of operands says is enough: all of them, or for `allOf` one of them, accept objects only. */
  predicate OnlyObjects(s: Schema)
    decreases s
  {
    s.Dict? &&
    (|| (s.k.ty.One? && s.k.ty.name == "object")
     || (s.k.ty.Many? && forall i :: 0 <= i < |s.k.ty.names| ==> s.k.ty.names[i] == "object")
     || (s.k.oneOf.Listed? && forall i :: 0 <= i < |s.k.oneOf.list| ==> OnlyObjects(s.k.oneOf.list[i]))
     || (s.k.anyOf.Listed? && forall i :: 0 <= i < |s.k.anyOf.list| ==> OnlyObjects(s.k.anyOf.list[i]))
     || (s.k.allOf.Listed? && exists i :: 0 <= i < |s.k.allOf.list| && OnlyObjects(s.k.allOf.list[i])))
  }

  lemma {:induction false} OnlyObjectsAccepted(n: nat, defs: Definitions, s: Schema, v: Json)
    requires OnlyObjects(s) && Accepts(n, defs, s, v)
    ensures v.Obj?
    decreases s
  {
    var k := s.k;
    assert TypeAccepts(k.ty, v) && OperandsAccept(n, defs, k, v);
    if k.ty.One? && k.ty.name == "object" {
    } else if k.ty.Many? && forall i :: 0 <= i < |k.ty.names| ==> k.ty.names[i] == "object" {
    } else if k.oneOf.Listed? && forall i :: 0 <= i < |k.oneOf.list| ==> OnlyObjects(k.oneOf.list[i]) {
      var i :| 0 <= i < |k.oneOf.list| && Accepts(n, defs, k.oneOf.list[i], v);
      OnlyObjectsAccepted(n, defs, k.oneOf.list[i], v);
    } else if k.anyOf.Listed? && forall i :: 0 <= i < |k.anyOf.list| ==> OnlyObjects(k.anyOf.list[i]) {
      var i :| 0 <= i < |k.anyOf.list| && Accepts(n, defs, k.anyOf.list[i], v);
      OnlyObjectsAccepted(n, defs, k.anyOf.list[i], v);
    } else {
      var i :| 0 <= i < |k.allOf.list| && OnlyObjects(k.allOf.list[i]);
      OnlyObjectsAccepted(n, defs, k.allOf.list[i], v);
    }
  }

  // ------------------------------------------------------------------ schemas that are not narrowed

  /** No shape the generator narrows, at any depth it visits; `refs` are the references it may print a name for, and
      `obj` says that only objects get here. */
  ghost predicate Clean(e: Emitter, refs: iset<string>, s: Schema, obj: bool)
    decreases s
  {
    s.Dict? ==>
      var objects := obj || OnlyObjects(s);
      if s.k.ref.Some? then s.k.ref.value in refs || e.RefName(s.k.ref.value) == "unknown"
      else if s.k.constant.Some? || s.k.enumeration.Some? then true
      else if ComposeBlank(e, s.k) then CleanTyped(e, refs, s.k, objects)
      else forall i :: 0 <= i < |Chosen(s.k).list| ==> Clean(e, refs, Chosen(s.k).list[i], objects)
  }

  /** `properties` stand where only objects come, by a type of their own or an enclosing one; nothing else may match
      where the printed line binds everything. */
  ghost predicate CleanTyped(e: Emitter, refs: iset<string>, k: Keywords, obj: bool)
    decreases k, 1
  {
    match k.ty
    case NoType => k.properties.Undeclared? || (obj && CleanAs(e, refs, k, "object"))
    case One(name) => CleanAs(e, refs, k, name)
    case Many(names) => forall i :: 0 <= i < |names| ==> CleanAs(e, refs, k, names[i])
  }

  ghost predicate CleanAs(e: Emitter, refs: iset<string>, k: Keywords, name: string)
    decreases k, 0
  {
    match name
    case "array" =>
      k.items.Some? ==> Clean(e, refs, k.items.value, false) && (k.items.value.Open? || k.prefixItems == [])
    case "object" =>
      && (k.properties.Declared? ==>
            forall i :: 0 <= i < |k.properties.list| ==> Clean(e, refs, k.properties.list[i].schema, false))
      && (k.additional.Some? && !k.additional.value.Open? && e.IndexOf(k).Values? ==>
            && Clean(e, refs, k.additional.value, false)
            && Props(k) == []
            && forall name :: !Matched(k, name))
    case _ => true
  }

  /** The files of a module: how each is printed, and the references that stand in it. */
  datatype World = World(emitters: string -> Emitter, refs: string -> iset<string>)

  /** `e` and `refs` are those of the file being read; each name printed for a reference is declared, in the one scope
      of all files, as the type of the schema it names, printed for that schema's file. */
  ghost predicate Linked(w: World, e: Emitter, refs: iset<string>, defs: Definitions, decls: Declarations) {
    && e == w.emitters(defs.here) && refs == w.refs(defs.here)
    && defs.base == decls.base
    && forall file, r :: r in w.refs(file) ==> LinkedAt(w, defs, decls, file, r)
  }

  ghost predicate LinkedAt(w: World, defs: Definitions, decls: Declarations, file: string, r: string) {
    var name, place := w.emitters(file).RefName(r), Place(file, r);
    && place in defs.targets && name in decls.types
    && var target := defs.targets[place];
       var e := w.emitters(target.file);
       && decls.types[name] == e.TypeOf(target.schema)
       && Printable(e, target.schema)
       && Clean(e, w.refs(target.file), target.schema, false)
  }

  lemma OneAtom(n: nat, decls: Declarations, a: Atom, v: Json)
    ensures Inhabits(n, decls, [A(a)], v) <==> InAtom(n, decls, a, v)
  {
    assert Reread([A(a)]).value == [[a]];
    SingleMeaning(n, decls, [A(a)], v);
    assert InGroup(n, decls, [a], v) <==> InAtom(n, decls, [a][0], v);
  }

  lemma LinkedElsewhere(w: World, e: Emitter, refs: iset<string>, defs: Definitions, decls: Declarations, file: string)
    requires Linked(w, e, refs, defs, decls)
    ensures Linked(w, w.emitters(file), w.refs(file), defs.(here := file), decls)
  {
    var there := defs.(here := file);
    forall other, r | r in w.refs(other) ensures LinkedAt(w, there, decls, other, r) {
      assert LinkedAt(w, defs, decls, other, r);
    }
  }

  /** Translation soundness: at every unfolding depth, the emitted type admits every value the schema accepts. */
  lemma {:induction false} EmittedTypeAdmits(n: nat, w: World, e: Emitter, refs: iset<string>, defs: Definitions,
                                             decls: Declarations, s: Schema, obj: bool, v: Json)
    requires Linked(w, e, refs, defs, decls) && Printable(e, s) && Clean(e, refs, s, obj)
    requires Accepts(n, defs, s, v) && (obj ==> v.Obj?)
    ensures Inhabits(n, decls, e.TypeOf(s), v)
    decreases n, s
  {
    match s
    case False =>
    case Open => OneAtom(n, decls, Unknown, v);
    case Dict(k) =>
      if k.ref.Some? {
        var r := k.ref.value;
        OneAtom(n, decls, Unknown, v);
        OneAtom(n, decls, Name(e.RefName(r)), v);
        if r in refs && e.RefName(r) != "unknown" && n > 0 {
          assert LinkedAt(w, defs, decls, defs.here, r);
          var t := defs.targets[Place(defs.here, r)];
          var there := defs.(here := t.file);
          LinkedElsewhere(w, e, refs, defs, decls, t.file);
          EmittedTypeAdmits(n - 1, w, w.emitters(t.file), w.refs(t.file), there, decls, t.schema, false, v);
        }
      } else if k.constant.Some? {
        LiteralAdmitsItself(v);
        OneAtom(n, decls, Literal(v), v);
      } else if k.enumeration.Some? {
        var values := k.enumeration.value;
        var i :| 0 <= i < |values| && values[i] == v;
        LiteralAdmitsItself(v);
        OneAtom(n, decls, Literal(v), v);
        assert Inhabits(n, decls, Literals(values)[i], v);
        UnionMeaning(n, decls, Literals(values), v);
      } else {
        ComposeBlankIsEmpty(e, k);
        var objects := obj || OnlyObjects(s);
        if OnlyObjects(s) { OnlyObjectsAccepted(n, defs, s, v); }
        if ComposeBlank(e, k) {
          TypedAdmits(n, w, e, refs, defs, decls, k, objects, v);
        } else {
          ComposedAdmits(n, w, e, refs, defs, decls, k, objects, v);
        }
      }
  }

  lemma {:induction false} ComposedAdmits(n: nat, w: World, e: Emitter, refs: iset<string>, defs: Definitions,
                                          decls: Declarations, k: Keywords, obj: bool, v: Json)
    requires Linked(w, e, refs, defs, decls) && Printable(e, Dict(k))
    requires k.ref.None? && k.constant.None? && k.enumeration.None? && !ComposeBlank(e, k)
    requires forall i :: 0 <= i < |Chosen(k).list| ==> Clean(e, refs, Chosen(k).list[i], obj)
    requires Accepts(n, defs, Dict(k), v) && (obj ==> v.Obj?)
    ensures Inhabits(n, decls, e.ComposeOf(k), v)
    decreases n, k, 3
  {
    var list := Chosen(k).list;
    var parts := e.TypesOf(list);
    forall i | 0 <= i < |list| ensures Reread(parts[i]).Some? { TextIsAType(e, list[i]); }
    forall i | 0 <= i < |list| && Accepts(n, defs, list[i], v) ensures Inhabits(n, decls, parts[i], v) {
      EmittedTypeAdmits(n, w, e, refs, defs, decls, list[i], obj, v);
    }
    if Separator(k) == Bar {
      UnionMeaning(n, decls, parts, v);
    } else {
      IntersectionCovered(n, decls, parts, v);
    }
  }

  lemma {:induction false} TypedAdmits(n: nat, w: World, e: Emitter, refs: iset<string>, defs: Definitions,
                                       decls: Declarations, k: Keywords, obj: bool, v: Json)
    requires Linked(w, e, refs, defs, decls) && PrintableTyped(e, k) && CleanTyped(e, refs, k, obj)
    requires Accepts(n, defs, Dict(k), v) && (obj ==> v.Obj?)
    ensures Inhabits(n, decls, e.TypedOf(k), v)
    decreases n, k, 2
  {
    match k.ty
    case NoType =>
      OneAtom(n, decls, Unknown, v);
      if k.properties.Declared? {
        OneAtom(n, decls, e.ObjectOf(k), v);
        ObjectAdmits(n, w, e, refs, defs, decls, k, v);
      }
    case One(name) => NamedAdmits(n, w, e, refs, defs, decls, k, name, v);
    case Many(names) =>
      var parts := seq(|names|, i requires 0 <= i < |names| => e.TypedAs(k, Some(names[i])));
      forall i | 0 <= i < |names| ensures Reread(parts[i]).Some? { NamedTextIsAType(e, k, Some(names[i])); }
      var i :| 0 <= i < |names| && HasType(names[i], v);
      NamedAdmits(n, w, e, refs, defs, decls, k, names[i], v);
      assert Inhabits(n, decls, parts[i], v);
      UnionMeaning(n, decls, parts, v);
  }

  lemma {:induction false} NamedAdmits(n: nat, w: World, e: Emitter, refs: iset<string>, defs: Definitions,
                                       decls: Declarations, k: Keywords, name: string, v: Json)
    requires Linked(w, e, refs, defs, decls) && PrintableAs(e, k, Some(name)) && CleanAs(e, refs, k, name)
    requires Accepts(n, defs, Dict(k), v) && HasType(name, v)
    ensures Inhabits(n, decls, e.TypedAs(k, Some(name)), v)
    decreases n, k, 1
  {
    OneAtom(n, decls, e.TypedAs(k, Some(name))[0].atom, v);
    if name == "array" && k.items.Some? {
      forall i | 0 <= i < |v.items| ensures Inhabits(n, decls, e.TypeOf(k.items.value), v.items[i]) {
        if k.items.value.Open? { OneAtom(n, decls, Unknown, v.items[i]); }
        else { EmittedTypeAdmits(n, w, e, refs, defs, decls, k.items.value, false, v.items[i]); }
      }
    } else if name == "array" {
      forall i | 0 <= i < |v.items| ensures Inhabits(n, decls, [A(Unknown)], v.items[i]) {
        OneAtom(n, decls, Unknown, v.items[i]);
      }
    } else if name == "object" {
      ObjectAdmits(n, w, e, refs, defs, decls, k, v);
    }
  }

  lemma {:induction false} ObjectAdmits(n: nat, w: World, e: Emitter, refs: iset<string>, defs: Definitions,
                                        decls: Declarations, k: Keywords, v: Json)
    requires Linked(w, e, refs, defs, decls) && PrintableAs(e, k, Some("object")) && CleanAs(e, refs, k, "object")
    requires v.Obj? && MembersAccept(n, defs, k, v.fields)
    ensures InAtom(n, decls, e.ObjectOf(k), v)
    decreases n, k, 0
  {
    var members := if k.properties.Declared? then e.MembersOf(k.properties.list, k.required) else [];
    var index := e.IndexOf(k);
    forall i | 0 <= i < |members| && members[i].name in v.fields
      ensures Inhabits(n, decls, members[i].ty, v.fields[members[i].name])
    {
      EmittedTypeAdmits(n, w, e, refs, defs, decls, k.properties.list[i].schema, false, v.fields[members[i].name]);
    }
    if index.Values? {
      forall name | name in v.fields ensures Inhabits(n, decls, index.ty, v.fields[name]) {
        OneAtom(n, decls, Unknown, v.fields[name]);
        if k.additional.Some? && !k.additional.value.Open? {
          EmittedTypeAdmits(n, w, e, refs, defs, decls, k.additional.value, false, v.fields[name]);
        }
      }
    }
  }
}
