// The generator of TypeScript types: `Emitter` in tools/gen_contracts.py.
module Emitters {
  import opened Wrappers
  import opened Schemas
  import opened TypeTexts

  // ------------------------------------------------------------------ names

  predicate IsAlphanumeric(c: char) {
    'A' <= c <= 'Z' || 'a' <= c <= 'z' || '0' <= c <= '9'
  }

  function Upper(c: char): char {
    if 'a' <= c <= 'z' then 'A' + (c - 'a') else c
  }

  /** The alphanumeric runs of `name`, each with its first letter in upper case; `start` says a run begins here. */
  function PascalFrom(name: string, start: bool): string {
    if name == "" then ""
    else if !IsAlphanumeric(name[0]) then PascalFrom(name[1..], true)
    else [if start then Upper(name[0]) else name[0]] + PascalFrom(name[1..], false)
  }

  function Pascal(name: string): string {
    PascalFrom(name, true)
  }

  /** At a character that is neither a letter nor a digit a name falls into two, each named by itself. */
  lemma PascalJoins(a: string, c: char, b: string)
    requires !('A' <= c <= 'Z' || 'a' <= c <= 'z' || '0' <= c <= '9')
    ensures Pascal(a + [c] + b) == Pascal(a) + Pascal(b)
  {
    PascalFromJoins(a, true, c, b);
  }

  lemma {:induction false} PascalFromJoins(a: string, start: bool, c: char, b: string)
    requires !('A' <= c <= 'Z' || 'a' <= c <= 'z' || '0' <= c <= '9')
    ensures PascalFrom(a + [c] + b, start) == PascalFrom(a, start) + Pascal(b)
  {
    var name := a + [c] + b;
    if a == "" {
      assert name[0] == c && name[1..] == b;
    } else {
      assert name[0] == a[0] && name[1..] == a[1..] + [c] + b;
      PascalFromJoins(a[1..], !('A' <= a[0] <= 'Z' || 'a' <= a[0] <= 'z' || '0' <= a[0] <= '9'), c, b);
    }
  }

  /** A word of letters and digits gets its first letter in upper case and stays otherwise. */
  lemma PascalWord(word: string)
    requires word != ""
    requires forall i :: 0 <= i < |word| ==>
               'A' <= word[i] <= 'Z' || 'a' <= word[i] <= 'z' || '0' <= word[i] <= '9'
    ensures |Pascal(word)| == |word| && Pascal(word)[1..] == word[1..]
    ensures Pascal(word)[0] as int == if 'a' <= word[0] <= 'z' then word[0] as int - 32 else word[0] as int
  {
    InsideWord(word[1..]);
  }

  lemma {:induction false} InsideWord(rest: string)
    requires forall i :: 0 <= i < |rest| ==>
               'A' <= rest[i] <= 'Z' || 'a' <= rest[i] <= 'z' || '0' <= rest[i] <= '9'
    ensures PascalFrom(rest, false) == rest
  {
    if rest != "" { InsideWord(rest[1..]); }
  }

  predicate EndsWith(s: string, suffix: string) {
    |suffix| <= |s| && s[|s| - |suffix|..] == suffix
  }

  /** What follows the last `/`. */
  function LastSegment(s: string): (segment: string)
  {
    if s == "" then "" else if s[|s| - 1] == '/' then "" else LastSegment(s[..|s| - 1]) + [s[|s| - 1]]
  }

  const LOCAL := "#/$defs/"
  const COMPONENT := "#/components/schemas/"
  const SCHEMA_SUFFIX := ".schema.json"

  datatype Emitter = Emitter(defsPrefix: string, externalPrefix: string) {

    function RefName(ref: string): string {
      if LOCAL <= ref then defsPrefix + Pascal(LastSegment(ref))
      else if COMPONENT <= ref then Pascal(LastSegment(ref))
      else if "./schemas/" <= ref || EndsWith(ref, SCHEMA_SUFFIX) then
        var base := LastSegment(ref);
        externalPrefix + Pascal(if EndsWith(base, SCHEMA_SUFFIX) then base[..|base| - |SCHEMA_SUFFIX|] else base)
      else "unknown"
    }

    function RefText(ref: string): Text {
      var name := RefName(ref);
      if name == "" then [] else if name == "unknown" then [A(Unknown)] else [A(Name(name))]
    }

    function TypeOf(s: Schema): Text
      decreases s
    {
      match s
      case False => [A(Never)]
      case Open => [A(Unknown)]
      case Dict(k) =>
        if k.ref.Some? then RefText(k.ref.value)
        else if k.constant.Some? then [A(Literal(k.constant.value))]
        else if k.enumeration.Some? then Join(Bar, Literals(k.enumeration.value))
        else var composed := ComposeOf(k); if composed != [] then composed else TypedOf(k)
    }

    function TypesOf(schemas: seq<Schema>): (texts: seq<Text>)
      ensures |texts| == |schemas| && forall i :: 0 <= i < |schemas| ==> texts[i] == TypeOf(schemas[i])
      decreases schemas
    {
      if schemas == [] then [] else [TypeOf(schemas[0])] + TypesOf(schemas[1..])
    }

    function ComposeOf(k: Keywords): Text
      decreases k
    {
      var operands := Chosen(k);
      if operands.Missing? then [] else Join(Separator(k), TypesOf(operands.list))
    }

    function TypedOf(k: Keywords): Text
      decreases k, 3
    {
      match k.ty
      case Many(names) => Join(Bar, seq(|names|, i requires 0 <= i < |names| => TypedAs(k, Some(names[i]))))
      case One(name) => TypedAs(k, Some(name))
      case NoType => TypedAs(k, None)
    }

    /** `_typed_of` for one type name (or none). */
    function TypedAs(k: Keywords, name: Option<string>): (text: Text)
      ensures text != []
      decreases k, 2
    {
      if name.Some? && name.value in PRIMITIVES then [A(PRIMITIVES[name.value])]
      else if name == Some("array") then [A(ArrayOf(if k.items.Some? then TypeOf(k.items.value) else [A(Unknown)]))]
      else if name == Some("object") || k.properties.Declared? then [A(ObjectOf(k))]
      else [A(Unknown)]
    }

    /** The lines of an object; the last branch of the source, no line at all, is never reached. */
    function ObjectOf(k: Keywords): (atom: Atom)
      ensures !atom.EmptyRecord?
      decreases k, 1
    {
      var members := if k.properties.Declared? then MembersOf(k.properties.list, k.required) else [];
      var index := IndexOf(k);
      if members == [] && index.NoIndex? then EmptyRecord else ObjectType(members, index)
    }

    /** `object_of` as it is written: lines are appended property by property. */
    method EmitObject(k: Keywords) returns (atom: Atom)
      ensures atom == ObjectOf(k)
    {
      var props := Props(k);
      var members: seq<Member> := [];
      for i := 0 to |props|
        invariant members == MembersOf(props, k.required)[..i]
      {
        members := members + [Member(props[i].name, props[i].name !in k.required, TypeOf(props[i].schema))];
      }
      var index := NoIndex;
      if (k.additional.Some? && !k.additional.value.False?) || props == [] {
        index := Values(if k.additional.None? || k.additional.value.Open? then [A(Unknown)]
                        else TypeOf(k.additional.value));
      }
      atom := if members == [] && index.NoIndex? then EmptyRecord else ObjectType(members, index);
    }

    function MembersOf(props: seq<Property>, required: seq<string>): (members: seq<Member>)
      ensures |members| == |props|
      ensures forall i :: 0 <= i < |props| ==>
                members[i] == Member(props[i].name, props[i].name !in required, TypeOf(props[i].schema))
      decreases props
    {
      if props == [] then []
      else
        [Member(props[0].name, props[0].name !in required, TypeOf(props[0].schema))] + MembersOf(props[1..], required)
    }

    function IndexOf(k: Keywords): Index
      decreases k, 0
    {
      match k.additional
      case Some(extra) =>
        if extra.False? && Props(k) != [] then NoIndex
        else if extra.Open? then Values([A(Unknown)])
        else Values(TypeOf(extra))
      case None => if Props(k) != [] then NoIndex else Values([A(Unknown)])
    }
  }

  const PRIMITIVES: map<string, Atom> := map[
    "null" := NullType, "string" := StringType, "number" := NumberType, "integer" := NumberType,
    "boolean" := BooleanType]

  function Literals(values: seq<Json>): seq<Text> {
    seq(|values|, i requires 0 <= i < |values| => [A(Literal(values[i]))])
  }

  /** The first of `oneOf`, `anyOf` and `allOf` that is there. */
  function Chosen(k: Keywords): (operands: Operands)
    ensures operands.Listed? ==> operands < k
  {
    if k.oneOf.Listed? then k.oneOf else if k.anyOf.Listed? then k.anyOf else k.allOf
  }

  function Separator(k: Keywords): (sep: Token)
    ensures !sep.A?
  {
    if k.oneOf.Listed? || k.anyOf.Listed? then Bar else Amp
  }

  // ------------------------------------------------------------------ when the text is a type

  /** The generator prints nothing at all for `s`. */
  predicate Blank(e: Emitter, s: Schema)
    decreases s
  {
    s.Dict? &&
    if s.k.ref.Some? then e.RefName(s.k.ref.value) == ""
    else if s.k.constant.Some? then false
    else if s.k.enumeration.Some? then s.k.enumeration.value == []
    else ComposeBlank(e, s.k) && s.k.ty == Many([])
  }

  /** The composition keywords print nothing, so the generator goes on to `type`. */
  predicate ComposeBlank(e: Emitter, k: Keywords)
    decreases k
  {
    var operands := Chosen(k);
    operands.Missing? || operands.list == [] || (|operands.list| == 1 && Blank(e, operands.list[0]))
  }

  /** No list the generator joins is empty, at any depth it visits. */
  predicate Printable(e: Emitter, s: Schema)
    decreases s
  {
    s.Dict? ==>
      if s.k.ref.Some? then e.RefName(s.k.ref.value) != ""
      else if s.k.constant.Some? then true
      else if s.k.enumeration.Some? then s.k.enumeration.value != []
      else if ComposeBlank(e, s.k) then PrintableTyped(e, s.k)
      else forall i :: 0 <= i < |Chosen(s.k).list| ==> Printable(e, Chosen(s.k).list[i])
  }

  predicate PrintableTyped(e: Emitter, k: Keywords)
    decreases k, 1
  {
    match k.ty
    case Many(names) => names != [] && forall i :: 0 <= i < |names| ==> PrintableAs(e, k, Some(names[i]))
    case One(name) => PrintableAs(e, k, Some(name))
    case NoType => PrintableAs(e, k, None)
  }

  predicate PrintableAs(e: Emitter, k: Keywords, name: Option<string>)
    decreases k, 0
  {
    if name.Some? && name.value in PRIMITIVES then true
    else if name == Some("array") then k.items.Some? ==> Printable(e, k.items.value)
    else if name == Some("object") || k.properties.Declared? then
      && (k.properties.Declared? ==>
            forall i :: 0 <= i < |k.properties.list| ==> Printable(e, k.properties.list[i].schema))
      && (k.additional.Some? && e.IndexOf(k).Values? ==> Printable(e, k.additional.value))
    else true
  }

  lemma {:induction false} BlankIsEmpty(e: Emitter, s: Schema)
    ensures Blank(e, s) <==> e.TypeOf(s) == []
    decreases s
  {
    if s.Dict? {
      var k := s.k;
      if k.ref.None? && k.constant.None? && k.enumeration.None? {
        ComposeBlankIsEmpty(e, k);
        if k.ty.Many? && k.ty.names != [] { assert e.TypedAs(k, Some(k.ty.names[0])) != []; }
      }
    }
  }

  lemma {:induction false} ComposeBlankIsEmpty(e: Emitter, k: Keywords)
    ensures ComposeBlank(e, k) <==> e.ComposeOf(k) == []
    decreases k
  {
    var operands := Chosen(k);
    if operands.Listed? && |operands.list| == 1 { BlankIsEmpty(e, operands.list[0]); }
  }

  /** The text is a type expression, inside every bracket too, exactly for printable schemas. */
  lemma {:induction false} TextIsAType(e: Emitter, s: Schema)
    ensures WellFormed(e.TypeOf(s)) <==> Printable(e, s)
    decreases s
  {
    AtomWellFormed(Unknown);
    AtomWellFormed(Never);
    if s.Dict? {
      var k := s.k;
      if k.ref.Some? {
        AtomWellFormed(Unknown);
        AtomWellFormed(Name(e.RefName(k.ref.value)));
      } else if k.constant.Some? {
        AtomWellFormed(Literal(k.constant.value));
      } else if k.enumeration.Some? {
        var values := k.enumeration.value;
        if values != [] {
          JoinWellFormed(Bar, Literals(values));
          forall i | 0 <= i < |values| ensures WellFormed(Literals(values)[i]) { AtomWellFormed(Literal(values[i])); }
        }
      } else {
        ComposeBlankIsEmpty(e, k);
        if ComposeBlank(e, k) {
          TypedTextIsAType(e, k);
        } else {
          var list := Chosen(k).list;
          JoinWellFormed(Separator(k), e.TypesOf(list));
          forall i | 0 <= i < |list| ensures WellFormed(e.TypesOf(list)[i]) <==> Printable(e, list[i]) {
            TextIsAType(e, list[i]);
          }
        }
      }
    }
  }

  lemma {:induction false} TypedTextIsAType(e: Emitter, k: Keywords)
    ensures WellFormed(e.TypedOf(k)) <==> PrintableTyped(e, k)
    decreases k, 1
  {
    match k.ty
    case Many(names) =>
      if names != [] {
        var parts := seq(|names|, i requires 0 <= i < |names| => e.TypedAs(k, Some(names[i])));
        JoinWellFormed(Bar, parts);
        forall i | 0 <= i < |names| ensures WellFormed(parts[i]) <==> PrintableAs(e, k, Some(names[i])) {
          NamedTextIsAType(e, k, Some(names[i]));
        }
      }
    case One(name) => NamedTextIsAType(e, k, Some(name));
    case NoType => NamedTextIsAType(e, k, None);
  }

  lemma {:induction false} NamedTextIsAType(e: Emitter, k: Keywords, name: Option<string>)
    ensures WellFormed(e.TypedAs(k, name)) <==> PrintableAs(e, k, name)
    decreases k, 0
  {
    AtomWellFormed(e.TypedAs(k, name)[0].atom);
    AtomWellFormed(Unknown);
    if name.Some? && name.value in PRIMITIVES {
    } else if name == Some("array") {
      if k.items.Some? { TextIsAType(e, k.items.value); }
    } else if name == Some("object") || k.properties.Declared? {
      if k.additional.Some? { TextIsAType(e, k.additional.value); }
      var members := if k.properties.Declared? then e.MembersOf(k.properties.list, k.required) else [];
      assert e.ObjectOf(k) == ObjectType(members, e.IndexOf(k));
      if k.properties.Declared? {
        forall i | 0 <= i < |members|
          ensures WellFormed(members[i].ty) <==> Printable(e, k.properties.list[i].schema)
        {
          TextIsAType(e, k.properties.list[i].schema);
        }
      }
      assert e.IndexOf(k).Values? ==>
          (WellFormed(e.IndexOf(k).ty) <==> (k.additional.Some? ==> Printable(e, k.additional.value)));
    }
  }
}
