// TypeScript types as the generator prints them: atoms joined by `|` and `&` with no parentheses, read back with
// `&` binding tighter than `|`. A bracketed type (`Array<...>`, `{ ... }`) is one atom that carries its inner text.
module TypeTexts {
  import opened Wrappers
  import opened Schemas

  type Text = seq<Token>

  datatype Token = A(atom: Atom) | Bar | Amp

  datatype Atom =
    | Never
    | Unknown
    | NullType
    | StringType
    | NumberType
    | BooleanType
    | Literal(v: Json)
    | Name(name: string)
    | ArrayOf(elem: seq<Token>)
    | ObjectType(members: seq<Member>, index: Index)
    | EmptyRecord

  datatype Member = Member(name: string, optional: bool, ty: seq<Token>)

  /** The `[key: string]: ...` line. */
  datatype Index = NoIndex | Values(ty: seq<Token>)

  /** The declarations in scope, and the answer once the unfolding budget is spent (see `Definitions`). */
  datatype Declarations = Declarations(types: map<string, Text>, base: bool)

  type Groups = seq<seq<Atom>>

  /** The type expression a text is: a union of intersections, or nothing when the text is not one. */
  function Reread(text: Text): (r: Option<Groups>)
    ensures r.Some? ==> |r.value| > 0 && forall i :: 0 <= i < |r.value| ==> |r.value[i]| > 0
  {
    if |text| == 0 || !text[0].A? then None
    else if |text| == 1 then Some([[text[0].atom]])
    else if text[1].A? then None
    else match Reread(text[2..])
      case None => None
      case Some(rest) =>
        Some(Prepend(text[0].atom, text[1], rest))
  }

  /** `a | rest`, or `a & rest`, which only extends the first group. */
  function Prepend(a: Atom, op: Token, rest: Groups): Groups
    requires |rest| > 0
  {
    if op.Bar? then [[a]] + rest else [[a] + rest[0]] + rest[1..]
  }

  /** Python's `sep.join(parts)`. */
  function Join(sep: Token, parts: seq<Text>): (text: Text)
  {
    if |parts| == 0 then []
    else if |parts| == 1 then parts[0]
    else parts[0] + [sep] + Join(sep, parts[1..])
  }

  // ------------------------------------------------------------------ what a type admits

  /** A literal: a scalar admits itself; `{"a": 1}` is an object type, `[1, 2]` a tuple. */
  ghost predicate LiteralAdmits(l: Json, v: Json)
    decreases l
  {
    match l
    case Arr(items) =>
      v.Arr? && |v.items| == |items| && forall i :: 0 <= i < |items| ==> LiteralAdmits(items[i], v.items[i])
    case Obj(fields) =>
      v.Obj? && forall name :: name in fields ==> name in v.fields && LiteralAdmits(fields[name], v.fields[name])
    case _ => l == v
  }

  /** `v` inhabits the type the text reads as, when at most `n` names are unfolded on any path. */
  ghost predicate Inhabits(n: nat, decls: Declarations, text: Text, v: Json)
    decreases n, v, 1
  {
    var groups := Reread(text);
    groups.Some? && exists i :: 0 <= i < |groups.value| && InGroup(n, decls, groups.value[i], v)
  }

  ghost predicate InGroup(n: nat, decls: Declarations, group: seq<Atom>, v: Json)
    decreases n, v, 0, 1
  {
    forall j :: 0 <= j < |group| ==> InAtom(n, decls, group[j], v)
  }

  ghost predicate InAtom(n: nat, decls: Declarations, atom: Atom, v: Json)
    decreases n, v, 0, 0
  {
    match atom
    case Never => false
    case Unknown => true
    case NullType => v.Null?
    case StringType => v.Str?
    case NumberType => v.Num?
    case BooleanType => v.Bool?
    case Literal(l) => LiteralAdmits(l, v)
    case Name(name) => if name in decls.types && n > 0 then Inhabits(n - 1, decls, decls.types[name], v) else decls.base
    case ArrayOf(elem) => v.Arr? && forall i :: 0 <= i < |v.items| ==> Inhabits(n, decls, elem, v.items[i])
    case ObjectType(members, index) =>
      // Structural: a value may have more members than the type names, but an index line binds every member.
      && v.Obj?
      && (forall i :: 0 <= i < |members| ==>
            if members[i].name in v.fields then Inhabits(n, decls, members[i].ty, v.fields[members[i].name])
            else members[i].optional)
      && (index.Values? ==> forall name :: name in v.fields ==> Inhabits(n, decls, index.ty, v.fields[name]))
    case EmptyRecord => v.Obj? && v.fields == map[]
  }

  lemma {:induction false} LiteralAdmitsItself(l: Json)
    ensures LiteralAdmits(l, l)
    decreases l
  {
    match l
    case Arr(items) =>
      forall i | 0 <= i < |items| ensures LiteralAdmits(items[i], items[i]) { LiteralAdmitsItself(items[i]); }
    case Obj(fields) =>
      forall name | name in fields
        ensures LiteralAdmits(fields[name], fields[name])
      {
        LiteralAdmitsItself(fields[name]);
      }
    case _ =>
  }

  // ------------------------------------------------------------------ reading a join back

  /** What `&` does between two unparenthesised unions: only the groups on its two sides meet. */
  function Glue(x: Groups, y: Groups): (g: Groups)
    requires |x| > 0 && |y| > 0
  {
    x[..|x| - 1] + [x[|x| - 1] + y[0]] + y[1..]
  }

  /** What joining two texts with `sep` does to the groups they read as. */
  function Merge(sep: Token, x: Groups, y: Groups): Groups
    requires |x| > 0 && |y| > 0
  {
    if sep.Bar? then x + y else Glue(x, y)
  }

  lemma MergePrepend(a: Atom, op: Token, sep: Token, x: Groups, y: Groups)
    requires |x| > 0 && |y| > 0
    ensures Merge(sep, Prepend(a, op, x), y) == Prepend(a, op, Merge(sep, x, y))
  {
    if sep.Bar? {
      ConcatPrepend(a, op, x, y);
    } else if op.Bar? {
      GlueBar(a, x, y);
    } else {
      GlueAmp(a, x, y);
    }
  }

  lemma ConcatPrepend(a: Atom, op: Token, x: Groups, y: Groups)
    requires |x| > 0
    ensures Prepend(a, op, x) + y == Prepend(a, op, x + y)
  {}

  lemma GlueBar(a: Atom, x: Groups, y: Groups)
    requires |x| > 0 && |y| > 0
    ensures Glue([[a]] + x, y) == [[a]] + Glue(x, y)
  {
    var ax := [[a]] + x;
    assert ax[|x|] == x[|x| - 1];
    assert ax[..|x|] == [[a]] + x[..|x| - 1];
  }

  lemma GlueAmp(a: Atom, x: Groups, y: Groups)
    requires |x| > 0 && |y| > 0
    ensures Glue([[a] + x[0]] + x[1..], y) == [[a] + Glue(x, y)[0]] + Glue(x, y)[1..]
  {
    var l := |x| - 1;
    var ax := [[a] + x[0]] + x[1..];
    if l == 0 {
      assert [a] + x[0] + y[0] == [a] + (x[0] + y[0]);
      assert ax[..0] == [] && Glue(ax, y) == [ax[0] + y[0]] + y[1..];
      assert Glue(x, y)[1..] == y[1..];
    } else {
      assert ax[l] == x[l] && ax[..l] == [[a] + x[0]] + x[1..l];
      assert Glue(x, y)[1..] == x[1..l] + [x[l] + y[0]] + y[1..];
    }
  }

  /** A joined text reads back exactly when both sides do: as the union of the groups, or as their glue. */
  lemma {:induction false} RereadJoined(x: Text, sep: Token, y: Text)
    requires !sep.A?
    ensures Reread(x + [sep] + y).Some? <==> Reread(x).Some? && Reread(y).Some?
    ensures Reread(x).Some? && Reread(y).Some? ==>
              Reread(x + [sep] + y).value == Merge(sep, Reread(x).value, Reread(y).value)
    decreases |x|
  {
    var text := x + [sep] + y;
    if |x| == 0 {
      assert text[0] == sep;
    } else if |x| == 1 {
      assert text[0] == x[0] && text[1] == sep && text[2..] == y;
    } else {
      assert text[0] == x[0] && text[1] == x[1] && text[2..] == x[2..] + [sep] + y;
      if x[0].A? && !x[1].A? {
        RereadJoined(x[2..], sep, y);
        if Reread(x[2..]).Some? && Reread(y).Some? {
          MergePrepend(x[0].atom, x[1], sep, Reread(x[2..]).value, Reread(y).value);
        }
      }
    }
  }

  /** Membership in a union of groups. */
  ghost predicate InGroups(n: nat, decls: Declarations, groups: Groups, v: Json) {
    exists i :: 0 <= i < |groups| && InGroup(n, decls, groups[i], v)
  }

  lemma InBothHalves(n: nat, decls: Declarations, a: seq<Atom>, b: seq<Atom>, v: Json)
    ensures InGroup(n, decls, a + b, v) <==> InGroup(n, decls, a, v) && InGroup(n, decls, b, v)
  {
    if InGroup(n, decls, a + b, v) {
      forall j | 0 <= j < |a| ensures InAtom(n, decls, a[j], v) { assert (a + b)[j] == a[j]; }
      forall j | 0 <= j < |b| ensures InAtom(n, decls, b[j], v) { assert (a + b)[|a| + j] == b[j]; }
    }
  }

  /** The exact meaning of an unparenthesised `x & y`: the groups that do not touch the `&` are let through whole. */
  lemma {:induction false} GlueMeaning(n: nat, decls: Declarations, x: Groups, y: Groups, v: Json)
    requires |x| > 0 && |y| > 0
    ensures InGroups(n, decls, Glue(x, y), v) <==>
              || InGroups(n, decls, x[..|x| - 1], v)
              || (InGroup(n, decls, x[|x| - 1], v) && InGroup(n, decls, y[0], v))
              || InGroups(n, decls, y[1..], v)
  {
    var l := |x| - 1;
    var glued, middle := Glue(x, y), x[l] + y[0];
    InBothHalves(n, decls, x[l], y[0], v);
    assert glued[l] == middle;
    forall i | 0 <= i < l ensures glued[i] == x[..l][i] {}
    forall i | 0 <= i < |y| - 1 ensures glued[l + 1 + i] == y[1..][i] {}
    if i :| 0 <= i < |glued| && InGroup(n, decls, glued[i], v) {
      if i > l { assert InGroup(n, decls, y[1..][i - l - 1], v); }
    }
  }

  /** Hence the glue never loses a value of the intersection it stands for. */
  lemma {:induction false} GlueCoversIntersection(n: nat, decls: Declarations, x: Groups, y: Groups, v: Json)
    requires |x| > 0 && |y| > 0
    requires InGroups(n, decls, x, v) && InGroups(n, decls, y, v)
    ensures InGroups(n, decls, Glue(x, y), v)
  {
    GlueMeaning(n, decls, x, y, v);
    var i :| 0 <= i < |x| && InGroup(n, decls, x[i], v);
    var j :| 0 <= j < |y| && InGroup(n, decls, y[j], v);
    if i < |x| - 1 {
      assert InGroup(n, decls, x[..|x| - 1][i], v);
    } else if j > 0 {
      assert InGroup(n, decls, y[1..][j - 1], v);
    }
  }

  /** A join of type texts is a type text, and conversely. */
  lemma {:induction false} JoinReads(sep: Token, parts: seq<Text>)
    requires !sep.A? && |parts| > 0
    ensures Reread(Join(sep, parts)).Some? <==> forall i :: 0 <= i < |parts| ==> Reread(parts[i]).Some?
  {
    if |parts| > 1 {
      RereadJoined(parts[0], sep, Join(sep, parts[1..]));
      JoinReads(sep, parts[1..]);
      assert forall i :: 1 <= i < |parts| ==> parts[i] == parts[1..][i - 1];
    }
  }

  /** A `|` join admits exactly what one of its operands admits. */
  lemma {:induction false} UnionMeaning(n: nat, decls: Declarations, parts: seq<Text>, v: Json)
    requires |parts| > 0 && forall i :: 0 <= i < |parts| ==> Reread(parts[i]).Some?
    ensures Inhabits(n, decls, Join(Bar, parts), v) <==> exists i :: 0 <= i < |parts| && Inhabits(n, decls, parts[i], v)
  {
    if |parts| == 1 {
      assert Inhabits(n, decls, Join(Bar, parts), v) == Inhabits(n, decls, parts[0], v);
    } else {
      var rest := parts[1..];
      JoinReads(Bar, rest);
      RereadJoined(parts[0], Bar, Join(Bar, rest));
      UnionMeaning(n, decls, rest, v);
      var x, y := Reread(parts[0]).value, Reread(Join(Bar, rest)).value;
      InConcatenation(n, decls, x, y, v);
      assert forall i :: 1 <= i < |parts| ==> parts[i] == rest[i - 1];
      if i :| 0 <= i < |parts| && Inhabits(n, decls, parts[i], v) {
        if i > 0 { assert Inhabits(n, decls, rest[i - 1], v); }
      }
      if i :| 0 <= i < |rest| && Inhabits(n, decls, rest[i], v) {
        assert Inhabits(n, decls, parts[i + 1], v);
      }
    }
  }

  lemma InConcatenation(n: nat, decls: Declarations, x: Groups, y: Groups, v: Json)
    ensures InGroups(n, decls, x + y, v) <==> InGroups(n, decls, x, v) || InGroups(n, decls, y, v)
  {
    if i :| 0 <= i < |x| && InGroup(n, decls, x[i], v) { assert InGroup(n, decls, (x + y)[i], v); }
    if i :| 0 <= i < |y| && InGroup(n, decls, y[i], v) { assert InGroup(n, decls, (x + y)[|x| + i], v); }
    if i :| 0 <= i < |x + y| && InGroup(n, decls, (x + y)[i], v) {
      if i >= |x| { assert InGroup(n, decls, y[i - |x|], v); }
    }
  }

  /** An `&` join admits at least the intersection of its operands, however many unions they hold. */
  lemma {:induction false} IntersectionCovered(n: nat, decls: Declarations, parts: seq<Text>, v: Json)
    requires |parts| > 0 && forall i :: 0 <= i < |parts| ==> Inhabits(n, decls, parts[i], v)
    ensures Inhabits(n, decls, Join(Amp, parts), v)
  {
    if |parts| > 1 {
      var rest := parts[1..];
      forall i | 0 <= i < |rest| ensures Inhabits(n, decls, rest[i], v) { assert rest[i] == parts[i + 1]; }
      IntersectionCovered(n, decls, rest, v);
      RereadJoined(parts[0], Amp, Join(Amp, rest));
      GlueCoversIntersection(n, decls, Reread(parts[0]).value, Reread(Join(Amp, rest)).value, v);
    }
  }

  // ------------------------------------------------------------------ well-formed all the way down

  /** The text is a type expression, and so is every text inside its brackets. */
  predicate WellFormed(text: Text)
    decreases text, 1
  {
    Reread(text).Some? && AtomsWellFormed(text)
  }

  predicate AtomsWellFormed(text: Text)
    decreases text, 0
  {
    forall i :: 0 <= i < |text| ==> TokenWellFormed(text[i])
  }

  predicate TokenWellFormed(token: Token)
    decreases token
  {
    token.A? ==>
      match token.atom
      case ArrayOf(elem) => WellFormed(elem)
      case ObjectType(members, index) =>
        && (forall i :: 0 <= i < |members| ==> WellFormed(members[i].ty))
        && (index.Values? ==> WellFormed(index.ty))
      case _ => true
  }

  lemma AtomWellFormed(atom: Atom)
    ensures WellFormed([A(atom)]) <==> TokenWellFormed(A(atom))
  {
    assert [A(atom)][0] == A(atom);
  }

  lemma {:induction false} JoinWellFormed(sep: Token, parts: seq<Text>)
    requires !sep.A? && |parts| > 0
    ensures AtomsWellFormed(Join(sep, parts)) <==> forall i :: 0 <= i < |parts| ==> AtomsWellFormed(parts[i])
    ensures WellFormed(Join(sep, parts)) <==> forall i :: 0 <= i < |parts| ==> WellFormed(parts[i])
  {
    JoinReads(sep, parts);
    if |parts| > 1 {
      var rest := parts[1..];
      JoinWellFormed(sep, rest);
      assert forall i :: 1 <= i < |parts| ==> parts[i] == rest[i - 1];
      ConcatWellFormed(parts[0], sep, Join(sep, rest));
    }
  }

  lemma ConcatWellFormed(x: Text, sep: Token, y: Text)
    requires !sep.A?
    ensures AtomsWellFormed(x + [sep] + y) <==> AtomsWellFormed(x) && AtomsWellFormed(y)
  {
    var text := x + [sep] + y;
    assert forall i :: 0 <= i < |x| ==> text[i] == x[i];
    assert forall i :: 0 <= i < |y| ==> y[i] == text[|x| + 1 + i];
    if AtomsWellFormed(text) {
      forall i | 0 <= i < |y| ensures TokenWellFormed(y[i]) { assert text[|x| + 1 + i] == y[i]; }
    }
  }

  // ------------------------------------------------------------------ when `&` is exact

  /** One group at the top level: no `|` outside brackets. */
  ghost predicate Single(text: Text) {
    Reread(text).Some? && |Reread(text).value| == 1
  }

  lemma SingleMeaning(n: nat, decls: Declarations, text: Text, v: Json)
    requires Single(text)
    ensures Inhabits(n, decls, text, v) <==> InGroup(n, decls, Reread(text).value[0], v)
  {}

  lemma SingleGlue(n: nat, decls: Declarations, x: Text, y: Text, v: Json)
    requires Single(x) && Single(y)
    ensures Single(x + [Amp] + y)
    ensures Inhabits(n, decls, x + [Amp] + y, v) <==> Inhabits(n, decls, x, v) && Inhabits(n, decls, y, v)
  {
    RereadJoined(x, Amp, y);
    var a, b := Reread(x).value[0], Reread(y).value[0];
    assert Reread(x + [Amp] + y).value == [a + b];
    InBothHalves(n, decls, a, b, v);
    SingleMeaning(n, decls, x, v);
    SingleMeaning(n, decls, y, v);
    SingleMeaning(n, decls, x + [Amp] + y, v);
  }

  /** An `&` join of operands without a top-level `|` admits exactly their intersection, and has none either. */
  lemma {:induction false} IntersectionExact(n: nat, decls: Declarations, parts: seq<Text>, v: Json)
    requires |parts| > 0 && forall i :: 0 <= i < |parts| ==> Single(parts[i])
    ensures Single(Join(Amp, parts))
    ensures Inhabits(n, decls, Join(Amp, parts), v) <==>
              forall i :: 0 <= i < |parts| ==> Inhabits(n, decls, parts[i], v)
  {
    if |parts| > 1 {
      var rest := parts[1..];
      assert forall i :: 0 <= i < |rest| ==> rest[i] == parts[i + 1];
      IntersectionExact(n, decls, rest, v);
      SingleGlue(n, decls, parts[0], Join(Amp, rest), v);
      assert (forall i :: 0 <= i < |rest| ==> Inhabits(n, decls, rest[i], v)) <==>
             (forall i :: 1 <= i < |parts| ==> Inhabits(n, decls, parts[i], v)) by {
        if forall i :: 0 <= i < |rest| ==> Inhabits(n, decls, rest[i], v) {
          forall i | 1 <= i < |parts| ensures Inhabits(n, decls, parts[i], v) { assert parts[i] == rest[i - 1]; }
        }
      }
    }
  }
}
