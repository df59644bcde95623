// The exported types of schema files, and of all of them in one module: `emit_schema_file` and `generate_schemas_ts` in
// tools/gen_contracts.py.
module Contracts {
  import opened Wrappers
  import opened Schemas
  import opened TypeTexts
  import opened Emitters
  import opened Soundness
  import opened Meanings

  datatype Def = Def(name: string, schema: Schema)

  /** `stem` is the file name without `.schema.json`. */
  datatype SchemaFile = SchemaFile(stem: string, defs: seq<Def>, root: Schema)

  datatype Export = Export(name: string, text: Text)

  function EmitterOf(file: SchemaFile): Emitter {
    Emitter(Pascal(file.stem), "")
  }

  function ExportOf(file: SchemaFile, d: Def): Export {
    Export(Pascal(file.stem) + Pascal(d.name), EmitterOf(file).TypeOf(d.schema))
  }

  function Exports(file: SchemaFile): (exports: seq<Export>)
    ensures |exports| == |file.defs| + 1
  {
    seq(|file.defs|, i requires 0 <= i < |file.defs| => ExportOf(file, file.defs[i]))
    + [Export(Pascal(file.stem), EmitterOf(file).TypeOf(file.root))]
  }

  method EmitSchemaFile(file: SchemaFile) returns (name: string, blocks: seq<Export>)
    ensures name == Pascal(file.stem) && blocks == Exports(file)
  {
    name := Pascal(file.stem);
    var emitter := Emitter(name, "");
    blocks := [];
    for i := 0 to |file.defs|
      invariant blocks == Exports(file)[..i]
    {
      blocks := blocks + [Export(name + Pascal(file.defs[i].name), emitter.TypeOf(file.defs[i].schema))];
    }
    blocks := blocks + [Export(name, emitter.TypeOf(file.root))];
  }

  /** The schema an export was printed from. */
  function SchemaOf(file: SchemaFile, i: nat): Schema
    requires i <= |file.defs|
  {
    if i < |file.defs| then file.defs[i].schema else file.root
  }

  // ------------------------------------------------------------------ the module of all files

  function AllExports(files: seq<SchemaFile>): seq<Export> {
    if files == [] then [] else AllExports(files[..|files| - 1]) + Exports(files[|files| - 1])
  }

  /** The union of every file's own type. */
  function Contract(files: seq<SchemaFile>): Text {
    Join(Bar, seq(|files|, i requires 0 <= i < |files| => [A(Name(Pascal(files[i].stem)))]))
  }

  method GenerateSchemas(files: seq<SchemaFile>) returns (blocks: seq<Export>, contract: Text)
    ensures blocks == AllExports(files) && contract == Contract(files)
  {
    blocks := [];
    var names: seq<Text> := [];
    for i := 0 to |files|
      invariant blocks == AllExports(files[..i])
      invariant |names| == i && forall j :: 0 <= j < i ==> names[j] == [A(Name(Pascal(files[j].stem)))]
    {
      hide Pascal, Exports;
      assert files[..i + 1][..i] == files[..i];
      var name, more := EmitSchemaFile(files[i]);
      names := names + [[A(Name(name))]];
      blocks := blocks + more;
    }
    assert files[..|files|] == files;
    assert names == seq(|files|, j requires 0 <= j < |files| => [A(Name(Pascal(files[j].stem)))]);
    contract := Join(Bar, names);
  }

  // ------------------------------------------------------------------ what references name

  function LocalRef(d: Def): string {
    "#/$defs/" + d.name
  }

  /** A reference to a whole file of the module, as the files write it. */
  predicate NamesFile(ref: string, file: SchemaFile) {
    ref == file.stem + SCHEMA_SUFFIX || ref == "./schemas/" + file.stem + SCHEMA_SUFFIX
  }

  /** The reference, standing in the file `place.file`, names this schema of the module. */
  ghost predicate Names(files: seq<SchemaFile>, place: Place, target: Target) {
    || (exists f, i :: && 0 <= f < |files| && 0 <= i < |files[f].defs| && files[f].stem == place.file
                       && place.ref == LocalRef(files[f].defs[i])
                       && target == Target(files[f].stem, files[f].defs[i].schema))
    || (exists f :: 0 <= f < |files| && NamesFile(place.ref, files[f])
                    && target == Target(files[f].stem, files[f].root))
  }

  ghost predicate Resolves(files: seq<SchemaFile>, place: Place) {
    exists target :: Names(files, place, target)
  }

  /** The keys of a document's object and the files of a directory are distinct, so this is the only target. */
  ghost function TargetOf(files: seq<SchemaFile>, place: Place): (target: Target)
    requires Resolves(files, place)
    ensures Names(files, place, target)
  {
    var target :| Names(files, place, target);
    target
  }

  ghost function DefinitionsOf(files: seq<SchemaFile>, here: string, base: bool): Definitions {
    Definitions(here, imap place | Resolves(files, place) :: TargetOf(files, place), base)
  }

  /** How each file is printed, and the references that resolve in it. */
  ghost function WorldOf(files: seq<SchemaFile>): World {
    World(stem => Emitter(Pascal(stem), ""), stem => iset ref | Resolves(files, Place(stem, ref)))
  }

  predicate DistinctExports(exports: seq<Export>) {
    forall i, j :: 0 <= i < j < |exports| ==> exports[i].name != exports[j].name
  }

  /** Every schema's references resolve in the module or print `unknown`, none is narrowed and none joins an empty list;
      no name is declared twice. */
  ghost predicate Closed(files: seq<SchemaFile>) {
    && Coherent(files)
    && forall f, i :: 0 <= f < |files| && 0 <= i <= |files[f].defs| ==>
      Sane(files, files[f].stem, SchemaOf(files[f], i))
  }

  /** Names hold no slash, and no name is declared twice. */
  predicate Coherent(files: seq<SchemaFile>) {
    && (forall f, i :: 0 <= f < |files| && 0 <= i < |files[f].defs| ==> '/' !in files[f].defs[i].name)
    && (forall f :: 0 <= f < |files| ==> '/' !in files[f].stem)
    && DistinctExports(AllExports(files))
  }

  ghost predicate Sane(files: seq<SchemaFile>, stem: string, s: Schema) {
    var w := WorldOf(files);
    Printable(w.emitters(stem), s) && Clean(w.emitters(stem), w.refs(stem), s, false)
  }

  // ------------------------------------------------------------------ each name is declared

  function Declared(exports: seq<Export>): map<string, Text> {
    if exports == [] then map[]
    else Declared(exports[..|exports| - 1])[exports[|exports| - 1].name := exports[|exports| - 1].text]
  }

  lemma {:induction false} DeclaredAt(exports: seq<Export>, i: nat)
    requires DistinctExports(exports) && i < |exports|
    ensures exports[i].name in Declared(exports) && Declared(exports)[exports[i].name] == exports[i].text
  {
    if i < |exports| - 1 { DeclaredAt(exports[..|exports| - 1], i); }
  }

  lemma {:induction false} ExportIsIn(files: seq<SchemaFile>, f: nat, x: Export)
    requires f < |files| && x in Exports(files[f])
    ensures x in AllExports(files)
  {
    if f < |files| - 1 { ExportIsIn(files[..|files| - 1], f, x); }
  }

  lemma ExportIsDeclared(files: seq<SchemaFile>, f: nat, i: nat)
    requires Coherent(files) && f < |files| && i <= |files[f].defs|
    ensures var x, types := Exports(files[f])[i], Declared(AllExports(files));
            x.name in types && types[x.name] == x.text
  {
    var x := Exports(files[f])[i];
    assert x in Exports(files[f]);
    ExportIsIn(files, f, x);
    var j :| 0 <= j < |AllExports(files)| && AllExports(files)[j] == x;
    DeclaredAt(AllExports(files), j);
  }

  lemma {:induction false} LastSegmentOf(prefix: string, name: string)
    requires '/' !in name
    ensures LastSegment(prefix + ['/'] + name) == name && (prefix == "" ==> LastSegment(name) == name)
  {
    var s := prefix + ['/'] + name;
    if name != "" {
      var front := name[..|name| - 1];
      assert s[..|s| - 1] == prefix + ['/'] + front;
      LastSegmentOf(prefix, front);
      assert s[|s| - 1] == name[|name| - 1] && name[|name| - 1] in name;
    }
  }

  lemma LocalRefName(file: SchemaFile, d: Def)
    requires '/' !in d.name
    ensures EmitterOf(file).RefName(LocalRef(d)) == ExportOf(file, d).name
  {
    assert LocalRef(d) == "#/$defs" + ['/'] + d.name;
    LastSegmentOf("#/$defs", d.name);
    assert LOCAL <= LocalRef(d);
  }

  lemma StemOf(stem: string)
    requires '/' !in stem
    ensures var base := stem + SCHEMA_SUFFIX;
            EndsWith(base, SCHEMA_SUFFIX) && base[..|base| - |SCHEMA_SUFFIX|] == stem && '/' !in base
  {
    var base := stem + SCHEMA_SUFFIX;
    assert base[|base| - |SCHEMA_SUFFIX|..] == SCHEMA_SUFFIX;
    assert '/' !in SCHEMA_SUFFIX;
  }

  /** A reference to another file prints the name that file exports. */
  lemma FileRefName(e: Emitter, ref: string, file: SchemaFile)
    requires '/' !in file.stem && NamesFile(ref, file) && !(LOCAL <= ref) && !(COMPONENT <= ref)
    requires e.externalPrefix == ""
    ensures e.RefName(ref) == Pascal(file.stem)
  {
    var base := file.stem + SCHEMA_SUFFIX;
    StemOf(file.stem);
    hide Pascal;
    if ref == base {
      LastSegmentOf("", base);
    } else {
      assert ref == "./schemas" + ['/'] + base;
      assert ref[..10] == "./schemas/";
      LastSegmentOf("./schemas", base);
    }
  }

  lemma NoSlashNoFragment(ref: string, file: SchemaFile)
    requires '/' !in file.stem && NamesFile(ref, file)
    ensures !(LOCAL <= ref) && !(COMPONENT <= ref)
  {
    if ref == file.stem + SCHEMA_SUFFIX {
      assert '/' !in SCHEMA_SUFFIX;
      assert LOCAL[1] == '/' && COMPONENT[1] == '/';
      assert |ref| > 1 ==> ref[1] in ref;
    } else {
      assert ref[0] == '.' && LOCAL[0] == '#' && COMPONENT[0] == '#';
    }
  }

  /** What a resolving reference names is a schema of the module, declared under the name the reference prints. */
  lemma ModuleDeclares(files: seq<SchemaFile>, file: string, ref: string) returns (f: nat, i: nat)
    requires Coherent(files) && Resolves(files, Place(file, ref))
    ensures f < |files| && i <= |files[f].defs|
    ensures TargetOf(files, Place(file, ref)) == Target(files[f].stem, SchemaOf(files[f], i))
    ensures var name, types := WorldOf(files).emitters(file).RefName(ref), Declared(AllExports(files));
            name in types && types[name] == EmitterOf(files[f]).TypeOf(SchemaOf(files[f], i))
  {
    var place := Place(file, ref);
    var target := TargetOf(files, place);
    if g, j :| && 0 <= g < |files| && 0 <= j < |files[g].defs| && files[g].stem == place.file
               && place.ref == LocalRef(files[g].defs[j])
               && target == Target(files[g].stem, files[g].defs[j].schema)
    {
      f, i := g, j;
      LocalRefName(files[f], files[f].defs[i]);
      ExportIsDeclared(files, f, i);
    } else {
      f :| 0 <= f < |files| && NamesFile(place.ref, files[f]) && target == Target(files[f].stem, files[f].root);
      i := |files[f].defs|;
      NoSlashNoFragment(ref, files[f]);
      FileRefName(WorldOf(files).emitters(file), ref, files[f]);
      ExportIsDeclared(files, f, i);
    }
  }

  lemma ModuleLinkedAt(files: seq<SchemaFile>, here: string, base: bool, file: string, ref: string)
    requires Closed(files) && Resolves(files, Place(file, ref))
    ensures LinkedAt(WorldOf(files), DefinitionsOf(files, here, base), Declarations(Declared(AllExports(files)), base),
                     file, ref)
  {
    var f, i := ModuleDeclares(files, file, ref);
    assert Sane(files, files[f].stem, SchemaOf(files[f], i));
  }

  lemma ModuleLinked(files: seq<SchemaFile>, here: string, base: bool)
    requires Closed(files)
    ensures var w := WorldOf(files);
            Linked(w, w.emitters(here), w.refs(here), DefinitionsOf(files, here, base),
                   Declarations(Declared(AllExports(files)), base))
  {
    hide Closed, Resolves, LinkedAt, Names;
    var w := WorldOf(files);
    forall file, r | r in w.refs(file)
      ensures LinkedAt(w, DefinitionsOf(files, here, base), Declarations(Declared(AllExports(files)), base), file, r)
    {
      ModuleLinkedAt(files, here, base, file, r);
    }
  }

  /** The exported types of a module admit what its schemas accept, each reference, to a definition of its own file or
      to another file, read as the exported type of what it names. */
  lemma {:induction false} ExportsAdmit(n: nat, files: seq<SchemaFile>, base: bool, f: nat, i: nat, v: Json)
    requires Closed(files) && f < |files| && i <= |files[f].defs|
    requires Accepts(n, DefinitionsOf(files, files[f].stem, base), SchemaOf(files[f], i), v)
    ensures Inhabits(n, Declarations(Declared(AllExports(files)), base), Exports(files[f])[i].text, v)
  {
    var w, here := WorldOf(files), files[f].stem;
    ModuleLinked(files, here, base);
    assert Sane(files, here, SchemaOf(files[f], i));
    EmittedTypeAdmits(n, w, w.emitters(here), w.refs(here), DefinitionsOf(files, here, base),
                      Declarations(Declared(AllExports(files)), base), SchemaOf(files[f], i), false, v);
  }

  /** The union type admits what any file's schema accepts. */
  lemma {:induction false} ContractAdmits(n: nat, files: seq<SchemaFile>, base: bool, f: nat, v: Json)
    requires Closed(files) && f < |files|
    requires Accepts(n, DefinitionsOf(files, files[f].stem, base), files[f].root, v)
    ensures Inhabits(n + 1, Declarations(Declared(AllExports(files)), base), Contract(files), v)
  {
    var decls := Declarations(Declared(AllExports(files)), base);
    var names := seq(|files|, i requires 0 <= i < |files| => [A(Name(Pascal(files[i].stem)))]);
    ExportsAdmit(n, files, base, f, |files[f].defs|, v);
    ExportIsDeclared(files, f, |files[f].defs|);
    forall i | 0 <= i < |files|
      ensures Reread(names[i]).Some?
    {
      OneAtom(n + 1, decls, Name(Pascal(files[i].stem)), v);
    }
    OneAtom(n + 1, decls, Name(Pascal(files[f].stem)), v);
    assert Inhabits(n + 1, decls, names[f], v);
    UnionMeaning(n + 1, decls, names, v);
  }

  /** Every schema's references resolve in the module or print `unknown`, none joins an empty list, and operands of
      `allOf` print no bar: all that is asked for the types to be read exactly. */
  ghost predicate Complete(files: seq<SchemaFile>) {
    && Coherent(files)
    && forall f, i :: 0 <= f < |files| && 0 <= i <= |files[f].defs| ==>
      Readable(files, files[f].stem, SchemaOf(files[f], i))
  }

  ghost predicate Readable(files: seq<SchemaFile>, stem: string, s: Schema) {
    var w := WorldOf(files);
    Printable(w.emitters(stem), s) && Unglued(w.emitters(stem), w.refs(stem), s)
  }

  /** The exported types of a module admit exactly what its schemas mean to the generator. */
  lemma ExportsMean(n: nat, files: seq<SchemaFile>, base: bool, f: nat, i: nat, v: Json)
    requires Complete(files) && f < |files| && i <= |files[f].defs|
    ensures Inhabits(n, Declarations(Declared(AllExports(files)), base), Exports(files[f])[i].text, v) <==>
              Means(n, WorldOf(files), DefinitionsOf(files, files[f].stem, base), SchemaOf(files[f], i), v)
  {
    hide Means, Inhabits, Printable, Unglued;
    var w, here, decls := WorldOf(files), files[f].stem, Declarations(Declared(AllExports(files)), base);
    var defs := DefinitionsOf(files, here, base);
    forall file, r | r in w.refs(file) ensures MeantAt(w, defs, decls, file, r) {
      var g, j := ModuleDeclares(files, file, r);
      assert Readable(files, files[g].stem, SchemaOf(files[g], j));
    }
    assert Readable(files, here, SchemaOf(files[f], i));
    EmittedTypeMeans(n, w, w.emitters(here), w.refs(here), defs, decls, SchemaOf(files[f], i), v);
  }

  /** Why distinctness has to be asked: any separator of a name can replace any other without changing the type's
      name. */
  lemma {:induction false} SeparatorsCollide(before: string, a: char, b: char, after: string, start: bool)
    requires !IsAlphanumeric(a) && !IsAlphanumeric(b)
    ensures PascalFrom(before + [a] + after, start) == PascalFrom(before + [b] + after, start)
  {
    var x, y := before + [a] + after, before + [b] + after;
    if before == "" {
      assert x[1..] == after == y[1..];
    } else {
      assert x[1..] == before[1..] + [a] + after && y[1..] == before[1..] + [b] + after;
      SeparatorsCollide(before[1..], a, b, after, !IsAlphanumeric(before[0]));
    }
  }
}
