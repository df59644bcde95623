// The seed of the local demo, apps/api/src/choregos_api/local_demo.py: it creates what is missing, and what follows the
// mode it switches, unless a person chose otherwise.
module Seeds {
  import opened Wrappers

  /** Which models the install uses: none, or a provider's. */
  datatype Mode = Fakes | Anthropic | OpenAi

  const MODES := [Fakes, Anthropic, OpenAi]

  datatype Connector = Connector(ty: string, config: map<string, string>)

  const KINDS := ["tracker", "scm", "ci", "cd", "runtime", "gateway", "memory", "notify"]

  /** The kinds that follow the mode. */
  predicate FollowsMode(kind: string) { kind == "runtime" || kind == "gateway" }

  function DemoConnector(mode: Mode, kind: string): Connector {
    if kind == "tracker" then Connector("internal", map[])
    else if kind == "memory" then Connector("lexical", map[])
    else if kind == "runtime" then
      if mode.Fakes? then Connector("fake", map["simulate" := "true"])
      else Connector("local_docker", map["network" := "choregos"])
    else if kind == "gateway" && !mode.Fakes? then Connector("litellm", map[])
    else Connector("fake", map[])
  }

  function DemoConnectors(kind: string): Mode -> Connector { mode => DemoConnector(mode, kind) }

  function DemoBackend(mode: Mode): string {
    if mode.Fakes? then "claude-code" else "opencode"
  }

  function DemoModels(mode: Mode): map<string, string> {
    match mode
    case Fakes => map[]
    case Anthropic =>
      map["standard" := "anthropic/claude-sonnet-5-5", "strong" := "anthropic/claude-opus-5-5",
          "cheap" := "anthropic/claude-haiku-5-5"]
    case OpenAi => map["standard" := "openai/gpt-5.5", "strong" := "openai/gpt-5.5", "cheap" := "openai/gpt-5.4-mini"]
  }

  /** The demo project; a backend or profiles nobody set are absent. */
  datatype Project = Project(backend: Option<string>, profiles: Option<map<string, string>>,
                             connectors: map<string, Connector>)

  /** What is installed; each work item says whether it was started. */
  datatype Install = Install(project: Option<Project>, items: seq<bool>)

  const NOTHING := Install(None, [])

  // ------------------------------------------------------------------ one value

  /** What some mode seeds. */
  predicate Seeded<T(==)>(value: Mode -> T, x: T) {
    exists i :: 0 <= i < |MODES| && value(MODES[i]) == x
  }

  /** A value that some mode seeds follows the mode; any other is a person's choice. */
  function Follow<T(==)>(value: Mode -> T, mode: Mode, current: T): T {
    if current != value(mode) && Seeded(value, current) then value(mode) else current
  }

  lemma ValueIsSeeded<T>(value: Mode -> T, mode: Mode)
    ensures Seeded(value, value(mode))
  {
    assert MODES[0] == Fakes && MODES[1] == Anthropic && MODES[2] == OpenAi;
    var i := if mode.Fakes? then 0 else if mode.Anthropic? then 1 else 2;
    assert value(MODES[i]) == value(mode);
  }

  // ------------------------------------------------------------------ one seed

  function SeedConnectors(mode: Mode, connectors: map<string, Connector>, kinds: seq<string>): map<string, Connector> {
    if kinds == [] then connectors
    else
      var before := SeedConnectors(mode, connectors, kinds[..|kinds| - 1]);
      before[kinds[|kinds| - 1] := SeedConnector(mode, before, kinds[|kinds| - 1])]
  }

  function SeedConnector(mode: Mode, connectors: map<string, Connector>, kind: string): Connector {
    if kind !in connectors then DemoConnector(mode, kind)
    else if FollowsMode(kind) then Follow(DemoConnectors(kind), mode, connectors[kind])
    else connectors[kind]
  }

  function BackendOf(p: Project): string {
    if p.backend.Some? then p.backend.value else "claude-code"
  }

  function ProfilesOf(p: Project): map<string, string> {
    if p.profiles.Some? then p.profiles.value else map[]
  }

  function SeedBackend(mode: Mode, p: Project): Option<string> {
    var followed := Follow(DemoBackend, mode, BackendOf(p));
    if followed == BackendOf(p) then p.backend else Some(followed)
  }

  function SeedProfiles(mode: Mode, p: Project): Option<map<string, string>> {
    var followed := Follow(DemoModels, mode, ProfilesOf(p));
    if followed == ProfilesOf(p) then p.profiles else Some(followed)
  }

  function SeedProject(mode: Mode, project: Option<Project>): Project {
    var p := match project
      case None => Project(Some(DemoBackend(mode)), Some(DemoModels(mode)), map[])
      case Some(p) => p.(backend := SeedBackend(mode, p), profiles := SeedProfiles(mode, p));
    p.(connectors := SeedConnectors(mode, p.connectors, KINDS))
  }

  /** The first work item starts at once in fakes mode only. */
  function Seed(mode: Mode, s: Install): Install {
    Install(Some(SeedProject(mode, s.project)), if s.items == [] then [mode.Fakes?] else s.items)
  }

  class Demo {
    var project: Option<Project>
    var items: seq<bool>

    ghost function State(): Install
      reads this
    {
      Install(project, items)
    }

    constructor ()
      ensures State() == NOTHING
    {
      project, items := None, [];
    }

    method SeedLocalDemo(mode: Mode)
      modifies this
      ensures State() == Seed(mode, old(State()))
    {
      var p: Project;
      if project.None? {
        p := Project(Some(DemoBackend(mode)), Some(DemoModels(mode)), map[]);
      } else {
        p := SwitchConfig(mode, project.value);
      }
      var connectors := EachConnector(mode, p.connectors);
      project := Some(p.(connectors := connectors));
      if items == [] { items := [mode.Fakes?]; }
    }
  }

  method SwitchConfig(mode: Mode, current: Project) returns (p: Project)
    ensures p == current.(backend := SeedBackend(mode, current), profiles := SeedProfiles(mode, current))
  {
    p := current;
    var backend, profiles := BackendOf(p), ProfilesOf(p);
    if backend != DemoBackend(mode) && Seeded(DemoBackend, backend) { p := p.(backend := Some(DemoBackend(mode))); }
    if profiles != DemoModels(mode) && Seeded(DemoModels, profiles) { p := p.(profiles := Some(DemoModels(mode))); }
  }

  method OneConnector(mode: Mode, existing: map<string, Connector>, kind: string)
    returns (connectors: map<string, Connector>)
    ensures connectors == existing[kind := SeedConnector(mode, existing, kind)]
  {
    connectors := existing;
    if kind !in connectors {
      connectors := connectors[kind := DemoConnector(mode, kind)];
    } else if FollowsMode(kind) && connectors[kind] != DemoConnector(mode, kind)
              && Seeded(DemoConnectors(kind), connectors[kind]) {
      connectors := connectors[kind := DemoConnector(mode, kind)];
    }
  }

  method EachConnector(mode: Mode, existing: map<string, Connector>) returns (connectors: map<string, Connector>)
    ensures connectors == SeedConnectors(mode, existing, KINDS)
  {
    connectors := existing;
    for i := 0 to |KINDS|
      invariant connectors == SeedConnectors(mode, existing, KINDS[..i])
    {
      assert KINDS[..i + 1][..i] == KINDS[..i];
      connectors := OneConnector(mode, connectors, KINDS[i]);
    }
    assert KINDS[..|KINDS|] == KINDS;
  }

  // ------------------------------------------------------------------ what a seed leaves

  lemma FollowAgain<T>(value: Mode -> T, mode: Mode, other: Mode, current: T)
    ensures Follow(value, mode, Follow(value, other, current)) == Follow(value, mode, current)
    ensures Follow(value, mode, current) == if Seeded(value, current) then value(mode) else current
  {
    ValueIsSeeded(value, mode);
    ValueIsSeeded(value, other);
  }

  /** Every connector of the demo is there and is what its kind asks; no other is touched. */
  lemma {:induction false} ConnectorAt(mode: Mode, connectors: map<string, Connector>, kinds: seq<string>, kind: string)
    ensures var after := SeedConnectors(mode, connectors, kinds);
            if kind in kinds then kind in after && after[kind] == SeedConnector(mode, connectors, kind)
            else kind in after <==> kind in connectors
    ensures kind !in kinds && kind in connectors ==> SeedConnectors(mode, connectors, kinds)[kind] == connectors[kind]
  {
    if kinds != [] {
      var last := kinds[|kinds| - 1];
      ConnectorAt(mode, connectors, kinds[..|kinds| - 1], kind);
      assert kind in kinds <==> kind in kinds[..|kinds| - 1] || kind == last;
      if kind in kinds[..|kinds| - 1] && kind == last {
        ValueIsSeeded(DemoConnectors(kind), mode);
      }
    }
  }

  // ------------------------------------------------------------------ any number of seeds

  function SeedAll(s: Install, modes: seq<Mode>): Install {
    if modes == [] then s else Seed(modes[|modes| - 1], SeedAll(s, modes[..|modes| - 1]))
  }

  /** What a value ends as: a person's choice stays, anything else is what the last mode wants. */
  function Settled<T(==)>(value: Mode -> T, modes: seq<Mode>, current: T): T {
    if modes != [] && Seeded(value, current) then value(modes[|modes| - 1]) else current
  }

  lemma SettledNext<T>(value: Mode -> T, modes: seq<Mode>, current: T)
    requires modes != []
    ensures Follow(value, modes[|modes| - 1], Settled(value, modes[..|modes| - 1], current)) ==
              Settled(value, modes, current)
  {
    FollowAgain(value, modes[|modes| - 1], modes[|modes| - 1], current);
    if |modes| > 1 { ValueIsSeeded(value, modes[|modes| - 2]); }
    ValueIsSeeded(value, modes[|modes| - 1]);
  }

  /** After any seeds in any modes: a backend, profiles, runtime or gateway that no mode seeds is never overwritten, one
      that some mode seeds is what the last mode wants, and every other connector is as it was. */
  lemma {:induction false} SeedsSettle(s: Install, modes: seq<Mode>, kind: string)
    requires s.project.Some? && kind in s.project.value.connectors
    ensures var p, after := s.project.value, SeedAll(s, modes).project;
            && after.Some? && kind in after.value.connectors
            && BackendOf(after.value) == Settled(DemoBackend, modes, BackendOf(p))
            && ProfilesOf(after.value) == Settled(DemoModels, modes, ProfilesOf(p))
            && after.value.connectors[kind] ==
                 if kind in KINDS && FollowsMode(kind) then Settled(DemoConnectors(kind), modes, p.connectors[kind])
                 else p.connectors[kind]
  {
    if modes != [] {
      var mode, before := modes[|modes| - 1], SeedAll(s, modes[..|modes| - 1]).project.value;
      SeedsSettle(s, modes[..|modes| - 1], kind);
      ConnectorAt(mode, before.connectors, KINDS, kind);
      SettledNext(DemoBackend, modes, BackendOf(s.project.value));
      SettledNext(DemoModels, modes, ProfilesOf(s.project.value));
      SettledNext(DemoConnectors(kind), modes, s.project.value.connectors[kind]);
    }
  }

  /** An install nobody touched depends on the last mode only, but for its work item, started if the first mode was
      fakes. */
  lemma {:induction false} UntouchedFollowsLastMode(modes: seq<Mode>)
    requires modes != []
    ensures SeedAll(NOTHING, modes).project == Seed(modes[|modes| - 1], NOTHING).project
    ensures SeedAll(NOTHING, modes).items == [modes[0].Fakes?]
  {
    var front, last := modes[..|modes| - 1], modes[|modes| - 1];
    if front == [] {
      assert modes == [last];
    } else {
      UntouchedFollowsLastMode(front);
      SeedAfterSeed(front[|front| - 1], last);
    }
  }

  lemma SeedAfterSeed(before: Mode, mode: Mode)
    ensures SeedProject(mode, Some(SeedProject(before, None))) == SeedProject(mode, None)
  {
    var p, q := SeedProject(before, None), SeedProject(mode, None);
    ValueIsSeeded(DemoBackend, before);
    ValueIsSeeded(DemoModels, before);
    var a, b := SeedConnectors(mode, p.connectors, KINDS), q.connectors;
    forall kind ensures (kind in a <==> kind in b) && (kind in a ==> a[kind] == b[kind]) {
      ConnectorAfterSeed(before, mode, kind);
    }
    assert a == b;
  }

  lemma ConnectorAfterSeed(before: Mode, mode: Mode, kind: string)
    ensures var a := SeedConnectors(mode, SeedConnectors(before, map[], KINDS), KINDS);
            var b := SeedConnectors(mode, map[], KINDS);
            (kind in a <==> kind in b) && (kind in a ==> a[kind] == b[kind])
  {
    ConnectorAt(before, map[], KINDS, kind);
    ConnectorAt(mode, map[], KINDS, kind);
    ConnectorAt(mode, SeedConnectors(before, map[], KINDS), KINDS, kind);
    ValueIsSeeded(DemoConnectors(kind), before);
    if !FollowsMode(kind) { NotFollowing(kind, before, mode); }
  }

  /** A connector that does not follow the mode is the same in every mode. */
  lemma NotFollowing(kind: string, a: Mode, b: Mode)
    requires !FollowsMode(kind)
    ensures DemoConnector(a, kind) == DemoConnector(b, kind)
  {}

  lemma FreshConnector(mode: Mode, kind: string)
    ensures var connectors := SeedConnectors(mode, map[], KINDS);
            && (kind in connectors <==> kind in KINDS)
            && (kind in KINDS ==> connectors[kind] == DemoConnector(mode, kind))
  {
    ConnectorAt(mode, map[], KINDS, kind);
  }

  lemma KindsAre(kind: string)
    ensures kind in KINDS <==> kind in {"tracker", "scm", "ci", "cd", "runtime", "gateway", "memory", "notify"}
  {
    assert KINDS[0] == "tracker" && KINDS[1] == "scm" && KINDS[2] == "ci" && KINDS[3] == "cd";
    assert KINDS[4] == "runtime" && KINDS[5] == "gateway" && KINDS[6] == "memory" && KINDS[7] == "notify";
  }

  /** What a fresh demo connects. */
  lemma FreshConnectors(mode: Mode, kind: string)
    ensures var c := Seed(mode, NOTHING).project.value.connectors;
            && (kind in c <==> kind in {"tracker", "scm", "ci", "cd", "runtime", "gateway", "memory", "notify"})
            && (kind == "tracker" ==> c[kind] == Connector("internal", map[]))
            && (kind == "memory" ==> c[kind] == Connector("lexical", map[]))
            && (kind == "runtime" ==> c[kind] == if mode == Fakes then Connector("fake", map["simulate" := "true"])
                                                 else Connector("local_docker", map["network" := "choregos"]))
            && (kind == "gateway" ==> c[kind] == Connector(if mode == Fakes then "fake" else "litellm", map[]))
            && (kind in {"scm", "ci", "cd", "notify"} ==> c[kind] == Connector("fake", map[]))
  {
    hide SeedConnectors;
    FreshConnector(mode, kind);
    KindsAre(kind);
  }

  /** And which models it uses. */
  lemma FreshModels(mode: Mode)
    ensures var p := Seed(mode, NOTHING).project.value;
            && p.backend == Some(if mode == Fakes then "claude-code" else "opencode")
            && p.profiles.Some?
            && p.profiles.value.Keys == (if mode == Fakes then {} else {"standard", "strong", "cheap"})
            && forall name :: name in p.profiles.value ==>
                 (if mode == Anthropic then "anthropic/" else "openai/") <= p.profiles.value[name]
  {
    hide SeedConnectors;
  }
}
