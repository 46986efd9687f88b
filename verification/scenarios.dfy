/** Concrete manifests and what the model gives for them, on typical and on
    surprising `mix.exs` contents. Each manifest is
    given by the captures its two patterns yield. */
module Scenarios {
  import opened Wrappers
  import opened MixProject
  import opened ElixirVersions
  import opened ElixirProvider

  /** Only the first digit after the point is read: `~> 1.12` yields the
      token `1.1`, which selects `elixir_1_9`. */
  lemma TwoDigitToken()
    ensures GetClosestVersion("\"~> 1.12\"") == Ok(Some("elixir_1_9"))
  {
    assert FirstTokenAt("\"~> 1.12\"", 4);
    assert "\"~> 1.12\""[4..7] == "1.1";
  }

  /** A version above every floor resolves to nothing. */
  lemma AboveEveryFloor()
    ensures GetClosestVersion("~> 2.0") == Ok(None)
  {
    assert FirstTokenAt("~> 2.0", 3);
    assert "~> 2.0"[3..6] == "2.0";
  }

  /** The pattern accepts any character between the digits, but only a
      float literal parses: `1x2` is an error and `1e2` is the number 100. */
  lemma AnyMiddleCharacter()
    ensures GetClosestVersion("~> 1x2") == Err(InvalidFloat("1x2"))
    ensures GetClosestVersion("1e2") == Ok(None)
  {
    assert FirstTokenAt("~> 1x2", 3);
    assert "~> 1x2"[3..6] == "1x2";
    assert FirstTokenAt("1e2", 0);
    assert "1e2"[0..3] == "1e2";
  }

  /** A line feed between the digits is no match. */
  lemma LineFeedNoMatch()
    ensures GetClosestVersion("1\n2") == Ok(None)
  {
    assert !TokenAt("1\n2", 0);
  }

  /** `app: :my_app,` and `elixir: "~> 1.12",` without `escript`. */
  const PlainManifest := Present(MixFile([], [Capture("app", ":my_app"), Capture("elixir", "\"~> 1.12\"")]))

  lemma PlainRecord()
    ensures ParseMixProject(PlainManifest) == Ok(Some(MixProject(Some(":my_app"), Some("\"~> 1.12\""), false)))
  {
    var props := PlainManifest.file.properties;
    assert props[..1] == [props[0]] && [props[0]][..0] == [];
    assert Superglobals([]) == map[];
  }

  lemma PlainWellFormed()
    ensures WellFormed(PlainManifest.file)
  {
  }

  lemma PlainSetup()
    ensures Setup(PlainManifest) == Ok(Some(SetupPhase([Pkg("elixir_1_9")])))
  {
    PlainRecord();
    TwoDigitToken();
  }

  /** The plain application gets the generic start command and no build
      phase; the version token `1.1` selects `elixir_1_9`. */
  lemma PlainApplication()
    ensures WellFormed(PlainManifest.file)
    ensures Setup(PlainManifest) == Ok(Some(SetupPhase([Pkg("elixir_1_9")])))
    ensures Build(PlainManifest) == Ok(None)
    ensures Start(PlainManifest) == Ok(Some(StartPhase("mix run --no-halt")))
  {
    PlainWellFormed();
    PlainRecord();
    PlainSetup();
  }

  /** `@version "1.10"`, `elixir: version,`, `escript: ...` and `app: :demo,`. */
  const EscriptManifest := Present(MixFile([Capture("version", "1.10")],
                                           [Capture("elixir", "version"), Capture("escript", "escript()"), Capture("app", ":demo")]))

  /** The version comes from the superglobal; the escript flag and the name
      are both set. */
  lemma EscriptRecord()
    ensures ParseMixProject(EscriptManifest) == Ok(Some(MixProject(Some(":demo"), Some("1.10"), true)))
  {
    var sg := EscriptManifest.file.superglobals;
    var props := EscriptManifest.file.properties;
    assert sg[..0] == [];
    var table := Superglobals(sg);
    assert table == map["version" := "1.10"];
    assert props[..2] == [props[0], props[1]] && [props[0], props[1]][..1] == [props[0]] && [props[0]][..0] == [];
    assert ":demo" !in table;
    var p1 := Declarations(table, [props[0]]);
    assert p1 == Declare(EmptyProject, table, props[0]);
    var p2 := Declarations(table, [props[0], props[1]]);
    assert p2 == Declare(p1, table, props[1]);
    assert Declarations(table, props) == Declare(p2, table, props[2]);
  }

  /** `1.10` yields the token `1.1`, which selects `elixir_1_9`. */
  lemma VersionOneTen()
    ensures GetClosestVersion("1.10") == Ok(Some("elixir_1_9"))
  {
    assert FirstTokenAt("1.10", 0);
    assert "1.10"[0..3] == "1.1";
  }

  lemma EscriptWellFormed()
    ensures WellFormed(EscriptManifest.file)
  {
  }

  lemma EscriptSetup()
    ensures Setup(EscriptManifest) == Ok(Some(SetupPhase([Pkg("elixir_1_9")])))
  {
    EscriptRecord();
    VersionOneTen();
  }

  lemma EscriptBuildStart()
    ensures Build(EscriptManifest) == Ok(Some(BuildPhase("mix escript.build")))
    ensures Start(EscriptManifest) == Ok(Some(StartPhase("./demo")))
  {
    EscriptRecord();
    assert "./" + ":demo"[1..] == "./demo";
  }

  /** The escript application selects `elixir_1_9`, builds as an escript and
      starts as `./demo`. */
  lemma EscriptApplication()
    ensures WellFormed(EscriptManifest.file)
    ensures Setup(EscriptManifest) == Ok(Some(SetupPhase([Pkg("elixir_1_9")])))
    ensures Build(EscriptManifest) == Ok(Some(BuildPhase("mix escript.build")))
    ensures Start(EscriptManifest) == Ok(Some(StartPhase("./demo")))
  {
    EscriptWellFormed();
    EscriptSetup();
    EscriptBuildStart();
  }

  /** No `elixir:` key: the default package, and the environment is
      `MIX_ENV=prod` all the same. */
  lemma NoElixirKey()
    ensures var m := Present(MixFile([], [Capture("app", ":web")]));
            && Setup(m) == Ok(Some(SetupPhase([Pkg("elixir")])))
            && EnvironmentVariables(m) == Ok(Some(map["MIX_ENV" := "prod"]))
  {
  }

  /** The Elixir idiom `elixir: @elixir_version` is not substituted when the
      attribute is defined as `@elixir_version "1.12"`: the captured name
      starts after that `@`, so the table holds `elixir_version`. The raw value
      has no version token, so the default package is chosen. */
  lemma AttributeReferenceNotSubstituted()
    ensures var m := Present(MixFile([Capture("elixir_version", "1.12")], [Capture("elixir", "@elixir_version")]));
            && ParseMixProject(m) == Ok(Some(MixProject(None, Some("@elixir_version"), false)))
            && Setup(m) == Ok(Some(SetupPhase([Pkg("elixir")])))
  {
    assert "@elixir_version" != "elixir_version";
    assert forall i :: !TokenAt("@elixir_version", i);
  }

  /** A version token that is not a float literal makes `setup` fail. */
  lemma UnparseableVersion()
    ensures Setup(Present(MixFile([], [Capture("elixir", "\"~> 1x2\"")]))) == Err(InvalidFloat("1x2"))
  {
    assert FirstTokenAt("\"~> 1x2\"", 4);
    assert "\"~> 1x2\""[4..7] == "1x2";
  }
}
