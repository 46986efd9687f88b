/** The phase decisions of `ElixirProvider` (`detect`, `setup`, `install`,
    `build`, `start`, `environment_variables`).

    The application directory is reduced to the state of its `mix.exs`
    (`MixExs`), and the framework's phase types to plain records. Each phase
    reads and scans the manifest afresh, as the provider does. */
module ElixirProvider {
  import opened Wrappers
  import opened MixProject
  import opened ElixirVersions

  datatype Pkg = Pkg(name: string)
  datatype SetupPhase = SetupPhase(pkgs: seq<Pkg>)
  datatype InstallPhase = InstallPhase(cmd: string)
  datatype BuildPhase = BuildPhase(cmd: string)
  datatype StartPhase = StartPhase(cmd: string)
  type EnvVars = map<string, string>

  const InstallCommand := "mix deps.get"
  const EscriptBuildCommand := "mix escript.build"
  const GenericStartCommand := "mix run --no-halt"

  /** The condition under which the project is built as an escript. */
  predicate BuildsEscript(p: MixProject) {
    p.isEscript && p.appName.Some?
  }

  /** `detect`: the provider applies exactly when `mix.exs` exists. */
  function Detect(m: MixExs): (r: bool)
    ensures r <==> ParseMixProject(m) != Ok(None)
  {
    !m.Missing?
  }

  /** `setup`: one package, the one `get_nix_elixir_pkg` selects. */
  function Setup(m: MixExs): (r: Result<Option<SetupPhase>, Error>)
    ensures r.Ok? ==> r.value.Some? && |r.value.value.pkgs| == 1
    ensures ParseMixProject(m).Ok? ==>
              var pkg := GetNixElixirPkg(ParseMixProject(m).value);
              && (r.Ok? <==> pkg.Ok?)
              && (r.Ok? ==> r.value.value.pkgs[0] == Pkg(pkg.value))
              && (r.Err? ==> r.error == pkg.error)
    ensures m.Unreadable? ==> r == Err(ReadFailed(m.reason))
    ensures m.Missing? ==> r == Ok(Some(SetupPhase([Pkg(DefaultElixirPkgName)])))
  {
    match ParseMixProject(m)
    case Err(e) => Err(e)
    case Ok(project) =>
      match GetNixElixirPkg(project)
      case Err(e) => Err(e)
      case Ok(pkg) => Ok(Some(SetupPhase([Pkg(pkg)])))
  }

  /** `install`: always fetches dependencies, whatever the manifest says. */
  function Install(m: MixExs): (r: Result<Option<InstallPhase>, Error>)
    ensures r == Ok(Some(InstallPhase("mix deps.get")))
  {
    Ok(Some(InstallPhase(InstallCommand)))
  }

  /** `build`: an escript build exactly when the record asks for an escript
      and names the application. */
  function Build(m: MixExs): (r: Result<Option<BuildPhase>, Error>)
    ensures r.Err? <==> m.Unreadable?
    ensures m.Unreadable? ==> r == Err(ReadFailed(m.reason))
    ensures r.Ok? ==>
              (r.value.Some? <==> m.Present? && BuildsEscript(ParseMixProject(m).value.value))
    ensures r.Ok? && r.value.Some? ==> r.value.value.cmd == "mix escript.build"
  {
    match ParseMixProject(m)
    case Err(e) => Err(e)
    case Ok(project) =>
      if project.Some? && BuildsEscript(project.value) then Ok(Some(BuildPhase(EscriptBuildCommand)))
      else Ok(None)
  }

  /** `start`: run the escript `./<app_name without its first character>`
      when building an escript, otherwise the generic long-running command.
      Well-formed captures keep the application name non-empty. */
  function Start(m: MixExs): (r: Result<Option<StartPhase>, Error>)
    requires m.Present? ==> WellFormed(m.file)
    ensures r.Err? <==> m.Unreadable?
    ensures m.Unreadable? ==> r == Err(ReadFailed(m.reason))
    ensures r.Ok? ==> r.value.Some?
    ensures m.Present? && BuildsEscript(ParseMixProject(m).value.value) ==>
              var app := ParseMixProject(m).value.value.appName.value;
              |app| >= 1 && r == Ok(Some(StartPhase("./" + app[1..])))
    ensures m.Missing? || (m.Present? && !BuildsEscript(ParseMixProject(m).value.value)) ==>
              r == Ok(Some(StartPhase("mix run --no-halt")))
  {
    match ParseMixProject(m)
    case Err(e) => Err(e)
    case Ok(project) =>
      if project.Some? && BuildsEscript(project.value) then
        AppNameNonEmpty(m.file);
        Ok(Some(StartPhase("./" + project.value.appName.value[1..])))
      else Ok(Some(StartPhase(GenericStartCommand)))
  }

  /** `environment_variables`: exactly `MIX_ENV=prod`, whatever the manifest
      says. */
  function EnvironmentVariables(m: MixExs): (r: Result<Option<EnvVars>, Error>)
    ensures r.Ok? && r.value.Some?
    ensures r.value.value.Keys == {"MIX_ENV"} && r.value.value["MIX_ENV"] == "prod"
  {
    Ok(Some(map["MIX_ENV" := "prod"]))
  }

  /** The build and start phases agree: a build phase exists exactly when
      the start command runs a local executable. */
  lemma BuildMatchesStart(m: MixExs)
    requires m.Present? ==> WellFormed(m.file)
    requires !m.Unreadable?
    ensures Build(m).Ok? && Start(m).Ok?
    ensures Build(m).value.Some? <==> Start(m).value.value.cmd[..2] == "./"
  {
    var cmd := Start(m).value.value.cmd;
    if Build(m).value.None? {
      assert cmd == GenericStartCommand;
      assert cmd[0] == 'm';
    } else {
      assert cmd[..2] == "./";
    }
  }

  /** The escript decision depends only on which keys occur: some capture
      has key `escript` and some capture has key `app`, in any order and with
      any values. */
  lemma EscriptBuildCondition(table: SuperglobalTable, caps: seq<Capture>)
    ensures BuildsEscript(Declarations(table, caps)) <==> HasKey(caps, "escript") && HasKey(caps, "app")
  {
    DeclaredValue(table, caps, "app");
    if HasKey(caps, "app") {
      LastWithKeyExists(caps, "app");
    }
  }
}
