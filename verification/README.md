# Elixir provider of nixpacks: `mix.exs` metadata and version resolution

This project models the Elixir provider of nixpacks (`src/providers/elixir.rs`)
in Dafny and proves properties of the model. The provider reads `mix.exs`
and scans it in two passes:

- The superglobal pass folds every `@name "value"` capture into a table. The
  last definition of a name wins.
- The declaration pass folds every `key: value` capture into a `MixProject`
  record with `app_name`, `elixir_version` and `is_escript`. Each value is first
  replaced by its superglobal literal when it is exactly a superglobal name.

The provider then picks a Nix package for the declared Elixir version from
the catalog `AVAILABLE_ELIXIR_VERSIONS`. It also decides the phases: one setup
package, `mix deps.get`, an optional `mix escript.build`, a start command, and
`MIX_ENV=prod`.

Files:

- `wrappers.dfy`: `Option`, `Result` and the two errors the core can raise,
  a failed read of `mix.exs` and an unparseable float.
- `mix_project.dfy`: the manifest as captures, both folds, `parse_with_superglobal`
  and `parse_mix_project`.
- `elixir_versions.dfy`: the catalog and the `\d.\d` matcher. Also the float
  parse, written in hundredths, plus `get_closest_version` and `get_nix_elixir_pkg`.
- `elixir_provider.dfy`: `detect`, `setup`, `install`, `build`, `start` and
  `environment_variables`.
- `scenarios.dfy`: concrete manifests and what the model gives for them.

## Behaviour of the code as written

The model keeps these behaviours of the code exactly as written:

- **Unescaped `.` in the version pattern.** `\d.\d` accepts any character
  except a line feed between the digits. The matched token is then parsed with
  `parse::<f64>()`. That parse accepts `1.2`, `102`, `1e2` and `1E2`. Any other
  middle character, as in `1x2`, gives an error that `setup` propagates.
  See `ElixirVersions.ParseHundredths` and `Scenarios.AnyMiddleCharacter`.
- **Only two digits are read.** `~> 1.12` yields the token `1.1`.
- **The catalog is not ascending.** The `f64` literal `1.10` equals 1.1, so the
  floors in listed order are 1.9, 1.1, 1.11, 1.12 and 1.13. The first floor that
  is at least the version is 1.9 for every version up to 1.9, and no floor
  qualifies above that. So resolution only ever gives `elixir_1_9` or falls
  back to the default `elixir`. See `ElixirVersions.ResolutionCollapses`,
  `ElixirVersions.CatalogAsWritten` and `ElixirVersions.ExactFloorNotSelected`.
- **A superglobal name starts after the first `@` of its match.** The
  attribute `@elixir_version "1.12"` is stored under `elixir_version`, so the
  Elixir reference `elixir: @elixir_version` is not substituted. Only a name
  that itself begins with `@`, as `@@elixir_version "1.12"` would capture,
  matches such a reference. See `Scenarios.AttributeReferenceNotSubstituted`.
- **The start command drops the first character of `app_name`.** For
  `app: :demo` the command is `./demo`.

Consequences for typical manifests:

- The identifiers suggest ascending floors, but the floors in listed order are
  1.9, 1.1, 1.11, 1.12 and 1.13.
- A token that matches `\d.\d` need not parse as a float.
- A version equal to a floor selects that floor's entry only for 1.9.
- `elixir: "~> 1.12"` resolves to `elixir_1_9`.
- `@version "1.10"` with `elixir: version` also resolves to `elixir_1_9`, and
  `app: :demo` with `escript` starts `./demo`.

Versions are integers in hundredths. The token `d.e` is `100*d + 10*e`,
`dme` is `100*(100*d + 10*m + e)` and `dEe` is `100*d*10^e`. The floors are
190, 110, 111, 112 and 113. All these values are exact multiples of 0.01 in a
range where `f64` rounding keeps their order, so every `>=` the provider makes
has the same outcome in hundredths. The contract of `ElixirVersions.Hundredths`
states that the hundredths equal 100 times the real value of the literal.

## Model

| member | source | states |
|---|---|---|
| `MixProject.Superglobals` | src/providers/elixir.rs:102-113 | the table's keys are exactly the captured names, and each name maps to the value of its last capture |
| `MixProject.ParseWithSuperglobal` | src/providers/elixir.rs:152-161 | always `Some`; the table's literal when the value is exactly a name in the table, the value unchanged otherwise |
| `MixProject.LastWithKeyExists` | src/providers/elixir.rs:119-141 | a key that some capture carries has a last capture, the one whose assignment survives the fold |
| `MixProject.Declare` | src/providers/elixir.rs:129-140 | a capture keyed `app` (resp. `elixir`) sets that field to its resolved value and leaves the other fields alone; `escript` sets `is_escript`, which no capture clears; any other key changes nothing |
| `MixProject.Declarations` | src/providers/elixir.rs:115-147 | `is_escript` is true exactly when some capture has key `escript`, whatever its value; `app_name` (resp. `elixir_version`) stays `None` when no capture is keyed `app` (resp. `elixir`) |
| `MixProject.DeclaredValue` | src/providers/elixir.rs:115-135 | `app_name` (resp. `elixir_version`) is the resolved value of the last capture keyed `app` (resp. `elixir`) |
| `MixProject.EscriptNeverReset` | src/providers/elixir.rs:136-138 | once `is_escript` is set, later captures never reset it |
| `MixProject.IgnoredKeyLeavesRecord` | src/providers/elixir.rs:129-140 | a capture with a key other than `app`, `elixir`, `escript` can be removed from anywhere without changing the record |
| `MixProject.UnknownValueKept` | src/providers/elixir.rs:152-161 | a value that no superglobal capture names is kept verbatim |
| `MixProject.SuperglobalSubstitution` | src/providers/elixir.rs:102-135 | `@x "v"` referenced as `app: x` or `elixir: x` puts the literal `v` (of the last `@x`) into the record the two passes build |
| `MixProject.AppNameNonEmpty` | src/providers/elixir.rs:99-132 | with captures as the `+` groups produce them, a set `app_name` is never empty |
| `MixProject.ParseMixProject` | src/providers/elixir.rs:92-149 | no `mix.exs` gives `Ok(None)`, a failed read gives that error, and otherwise a record built by the two folds |
| `ElixirVersions.FindToken` | src/providers/elixir.rs:164-166 | the result is a match position at or after `from` with no match before it, or `None` when there is no match from `from` on |
| `ElixirVersions.VersionMatch` | src/providers/elixir.rs:164-167 | `None` exactly when `\d.\d` matches nowhere; otherwise the leftmost match |
| `ElixirVersions.ParseHundredths` | src/providers/elixir.rs:168 | parses exactly when the middle character is `.`, a digit, `e` or `E`; the result is 100 times the literal's real value; otherwise the token is reported as an invalid float |
| `ElixirVersions.Hundredths` | src/providers/elixir.rs:168 | for each float literal form `d.e`, `dme`, `dee` and `dEe` the integer hundredths equal 100 times the literal's real value |
| `ElixirVersions.FindFloor` | src/providers/elixir.rs:170-172 | the first position at or after `from` whose floor is at least the version, or `None` when every floor from `from` on is smaller |
| `ElixirVersions.ClosestPackage` | src/providers/elixir.rs:170-176 | `None` exactly when every floor is below the version; otherwise the identifier of the first entry in listed order whose floor is at least the version |
| `ElixirVersions.ResolutionCollapses` | src/providers/elixir.rs:13-19 | with this catalog a version up to 1.9 selects `elixir_1_9` and any larger version selects nothing |
| `ElixirVersions.CatalogAsWritten` | src/providers/elixir.rs:13-19 | the hundredths floors equal the source literals, and because `1.10` is 1.1 the catalog is not strictly ascending |
| `ElixirVersions.ResolutionMonotone` | src/providers/elixir.rs:170-176 | when a version resolves, every smaller version resolves to the same package |
| `ElixirVersions.ExactFloorNotSelected` | src/providers/elixir.rs:13-19 | a version equal to the floor of `elixir_1_11` selects `elixir_1_9` instead |
| `ElixirVersions.GetClosestVersion` | src/providers/elixir.rs:163-180 | no token gives `Ok(None)`; a token that is not a float literal gives an error naming it; otherwise `elixir_1_9` when the token's value is at most 1.9, and `Ok(None)` when it is larger |
| `ElixirVersions.GetNixElixirPkg` | src/providers/elixir.rs:182-192 | the default `elixir` without a project, without a version, or when resolution finds nothing; the resolved identifier otherwise; parse errors propagate; every package returned is `elixir_1_9` or `elixir` |
| `ElixirProvider.Detect` | src/providers/elixir.rs:36-38 | true exactly when parsing the manifest does not yield "no project" |
| `ElixirProvider.Setup` | src/providers/elixir.rs:40-45 | on success exactly one package, the one `get_nix_elixir_pkg` selects for the parsed project; read and parse errors propagate |
| `ElixirProvider.Install` | src/providers/elixir.rs:47-49 | always `mix deps.get`, for every manifest |
| `ElixirProvider.Build` | src/providers/elixir.rs:51-61 | fails only when the read fails, with that read error; a `mix escript.build` phase exactly when the record has `is_escript` and an `app_name` |
| `ElixirProvider.Start` | src/providers/elixir.rs:63-76 | always a phase unless the read fails, which gives that read error; `./` followed by `app_name` without its first character in the escript case, `mix run --no-halt` otherwise |
| `ElixirProvider.EnvironmentVariables` | src/providers/elixir.rs:78-90 | exactly the one variable `MIX_ENV=prod`, for every manifest |
| `ElixirProvider.BuildMatchesStart` | src/providers/elixir.rs:51-76 | a build phase exists exactly when the start command runs a local `./` executable |
| `ElixirProvider.EscriptBuildCondition` | src/providers/elixir.rs:115-141 | the escript decision holds exactly when some capture is keyed `escript` and some is keyed `app`, in any order and with any values |
| `Scenarios.TwoDigitToken` | src/providers/elixir.rs:163-176 | `elixir: "~> 1.12"` yields the token `1.1` and selects `elixir_1_9` |
| `Scenarios.AboveEveryFloor` | src/providers/elixir.rs:163-180 | `~> 2.0` is above every floor and resolves to nothing |
| `Scenarios.AnyMiddleCharacter` | src/providers/elixir.rs:163-180 | `~> 1x2` matches the pattern and fails to parse; `1e2` parses as 100 and resolves to nothing |
| `Scenarios.LineFeedNoMatch` | src/providers/elixir.rs:163-179 | a line feed between two digits is not matched, so the result is `Ok(None)` |
| `Scenarios.PlainRecord` | src/providers/elixir.rs:92-149 | `app: :my_app` and `elixir: "~> 1.12"` give the record with both raw values and no escript flag |
| `Scenarios.EscriptRecord` | src/providers/elixir.rs:92-149 | `@version "1.10"`, `elixir: version`, `escript` and `app: :demo` give the record with version `1.10`, name `:demo` and the escript flag |
| `Scenarios.PlainApplication` | src/providers/elixir.rs:40-76 | a named application with `elixir: "~> 1.12"` and no escript gets `elixir_1_9`, no build phase and the generic start command |
| `Scenarios.EscriptApplication` | src/providers/elixir.rs:40-76 | a version taken from a superglobal, an escript and `app: :demo` give `elixir_1_9`, an escript build and `./demo` |
| `Scenarios.NoElixirKey` | src/providers/elixir.rs:78-90 | without an `elixir` key the package is the default `elixir`, and the environment is still `MIX_ENV=prod` |
| `Scenarios.AttributeReferenceNotSubstituted` | src/providers/elixir.rs:152-161 | `elixir: @elixir_version` keeps the raw `@elixir_version`, and the default package is chosen |
| `Scenarios.UnparseableVersion` | src/providers/elixir.rs:163-185 | `elixir: "~> 1x2"` makes `setup` fail with an invalid-float error for `1x2` |

## Left out

- The file system: `app.includes_file` and `app.read_file` become the input
  `MixExs`. It is missing, unreadable with a reason, or present. Every phase
  sees the same `MixExs`, so a file that changes between two phases' reads
  is not modelled.
- The regular expressions `@(.+)\s"(.+)"` and `(?m)([^\s]+):\s([^,]+)(?:,|$)`
  are not modelled as a matcher. A manifest is given by the captures each
  pattern yields, in match order. The `capture.len() != 3` guards are never
  taken and are dropped.
- `ElixirVersions.VersionMatch`: treats only ASCII `0`-`9` as `\d`. The Rust
  pattern also matches other Unicode decimal digits. The token would then
  fail to parse, so for such text the source reports an error where the model
  may report no match or a later match.
- `ElixirVersions.ParseHundredths`: replaces `f64` parsing and comparison by
  exact hundredths, as argued above. Rounding is not modelled.
- `ElixirProvider.Start`: models the `[1..]` slice as dropping the first
  character. The source slices one byte, so it panics when the first
  character of `app_name` is not ASCII. That panic is not modelled.
- The `Provider` trait, `name()`, `Pkg`, the phase constructors and
  `EnvironmentVariables` belong to the framework. They appear here as plain
  records and a map. The unused `Environment` argument is dropped.
