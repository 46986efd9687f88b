/** The `mix.exs` scanner of the Elixir provider (`parse_mix_project` and
    `parse_with_superglobal`).

    The two regular expressions are not modelled as a matcher: a manifest is
    represented by the captures each pattern yields over the file text, in
    match order. `@(.+)\s"(.+)"` yields the superglobal captures (the name
    starts after the first `@` of the match, the literal has no quotes); `([^\s]+):\s([^,]+)(?:,|$)`
    yields the property captures (key before the colon, raw value). */
module MixProject {
  import opened Wrappers

  /** Groups 1 and 2 of one regex match. */
  datatype Capture = Capture(key: string, value: string)

  /** What the two patterns see in `mix.exs`. */
  datatype MixFile = MixFile(superglobals: seq<Capture>, properties: seq<Capture>)

  /** The state of `mix.exs` in the application directory. */
  datatype MixExs =
    | Missing
    | Unreadable(reason: string)
    | Present(file: MixFile)

  /** The metadata record `parse_mix_project` builds. */
  datatype MixProject = MixProject(appName: Option<string>, elixirVersion: Option<string>, isEscript: bool)

  type SuperglobalTable = map<string, string>

  /** Both groups of each pattern end in `+`, so no capture is ever empty. */
  predicate WellFormedCaptures(caps: seq<Capture>) {
    forall i :: 0 <= i < |caps| ==> caps[i].key != [] && caps[i].value != []
  }

  predicate WellFormed(f: MixFile) {
    WellFormedCaptures(f.superglobals) && WellFormedCaptures(f.properties)
  }

  /** Some capture has key `k`. */
  ghost predicate HasKey(caps: seq<Capture>, k: string) {
    exists i :: 0 <= i < |caps| && caps[i].key == k
  }

  /** Capture `i` is the last one with its key. */
  ghost predicate LastWithKey(caps: seq<Capture>, i: int) {
    && 0 <= i < |caps|
    && forall j :: i < j < |caps| ==> caps[j].key != caps[i].key
  }

  /** A key that occurs has a last occurrence. */
  lemma {:induction false} LastWithKeyExists(caps: seq<Capture>, k: string)
    requires HasKey(caps, k)
    ensures exists i :: LastWithKey(caps, i) && caps[i].key == k
  {
    var n := |caps|;
    if caps[n - 1].key == k {
      assert LastWithKey(caps, n - 1);
    } else {
      var init := caps[..n - 1];
      var w :| 0 <= w < n && caps[w].key == k;
      assert init[w].key == k;
      LastWithKeyExists(init, k);
      var i :| LastWithKey(init, i) && init[i].key == k;
      assert LastWithKey(caps, i);
    }
  }

  /** How `HasKey` and `LastWithKey` relate a non-empty capture sequence to
      the sequence without its last capture. */
  lemma SnocKeys(caps: seq<Capture>)
    requires caps != []
    ensures forall k :: HasKey(caps, k) <==> HasKey(caps[..|caps| - 1], k) || k == caps[|caps| - 1].key
    ensures forall i :: LastWithKey(caps, i) && i < |caps| - 1 ==>
              LastWithKey(caps[..|caps| - 1], i) && caps[i].key != caps[|caps| - 1].key
  {
    var init := caps[..|caps| - 1];
    forall k | HasKey(caps, k) ensures HasKey(init, k) || k == caps[|caps| - 1].key {
      var w :| 0 <= w < |caps| && caps[w].key == k;
      if w < |caps| - 1 { assert init[w].key == k; }
    }
    forall k | HasKey(init, k) ensures HasKey(caps, k) {
      var w :| 0 <= w < |init| && init[w].key == k;
      assert caps[w].key == k;
    }
  }

  /** The superglobal pass (lines 102-113): insert every capture in order, so
      the last capture of a name wins. */
  function Superglobals(caps: seq<Capture>): (t: SuperglobalTable)
    ensures forall k :: k in t <==> HasKey(caps, k)
    ensures forall i :: LastWithKey(caps, i) ==> caps[i].key in t && t[caps[i].key] == caps[i].value
  {
    if caps == [] then map[]
    else
      var init := caps[..|caps| - 1];
      var c := caps[|caps| - 1];
      SnocKeys(caps);
      Superglobals(init)[c.key := c.value]
  }

  /** `parse_with_superglobal`: a value that is exactly a superglobal name is
      replaced by that superglobal's literal; any other value is kept. */
  function ParseWithSuperglobal(table: SuperglobalTable, value: string): (r: Option<string>)
    ensures r.Some?
    ensures value in table ==> r.value == table[value]
    ensures value !in table ==> r.value == value
  {
    if value in table then Some(table[value]) else Some(value)
  }

  const EmptyProject := MixProject(None, None, false)

  /** One arm of the `match key.as_str()` in the declaration pass. */
  function Declare(p: MixProject, table: SuperglobalTable, c: Capture): (r: MixProject)
    ensures r.appName == if c.key == "app" then ParseWithSuperglobal(table, c.value) else p.appName
    ensures r.elixirVersion == if c.key == "elixir" then ParseWithSuperglobal(table, c.value) else p.elixirVersion
    ensures r.isEscript == (p.isEscript || c.key == "escript")
  {
    var parsed := ParseWithSuperglobal(table, c.value);
    if c.key == "app" then p.(appName := parsed)
    else if c.key == "elixir" then p.(elixirVersion := parsed)
    else if c.key == "escript" then p.(isEscript := true)
    else p
  }

  /** The declaration pass (lines 115-147): fold every property capture, in
      order, into a record that starts empty. */
  function Declarations(table: SuperglobalTable, caps: seq<Capture>): (p: MixProject)
    ensures p.isEscript <==> HasKey(caps, "escript")
    ensures !HasKey(caps, "app") ==> p.appName == None
    ensures !HasKey(caps, "elixir") ==> p.elixirVersion == None
  {
    if caps == [] then EmptyProject
    else
      SnocKeys(caps);
      Declare(Declarations(table, caps[..|caps| - 1]), table, caps[|caps| - 1])
  }

  /** The field a value-carrying key (`app` or `elixir`) assigns. */
  function FieldFor(p: MixProject, k: string): Option<string> {
    if k == "app" then p.appName else p.elixirVersion
  }

  /** `app_name` and `elixir_version` are the resolved value of the last
      capture with key `app` (resp. `elixir`). */
  lemma {:induction false} DeclaredValue(table: SuperglobalTable, caps: seq<Capture>, k: string)
    requires k == "app" || k == "elixir"
    ensures forall i :: LastWithKey(caps, i) && caps[i].key == k ==>
              FieldFor(Declarations(table, caps), k) == ParseWithSuperglobal(table, caps[i].value)
  {
    if caps != [] {
      var init := caps[..|caps| - 1];
      SnocKeys(caps);
      DeclaredValue(table, init, k);
    }
  }

  /** A capture whose key is not `app`, `elixir` or `escript` falls through
      the `_ => {}` arm: removing it from anywhere in the sequence gives the
      same record. */
  lemma {:induction false} IgnoredKeyLeavesRecord(table: SuperglobalTable, a: seq<Capture>, c: Capture, b: seq<Capture>)
    requires c.key != "app" && c.key != "elixir" && c.key != "escript"
    ensures Declarations(table, a + [c] + b) == Declarations(table, a + b)
  {
    if b == [] {
      assert (a + [c] + b)[..|a + [c] + b| - 1] == a;
      assert a + b == a;
    } else {
      var b' := b[..|b| - 1];
      var x := b[|b| - 1];
      IgnoredKeyLeavesRecord(table, a, c, b');
      assert (a + [c] + b)[..|a + [c] + b| - 1] == a + [c] + b';
      assert (a + b)[..|a + b| - 1] == a + b';
    }
  }

  /** Once a capture has set `is_escript`, later captures never reset it. */
  lemma EscriptNeverReset(table: SuperglobalTable, a: seq<Capture>, b: seq<Capture>)
    requires Declarations(table, a).isEscript
    ensures Declarations(table, a + b).isEscript
  {
    var w :| 0 <= w < |a| && a[w].key == "escript";
    assert (a + b)[w].key == "escript";
  }

  /** A value that names no captured superglobal is kept verbatim. The
      superglobal name starts after the first `@` of its match, so a
      reference spelled `@name` is kept as is unless some match captured a
      name that itself begins with `@` (as `@@name "v"` would). */
  lemma UnknownValueKept(superglobals: seq<Capture>, value: string)
    requires forall i :: 0 <= i < |superglobals| ==> superglobals[i].key != value
    ensures ParseWithSuperglobal(Superglobals(superglobals), value) == Some(value)
  {
  }

  /** Every value in the table is the value of some capture. */
  lemma SuperglobalValuesCaptured(caps: seq<Capture>, k: string)
    requires HasKey(caps, k)
    ensures k in Superglobals(caps)
    ensures exists i :: 0 <= i < |caps| && Superglobals(caps)[k] == caps[i].value
  {
    LastWithKeyExists(caps, k);
  }

  /** With well-formed captures an `app_name` that is set is never empty, so
      the start phase's `[1..]` slice is defined. */
  lemma {:induction false} AppNameNonEmpty(f: MixFile)
    requires WellFormed(f)
    ensures Declarations(Superglobals(f.superglobals), f.properties).appName.Some? ==>
              Declarations(Superglobals(f.superglobals), f.properties).appName.value != []
  {
    var table := Superglobals(f.superglobals);
    var caps := f.properties;
    DeclaredValue(table, caps, "app");
    if HasKey(caps, "app") {
      LastWithKeyExists(caps, "app");
      var i :| LastWithKey(caps, i) && caps[i].key == "app";
      if HasKey(f.superglobals, caps[i].value) {
        SuperglobalValuesCaptured(f.superglobals, caps[i].value);
      }
    }
  }

  /** `parse_mix_project`: no file gives no record, a failed read is
      propagated, and otherwise the two passes are composed. */
  function ParseMixProject(m: MixExs): (r: Result<Option<MixProject>, Error>)
    ensures r == Ok(None) <==> m.Missing?
    ensures r.Err? <==> m.Unreadable?
    ensures m.Unreadable? ==> r.error == ReadFailed(m.reason)
    ensures m.Present? ==>
              r.Ok? && r.value.Some? && r.value.value == Declarations(Superglobals(m.file.superglobals), m.file.properties)
  {
    match m
    case Missing => Ok(None)
    case Unreadable(reason) => Err(ReadFailed(reason))
    case Present(f) => Ok(Some(Declarations(Superglobals(f.superglobals), f.properties)))
  }

  /** A superglobal `@x "v"` referenced as `app: x` or `elixir: x` gives the
      record the literal `v` (the last definition of `x` wins). */
  lemma {:induction false} SuperglobalSubstitution(f: MixFile, k: string, i: int, j: int)
    requires k == "app" || k == "elixir"
    requires LastWithKey(f.superglobals, i)
    requires LastWithKey(f.properties, j) && f.properties[j].key == k
    requires f.properties[j].value == f.superglobals[i].key
    ensures FieldFor(Declarations(Superglobals(f.superglobals), f.properties), k) == Some(f.superglobals[i].value)
  {
    DeclaredValue(Superglobals(f.superglobals), f.properties, k);
  }
}
