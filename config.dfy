/**
 * The step's persistent configuration: a string-keyed dictionary holding the
 * step identifier, the GUI run-mode flag and one selector per femur landmark.
 * JSON text is abstracted away: a configuration document is the dictionary
 * that json.dumps writes and json.loads reads back.
 */
module Config {

  /** A JSON value as json.loads returns it: the range of the configuration dictionary. */
  datatype Value =
    | Str(s: string)
    | Bool(b: bool)
    | Int(i: int)
    | Float(f: real)
    | Null
    | List(items: seq<Value>)
    | Object(fields: map<string, Value>)

  type Config = map<string, Value>

  /** The femur landmarks the step knows, in declaration order. */
  const FemurLandmarks: seq<string> := ["FHC", "MEC", "LEC", "FGT"]

  const IdentifierKey: string := "identifier"
  const GuiKey: string := "GUI"

  /** The selector value that switches a landmark off. */
  const Disabled: Value := Str("none")

  /** One disabled selector per name; built from the back so that a loop over a prefix extends it. */
  function SelectorsOff(names: seq<string>): (m: Config)
    ensures m.Keys == set n | n in names
    ensures forall n :: n in m ==> m[n] == Disabled
  {
    if names == [] then map[] else SelectorsOff(names[..|names| - 1])[names[|names| - 1] := Disabled]
  }

  /** The entries the constructor writes before the landmark selectors. */
  function BaseDefaults(): Config {
    map[IdentifierKey := Str(""), GuiKey := Bool(true)]
  }

  /** The configuration of a newly constructed step. */
  function Defaults(): Config {
    BaseDefaults() + SelectorsOff(FemurLandmarks)
  }

  /** Disabling one more landmark extends the defaults built so far by one entry. */
  lemma DefaultsExtend(i: nat)
    requires i < |FemurLandmarks|
    ensures BaseDefaults() + SelectorsOff(FemurLandmarks[..i + 1])
         == (BaseDefaults() + SelectorsOff(FemurLandmarks[..i]))[FemurLandmarks[i] := Disabled]
  {
    assert FemurLandmarks[..i + 1][..i] == FemurLandmarks[..i];
  }

  /** Every key the step reads from its configuration is present. */
  predicate HasRequiredKeys(c: Config) {
    IdentifierKey in c && GuiKey in c && forall l <- FemurLandmarks :: l in c
  }

  /** The string encodings of the GUI flag written by older versions. */
  predicate LegacyGui(v: Value) {
    v == Str("True") || v == Str("False")
  }

  /** What every operation of the step keeps true of its configuration. */
  predicate WellFormed(c: Config) {
    HasRequiredKeys(c) && !LegacyGui(c[GuiKey])
  }

  /** The GUI flag after the compatibility step of loading. */
  function NormalizeGui(v: Value): Value {
    if v == Str("True") then Bool(true) else if v == Str("False") then Bool(false) else v
  }

  /** Configuration after loading: `current.update(parsed)`, then the GUI flag normalised. */
  function Load(current: Config, parsed: Config): Config
    requires GuiKey in current + parsed
  {
    var merged := current + parsed;
    merged[GuiKey := NormalizeGui(merged[GuiKey])]
  }

  /** A new step holds an empty identifier, GUI mode on and every landmark disabled, and nothing else. */
  lemma DefaultsAreUnconfigured()
    ensures Defaults().Keys == {IdentifierKey, GuiKey} + set l | l in FemurLandmarks
    ensures Defaults()[IdentifierKey] == Str("")
    ensures Defaults()[GuiKey] == Bool(true)
    ensures forall l <- FemurLandmarks :: Defaults()[l] == Disabled
    ensures WellFormed(Defaults())
  {
    assert IdentifierKey !in FemurLandmarks && GuiKey !in FemurLandmarks;
  }

  /**
   * Loading is an update-merge: every key of the document except the GUI
   * flag takes the document's value, every other key keeps its value, and no
   * key is dropped.
   */
  lemma LoadMerges(current: Config, parsed: Config)
    requires GuiKey in current
    ensures Load(current, parsed).Keys == current.Keys + parsed.Keys
    ensures forall k :: k in parsed && k != GuiKey ==> Load(current, parsed)[k] == parsed[k]
    ensures forall k :: k in current && k !in parsed && k != GuiKey ==> Load(current, parsed)[k] == current[k]
  {
  }

  /**
   * The GUI flag after loading: the legacy strings 'True' and 'False' become
   * booleans; any other value, booleans included, is the merged value as is.
   */
  lemma LoadNormalizesGui(current: Config, parsed: Config)
    requires GuiKey in current
    ensures var v := if GuiKey in parsed then parsed[GuiKey] else current[GuiKey];
      && (v == Str("True") ==> Load(current, parsed)[GuiKey] == Bool(true))
      && (v == Str("False") ==> Load(current, parsed)[GuiKey] == Bool(false))
      && (!LegacyGui(v) ==> Load(current, parsed)[GuiKey] == v)
  {
  }

  /** Loading keeps a well-formed configuration well-formed, whatever the document holds. */
  lemma LoadKeepsWellFormed(current: Config, parsed: Config)
    requires WellFormed(current)
    ensures WellFormed(Load(current, parsed))
  {
  }

  /** Loading the document a step serialised gives that step's configuration back. */
  lemma ReloadRestores(c: Config)
    requires WellFormed(c)
    ensures Load(c, c) == c
  {
  }

  /**
   * A saved workflow reloads faithfully: loading a well-formed configuration
   * into a newly constructed step gives exactly that configuration.
   */
  lemma {:induction false} LoadIntoNewStep(c: Config)
    requires WellFormed(c)
    ensures Load(Defaults(), c) == c
  {
    assert Defaults().Keys <= c.Keys by {
      DefaultsAreUnconfigured();
    }
    assert (Defaults() + c).Keys == c.Keys;
  }
}
