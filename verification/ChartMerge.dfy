/** The option merge of embed/widgets/chart-options.js, path by path. */
module ChartMerge {

  /** A configuration value: `undefined`, something merged as a whole (null, a scalar, an array), or an object. */
  datatype Tree = Undefined | Leaf(value: string) | Node(fields: map<string, Tree>)

  type Path = seq<string>

  function Fields(t: Tree): map<string, Tree> {
    if t.Node? then t.fields else map[]
  }

  /** `deepMerge(target, source)` */
  function DeepMerge(target: Tree, source: Tree): Tree
    decreases source
  {
    match source
    case Undefined => target
    case Leaf(_) => source
    case Node(fields) =>
      var out := Fields(target);
      Node(map key | key in out.Keys + fields.Keys ::
             if key !in fields then out[key]
             else if fields[key].Node? && key in out && out[key].Node? then DeepMerge(out[key], fields[key])
             else fields[key])
  }

  /** Reading along a path: missing and undefined read the same. */
  function At(t: Tree, path: Path): Tree {
    if path == [] then t
    else if t.Node? && path[0] in t.fields then At(t.fields[path[0]], path[1..])
    else Undefined
  }

  /** How a path fares in a tree: it is there, it leaves an object that lacks its next key, or it runs into a value. */
  datatype Reach = There | FallsOff | Blocked

  function ReachOf(t: Tree, path: Path): Reach {
    if path == [] then There
    else if !t.Node? then Blocked
    else if path[0] in t.fields then ReachOf(t.fields[path[0]], path[1..])
    else FallsOff
  }

  /**
   * What a merged tree reads at any path below the root. Where the source has a value, that value;
   * where it has an object, the two objects merged; where it lacks a key, the target; and where the
   * source's value stands in the way, nothing.
   */
  lemma {:induction false} MergeAt(target: Tree, source: Tree, path: Path)
    requires path != [] && source.Node?
    ensures At(DeepMerge(target, source), path) ==
            match ReachOf(source, path)
            case There =>
              if At(source, path).Node? then DeepMerge(At(target, path), At(source, path)) else At(source, path)
            case FallsOff => At(target, path)
            case Blocked => Undefined
    decreases |path|
  {
    var key, rest := path[0], path[1..];
    var out, merged := Fields(target), DeepMerge(target, source);
    if key in source.fields {
      var sub := source.fields[key];
      var into := if key in out then out[key] else Undefined;
      if sub.Node? {
        MergeIntoNothing(into, sub);
        assert merged.fields[key] == DeepMerge(into, sub);
        if rest != [] {
          MergeAt(into, sub, rest);
        }
        UndefinedEverywhere(rest);
      }
    }
  }

  lemma UndefinedEverywhere(path: Path)
    ensures At(Undefined, path) == Undefined
  {
  }

  /** An object merged into anything but an object is itself. */
  lemma MergeIntoNothing(target: Tree, source: Tree)
    requires source.Node?
    ensures !target.Node? ==> DeepMerge(target, source) == source
  {
  }

  /** Merging a tree with itself adds nothing. */
  lemma {:induction false} MergeSelf(t: Tree)
    ensures DeepMerge(t, t) == t
    decreases t
  {
    if t.Node? {
      forall key | key in t.fields && t.fields[key].Node?
        ensures DeepMerge(t.fields[key], t.fields[key]) == t.fields[key]
      {
        MergeSelf(t.fields[key]);
      }
    }
  }

  /** Merging the same source a second time adds nothing. */
  lemma {:induction false} MergeTwice(target: Tree, source: Tree)
    ensures DeepMerge(DeepMerge(target, source), source) == DeepMerge(target, source)
    decreases source
  {
    if source.Node? {
      var once := DeepMerge(target, source);
      forall key | key in source.fields && source.fields[key].Node?
        ensures DeepMerge(once.fields[key], source.fields[key]) == once.fields[key]
      {
        var into := if key in Fields(target) then Fields(target)[key] else Undefined;
        MergeIntoNothing(into, source.fields[key]);
        MergeTwice(into, source.fields[key]);
      }
    }
  }

  // ----- the final option -----

  const INTERPRETED_KEYS: set<string> := {
    "title", "subtitle", "legend", "tooltip", "palette", "stack", "orientation",
    "smooth", "areaOpacity", "dataLabels", "animation", "grid", "xAxis", "yAxis",
    "y2Axis", "referenceLines", "annotations", "locale", "echarts", "max", "min"
  }

  /** `stripInterpretedKeys`, for any set of interpreted keys. */
  function Strip(config: map<string, Tree>, interpreted: set<string>): map<string, Tree> {
    map key | key in config && key !in interpreted :: config[key]
  }

  /** The last lines of `buildChartOption`. */
  function FinalOption(computed: Tree, config: map<string, Tree>, interpreted: set<string>): Tree {
    var passthrough := Strip(config, interpreted);
    var option := if passthrough != map[] then DeepMerge(computed, Node(passthrough)) else computed;
    if "echarts" in config && config["echarts"].Node? then DeepMerge(option, config["echarts"]) else option
  }

  function BuildOption(computed: Tree, config: map<string, Tree>): Tree {
    FinalOption(computed, config, INTERPRETED_KEYS)
  }

  /** The `echarts` block, or an empty object. */
  function Explicit(config: map<string, Tree>): Tree {
    if "echarts" in config && config["echarts"].Node? then config["echarts"] else Node(map[])
  }

  lemma MergeNothing(t: Tree)
    requires t.Node?
    ensures DeepMerge(t, Node(map[])) == t
  {
  }

  lemma FinalIsBothMerged(computed: Tree, config: map<string, Tree>, interpreted: set<string>)
    requires computed.Node?
    ensures FinalOption(computed, config, interpreted)
         == DeepMerge(DeepMerge(computed, Node(Strip(config, interpreted))), Explicit(config))
  {
    MergeNothing(computed);
    MergeNothing(DeepMerge(computed, Node(Strip(config, interpreted))));
  }

  /** A value given in the `echarts` block is the final one, whatever else says. */
  lemma ExplicitWins(computed: Tree, config: map<string, Tree>, interpreted: set<string>, path: Path)
    requires computed.Node? && path != []
    requires ReachOf(Explicit(config), path) == There && !At(Explicit(config), path).Node?
    ensures At(FinalOption(computed, config, interpreted), path) == At(Explicit(config), path)
  {
    FinalIsBothMerged(computed, config, interpreted);
    MergeAt(DeepMerge(computed, Node(Strip(config, interpreted))), Explicit(config), path);
  }

  /** Next comes the passthrough: its value stands where the `echarts` block says nothing about the path. */
  lemma PassthroughIsNext(computed: Tree, config: map<string, Tree>, interpreted: set<string>, path: Path)
    requires computed.Node? && path != [] && ReachOf(Explicit(config), path) == FallsOff
    ensures var p := Node(Strip(config, interpreted)); ReachOf(p, path) == There && !At(p, path).Node? ==>
              At(FinalOption(computed, config, interpreted), path) == At(p, path)
    ensures ReachOf(Node(Strip(config, interpreted)), path) == FallsOff ==>
              At(FinalOption(computed, config, interpreted), path) == At(computed, path)
  {
    var p := Node(Strip(config, interpreted));
    FinalIsBothMerged(computed, config, interpreted);
    MergeAt(DeepMerge(computed, p), Explicit(config), path);
    MergeAt(computed, p, path);
  }

  /** An interpreted key never passes through: below it only the computed option and the `echarts` block count. */
  lemma InterpretedKeysDoNotPass(computed: Tree, config: map<string, Tree>, interpreted: set<string>, path: Path)
    requires computed.Node? && path != [] && path[0] in interpreted && ReachOf(Explicit(config), path) == FallsOff
    ensures At(FinalOption(computed, config, interpreted), path) == At(computed, path)
  {
    PassthroughIsNext(computed, config, interpreted, path);
  }

  /** The option for the interpreted keys of the source: who decides a path the `echarts` block is silent about. */
  lemma BuildOptionAt(computed: Tree, config: map<string, Tree>, path: Path)
    requires computed.Node? && path != [] && ReachOf(Explicit(config), path) == FallsOff
    ensures path[0] in INTERPRETED_KEYS ==> At(BuildOption(computed, config), path) == At(computed, path)
    ensures path[0] !in INTERPRETED_KEYS && ReachOf(Node(config), path) == There && !At(Node(config), path).Node? ==>
              At(BuildOption(computed, config), path) == At(Node(config), path)
    ensures path[0] !in INTERPRETED_KEYS && ReachOf(Node(config), path) == FallsOff ==>
              At(BuildOption(computed, config), path) == At(computed, path)
  {
    if path[0] in INTERPRETED_KEYS {
      InterpretedKeysDoNotPass(computed, config, INTERPRETED_KEYS, path);
    } else {
      StripKeeps(config, INTERPRETED_KEYS, path);
      PassthroughIsNext(computed, config, INTERPRETED_KEYS, path);
    }
  }

  lemma StripKeeps(config: map<string, Tree>, interpreted: set<string>, path: Path)
    requires path != [] && path[0] !in interpreted
    ensures ReachOf(Node(Strip(config, interpreted)), path) == ReachOf(Node(config), path)
    ensures At(Node(Strip(config, interpreted)), path) == At(Node(config), path)
  {
    assert path[0] in config <==> path[0] in Strip(config, interpreted);
  }

  /** Settings under interpreted keys reach the option through the computed part alone. */
  lemma InterpretedSettingsDoNotLeak(computed: Tree, a: map<string, Tree>, b: map<string, Tree>)
    requires computed.Node? && Explicit(a) == Explicit(b)
    requires forall key :: key !in INTERPRETED_KEYS ==> (key in a <==> key in b) && (key in a ==> a[key] == b[key])
    ensures BuildOption(computed, a) == BuildOption(computed, b)
  {
    FinalIsBothMerged(computed, a, INTERPRETED_KEYS);
    FinalIsBothMerged(computed, b, INTERPRETED_KEYS);
    assert Strip(a, INTERPRETED_KEYS) == Strip(b, INTERPRETED_KEYS);
  }
}
