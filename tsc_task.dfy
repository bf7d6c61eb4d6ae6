/**
 * The TypeScript compiler tasks of just-scripts: `tscTask` (one build) and
 * `tscWatchTask` (a watch build). Each factory checks that the compiler's
 * entry script was found and returns a task; the task defaults
 * `options.project` in the caller's options object, skips when there is no
 * existing project file, and otherwise turns the options into a compiler
 * command line.
 */
module TscTasks {
  import opened Wrappers

  // ---------------------------------------------------------------------------
  // Option values and the options object
  // ---------------------------------------------------------------------------

  /** An option value as JavaScript's `typeof` and truthiness see it. */
  datatype Value =
    | Str(s: string)
    | Bool(b: bool)
    /** a number, an object, `null`, ...: never emitted; only its truthiness matters */
    | Other(truthy: bool)
    | Undef

  /** The keys of an options object in insertion order, each with its value. */
  type Options = seq<(string, Value)>

  const ProjectKey: string := "project"
  const WatchFlag: string := "--watch"
  const MissingTsc: string := "cannot find tsc"

  /** JavaScript truthiness: the empty string, `false` and `undefined` are falsy. */
  predicate Truthy(v: Value) {
    match v
    case Str(s) => s != ""
    case Bool(b) => b
    case Other(t) => t
    case Undef => false
  }

  /** `Object.keys(options)`. */
  function Keys(opts: Options): (ks: seq<string>)
    ensures |ks| == |opts|
    ensures forall i :: 0 <= i < |opts| ==> ks[i] == opts[i].0
  {
    if opts == [] then [] else [opts[0].0] + Keys(opts[1..])
  }

  /** A JavaScript object never holds the same key twice. */
  predicate DistinctKeys(opts: Options) {
    forall i, j :: 0 <= i < j < |opts| ==> opts[i].0 != opts[j].0
  }

  /** `options[key]`: the value stored under `key`, `undefined` when there is none. */
  function ValueOf(opts: Options, key: string): (v: Value)
    ensures key !in Keys(opts) ==> v == Undef
  {
    if opts == [] then Undef
    else if opts[0].0 == key then opts[0].1
    else ValueOf(opts[1..], key)
  }

  /**
   * `options[key] = v`: an existing key keeps its place and gets the new
   * value; a new key is added last, even when `v` is `undefined`.
   */
  function Assign(opts: Options, key: string, v: Value): (r: Options)
    ensures ValueOf(r, key) == v
  {
    if opts == [] then [(key, v)]
    else if opts[0].0 == key then [(key, v)] + opts[1..]
    else [opts[0]] + Assign(opts[1..], key, v)
  }

  /** Assigning one key leaves what every other key reads unchanged. */
  lemma {:induction false} AssignOtherKeys(opts: Options, key: string, v: Value)
    ensures forall k :: k != key ==> ValueOf(Assign(opts, key, v), k) == ValueOf(opts, k)
  {
    if opts != [] && opts[0].0 != key {
      AssignOtherKeys(opts[1..], key, v);
    }
  }

  /**
   * Assignment keeps the key order: every entry stays at its index with its
   * key, only entries under `key` can change, and a new key is added last.
   */
  lemma {:induction false} AssignKeepsOrder(opts: Options, key: string, v: Value)
    ensures |Assign(opts, key, v)| == if key in Keys(opts) then |opts| else |opts| + 1
    ensures forall i :: 0 <= i < |opts| ==> Assign(opts, key, v)[i].0 == opts[i].0
    ensures forall i :: 0 <= i < |opts| && opts[i].0 != key ==> Assign(opts, key, v)[i] == opts[i]
    ensures key !in Keys(opts) ==> Assign(opts, key, v)[|opts|] == (key, v)
  {
    if opts != [] && opts[0].0 != key {
      var rest := Assign(opts[1..], key, v);
      AssignKeepsOrder(opts[1..], key, v);
      assert Assign(opts, key, v) == [opts[0]] + rest;
      assert key in Keys(opts) <==> key in Keys(opts[1..]);
    }
  }

  /** In an object with distinct keys, every key reads the value of its own entry. */
  lemma {:induction false} ValueOfEntry(opts: Options, i: nat)
    requires DistinctKeys(opts) && i < |opts|
    ensures ValueOf(opts, opts[i].0) == opts[i].1
  {
    if i > 0 {
      assert opts[0].0 != opts[i].0;
      assert opts[1..][i - 1] == opts[i];
      ValueOfEntry(opts[1..], i - 1);
    }
  }

  /** Assignment keeps the keys distinct. */
  lemma AssignKeepsDistinct(opts: Options, key: string, v: Value)
    ensures DistinctKeys(opts) ==> DistinctKeys(Assign(opts, key, v))
  {
    AssignKeepsOrder(opts, key, v);
    var r := Assign(opts, key, v);
    forall i, j | DistinctKeys(opts) && 0 <= i < j < |r| ensures r[i].0 != r[j].0 {
      if j == |opts| {
        assert key !in Keys(opts);
        assert Keys(opts)[i] == opts[i].0;
      }
    }
  }

  lemma {:induction false} AssignSameValue(opts: Options, key: string)
    requires key in Keys(opts)
    ensures Assign(opts, key, ValueOf(opts, key)) == opts
  {
    if opts[0].0 != key {
      assert key in Keys(opts[1..]);
      AssignSameValue(opts[1..], key);
    }
  }

  lemma {:induction false} AssignTwice(opts: Options, key: string, v: Value, w: Value)
    ensures Assign(Assign(opts, key, v), key, w) == Assign(opts, key, w)
  {
    if opts != [] && opts[0].0 != key {
      AssignTwice(opts[1..], key, v, w);
    }
  }

  // ---------------------------------------------------------------------------
  // Project defaulting (tscTask.ts lines 18 and 54)
  // ---------------------------------------------------------------------------

  /**
   * `options.project || tsConfigFile || undefined`: a truthy current value is
   * kept; otherwise a non-empty discovered `tsconfig.json` is used; otherwise
   * the result is `undefined`. The result is always truthy or `undefined`.
   */
  function ResolvedProject(current: Value, tsConfigFile: Option<string>): (r: Value)
    ensures Truthy(current) ==> r == current
    ensures !Truthy(current) ==>
              (r == Undef <==> tsConfigFile.None? || tsConfigFile.value == "")
    ensures !Truthy(current) && r != Undef ==> r == Str(tsConfigFile.value)
    ensures Truthy(r) || r == Undef
  {
    if Truthy(current) then current
    else if tsConfigFile.Some? && tsConfigFile.value != "" then Str(tsConfigFile.value)
    else Undef
  }

  /** The options object after the task has assigned `options.project`. */
  function DefaultProject(opts: Options, tsConfigFile: Option<string>): (r: Options)
    ensures Truthy(ValueOf(opts, ProjectKey)) ==> r == opts
    ensures !Truthy(ValueOf(opts, ProjectKey)) && tsConfigFile.Some? && tsConfigFile.value != "" ==>
              ValueOf(r, ProjectKey) == Str(tsConfigFile.value)
    ensures !Truthy(ValueOf(opts, ProjectKey)) && (tsConfigFile.None? || tsConfigFile.value == "") ==>
              ValueOf(r, ProjectKey) == Undef
    ensures forall k :: k != ProjectKey ==> ValueOf(r, k) == ValueOf(opts, k)
    ensures |r| == if ProjectKey in Keys(opts) then |opts| else |opts| + 1
    ensures forall i :: 0 <= i < |opts| ==> r[i].0 == opts[i].0
    ensures ProjectKey !in Keys(opts) ==> r[|opts|].0 == ProjectKey
    ensures DistinctKeys(opts) ==> DistinctKeys(r)
  {
    var current := ValueOf(opts, ProjectKey);
    AssignKeepsDistinct(opts, ProjectKey, ResolvedProject(current, tsConfigFile));
    AssignKeepsOrder(opts, ProjectKey, ResolvedProject(current, tsConfigFile));
    AssignOtherKeys(opts, ProjectKey, ResolvedProject(current, tsConfigFile));
    if Truthy(current) then
      AssignSameValue(opts, ProjectKey);
      Assign(opts, ProjectKey, current)
    else
      Assign(opts, ProjectKey, ResolvedProject(current, tsConfigFile))
  }

  /** After defaulting, `project` is either a truthy value or `undefined`. */
  lemma DefaultedProjectTruthyOrUndef(opts: Options, tsConfigFile: Option<string>)
    ensures var p := ValueOf(DefaultProject(opts, tsConfigFile), ProjectKey);
            Truthy(p) || p == Undef
  {
  }

  /** Running the task again with the same factory-time `tsconfig.json` changes nothing more. */
  lemma {:induction false} DefaultProjectIdempotent(opts: Options, tsConfigFile: Option<string>)
    ensures DefaultProject(DefaultProject(opts, tsConfigFile), tsConfigFile)
         == DefaultProject(opts, tsConfigFile)
  {
    var once := DefaultProject(opts, tsConfigFile);
    var p := ValueOf(once, ProjectKey);
    if !Truthy(p) {
      assert p == Undef;
      assert ResolvedProject(p, tsConfigFile) == Undef;
      assert ResolvedProject(ValueOf(opts, ProjectKey), tsConfigFile) == Undef;
      AssignTwice(opts, ProjectKey, Undef, Undef);
    }
  }

  // ---------------------------------------------------------------------------
  // The argument builder (tscTask.ts lines 23-34 and 59-70)
  // ---------------------------------------------------------------------------

  /**
   * The tokens one option adds to the argument list: a string adds the flag
   * and its value, a boolean of either value adds the flag alone, and every
   * other value adds nothing.
   */
  function Contribution(key: string, v: Value): (toks: seq<string>)
    ensures |toks| == (if v.Str? then 2 else if v.Bool? then 1 else 0)
    ensures |toks| > 0 ==> toks[0] == "--" + key
    ensures v.Str? ==> toks[1] == v.s
  {
    match v
    case Str(s) => ["--" + key, s]
    case Bool(_) => ["--" + key]
    case _ => []
  }

  /**
   * The `reduce` over the option keys: a left fold that concatenates onto
   * `acc`. It never alters what is already in `acc`; it only appends every
   * option's tokens, in key order.
   */
  function Reduce(acc: seq<string>, opts: Options): (r: seq<string>)
    ensures r == acc + Emitted(opts)
    decreases |opts|
  {
    if opts == [] then acc
    else
      var c := Contribution(opts[0].0, opts[0].1);
      assert acc + c + Emitted(opts[1..]) == acc + (c + Emitted(opts[1..]));
      Reduce(acc + c, opts[1..])
  }

  /**
   * The argument list, the fold seeded with `[tscCmd]`: it starts with the
   * compiler entry script, followed by exactly the options' tokens.
   */
  function BuildArgs(tscCmd: string, opts: Options): (args: seq<string>)
    ensures |args| >= 1 && args[0] == tscCmd
    ensures args == [tscCmd] + Emitted(opts)
  {
    Reduce([tscCmd], opts)
  }

  /** Reference definition: the options' tokens concatenated in key order. */
  function Emitted(opts: Options): seq<string> {
    if opts == [] then [] else Contribution(opts[0].0, opts[0].1) + Emitted(opts[1..])
  }

  function StringCount(opts: Options): nat {
    if opts == [] then 0 else (if opts[0].1.Str? then 1 else 0) + StringCount(opts[1..])
  }

  function BoolCount(opts: Options): nat {
    if opts == [] then 0 else (if opts[0].1.Bool? then 1 else 0) + BoolCount(opts[1..])
  }

  lemma {:induction false} EmittedLength(opts: Options)
    ensures |Emitted(opts)| == 2 * StringCount(opts) + BoolCount(opts)
  {
    if opts != [] {
      EmittedLength(opts[1..]);
    }
  }

  /** Length of the argument list: one seed, two tokens per string, one per boolean. */
  lemma {:induction false} BuildArgsLength(tscCmd: string, opts: Options)
    ensures |BuildArgs(tscCmd, opts)| == 1 + 2 * StringCount(opts) + BoolCount(opts)
  {
    EmittedLength(opts);
  }

  lemma {:induction false} EmittedAppend(a: Options, b: Options)
    ensures Emitted(a + b) == Emitted(a) + Emitted(b)
  {
    if a == [] {
      assert a + b == b;
    } else {
      assert (a + b)[1..] == a[1..] + b;
      EmittedAppend(a[1..], b);
    }
  }

  /** Where option `i`'s tokens begin in the argument list. */
  function Offset(opts: Options, i: nat): nat
    requires i <= |opts|
  {
    1 + |Emitted(opts[..i])|
  }

  /**
   * Option `i` owns the slice of the argument list between its offset and the
   * next option's, and that slice is exactly the option's tokens. Offsets
   * never decrease, so the tokens appear in key order.
   */
  lemma {:induction false} OptionSlice(tscCmd: string, opts: Options, i: nat)
    requires i < |opts|
    ensures Offset(opts, i + 1) == Offset(opts, i) + |Contribution(opts[i].0, opts[i].1)|
    ensures Offset(opts, i + 1) <= |BuildArgs(tscCmd, opts)|
    ensures BuildArgs(tscCmd, opts)[Offset(opts, i)..Offset(opts, i + 1)]
         == Contribution(opts[i].0, opts[i].1)
  {
    var c := Contribution(opts[i].0, opts[i].1);
    var e := Emitted(opts[..i]);
    var post := Emitted(opts[i + 1..]);
    EmittedAround(opts, i);
    assert Emitted(opts) == e + c + post;
    assert BuildArgs(tscCmd, opts) == ([tscCmd] + e) + c + post;
    assert Offset(opts, i) == |[tscCmd] + e|;
    SliceMiddle([tscCmd] + e, c, post);
  }

  lemma SliceMiddle(pre: seq<string>, c: seq<string>, post: seq<string>)
    ensures (pre + c + post)[|pre|..|pre| + |c|] == c
  {
  }

  /**
   * Per value type: a string gives `--key` then its value, a boolean (either
   * value) gives `--key` alone, anything else gives nothing.
   */
  lemma {:induction false} OptionTokens(tscCmd: string, opts: Options, i: nat)
    requires i < |opts|
    ensures opts[i].1.Str? ==>
              Offset(opts, i + 1) == Offset(opts, i) + 2 <= |BuildArgs(tscCmd, opts)| &&
              BuildArgs(tscCmd, opts)[Offset(opts, i)] == "--" + opts[i].0 &&
              BuildArgs(tscCmd, opts)[Offset(opts, i) + 1] == opts[i].1.s
    ensures opts[i].1.Bool? ==>
              Offset(opts, i + 1) == Offset(opts, i) + 1 <= |BuildArgs(tscCmd, opts)| &&
              BuildArgs(tscCmd, opts)[Offset(opts, i)] == "--" + opts[i].0
    ensures !opts[i].1.Str? && !opts[i].1.Bool? ==> Offset(opts, i + 1) == Offset(opts, i)
  {
    OptionSlice(tscCmd, opts, i);
    var args, lo, hi := BuildArgs(tscCmd, opts), Offset(opts, i), Offset(opts, i + 1);
    var c := Contribution(opts[i].0, opts[i].1);
    assert args[lo..hi] == c;
    if |c| > 0 {
      assert args[lo] == args[lo..hi][0] == c[0];
    }
    if |c| > 1 {
      assert args[lo + 1] == args[lo..hi][1] == c[1];
    }
  }

  /** The reference tokens split around option `i`. */
  lemma {:induction false} EmittedAround(opts: Options, i: nat)
    requires i < |opts|
    ensures Emitted(opts[..i + 1]) == Emitted(opts[..i]) + Contribution(opts[i].0, opts[i].1)
    ensures Emitted(opts) == Emitted(opts[..i + 1]) + Emitted(opts[i + 1..])
  {
    assert opts == opts[..i + 1] + opts[i + 1..];
    assert opts[..i + 1] == opts[..i] + [opts[i]];
    EmittedAppend(opts[..i + 1], opts[i + 1..]);
    EmittedAppend(opts[..i], [opts[i]]);
    assert Emitted([opts[i]]) == Contribution(opts[i].0, opts[i].1) + Emitted([]);
  }

  lemma {:induction false} EmittedSameContributions(a: Options, b: Options)
    requires |a| == |b|
    requires forall i :: 0 <= i < |a| ==> Contribution(a[i].0, a[i].1) == Contribution(b[i].0, b[i].1)
    ensures Emitted(a) == Emitted(b)
  {
    if a != [] {
      assert Contribution(a[0].0, a[0].1) == Contribution(b[0].0, b[0].1);
      EmittedSameContributions(a[1..], b[1..]);
    }
  }

  /** A boolean option's value is never consulted: `true` and `false` build the same command. */
  lemma {:induction false} BooleanValueIgnored(tscCmd: string, opts: Options, i: nat)
    requires i < |opts| && opts[i].1.Bool?
    ensures BuildArgs(tscCmd, opts[i := (opts[i].0, Bool(true))])
         == BuildArgs(tscCmd, opts[i := (opts[i].0, Bool(false))])
  {
    var t := opts[i := (opts[i].0, Bool(true))];
    var f := opts[i := (opts[i].0, Bool(false))];
    EmittedSameContributions(t, f);
  }

  // ---------------------------------------------------------------------------
  // The existence gate and the command (lines 20, 36, 56, 72)
  // ---------------------------------------------------------------------------

  datatype Mode = Build | Watch

  /** What one run of a task does. */
  datatype Outcome =
    | Skip
    /** `exec` of the interpreter with this token list */
    | Exec(command: seq<string>)
    /** `spawn` of `exe` with these arguments */
    | Spawn(exe: string, args: seq<string>)

  /**
   * `options.project && fs.existsSync(options.project)`: only a non-empty
   * string naming an existing file passes.
   */
  predicate ProjectExists(project: Value, fileExists: string -> bool)
    ensures ProjectExists(project, fileExists) ==> project.Str? && project.s != ""
    ensures project.Str? && project.s != "" ==>
              (ProjectExists(project, fileExists) <==> fileExists(project.s))
  {
    Truthy(project) && project.Str? && fileExists(project.s)
  }

  /** The outcome of a run, given the options after defaulting. */
  function Command(mode: Mode, execPath: string, tscCmd: string, opts: Options,
                   fileExists: string -> bool): (o: Outcome)
    ensures o.Skip? <==> !ProjectExists(ValueOf(opts, ProjectKey), fileExists)
    ensures mode == Build && !o.Skip? ==>
              o.Exec? && o.command == [execPath] + [tscCmd] + Emitted(opts)
    ensures mode == Watch && !o.Skip? ==>
              o.Spawn? && o.exe == execPath &&
              o.args == [tscCmd] + Emitted(opts) + [WatchFlag]
  {
    if !ProjectExists(ValueOf(opts, ProjectKey), fileExists) then Skip
    else match mode
      case Build => Exec([execPath] + BuildArgs(tscCmd, opts))
      case Watch => Spawn(execPath, BuildArgs(tscCmd, opts) + [WatchFlag])
  }

  /**
   * In terms of the options as the caller passed them: a run skips exactly
   * when the defaulted project (explicit, else the discovered
   * `tsconfig.json`, else `undefined`) is not an existing file.
   */
  lemma SkipWhenNoProject(mode: Mode, execPath: string, tscCmd: string, opts: Options,
                          tsConfigFile: Option<string>, fileExists: string -> bool)
    ensures Command(mode, execPath, tscCmd, DefaultProject(opts, tsConfigFile), fileExists).Skip?
        <==> !ProjectExists(ResolvedProject(ValueOf(opts, ProjectKey), tsConfigFile), fileExists)
  {
    assert ValueOf(DefaultProject(opts, tsConfigFile), ProjectKey)
        == ResolvedProject(ValueOf(opts, ProjectKey), tsConfigFile);
  }

  /**
   * The watch task runs exactly when the build task would, with the build
   * command's arguments (all but the interpreter) and one trailing `--watch`.
   */
  lemma WatchIsBuildPlusFlag(execPath: string, tscCmd: string, opts: Options,
                             fileExists: string -> bool)
    ensures var b := Command(Build, execPath, tscCmd, opts, fileExists);
            var w := Command(Watch, execPath, tscCmd, opts, fileExists);
            (b.Skip? <==> w.Skip?) &&
            (!b.Skip? ==> b.command[0] == w.exe && w.args == b.command[1..] + [WatchFlag])
  {
  }

  /** The factory-time check `if (!tscCmd) throw new Error('cannot find tsc')`. */
  function FindTsc(tscCmd: Option<string>): (r: Result<string, string>)
    ensures r.Success? <==> tscCmd.Some? && tscCmd.value != ""
    ensures r.Success? ==> r.value == tscCmd.value
    ensures r.Failure? ==> r.error == MissingTsc
  {
    if tscCmd.Some? && tscCmd.value != "" then Success(tscCmd.value) else Failure(MissingTsc)
  }

  // ---------------------------------------------------------------------------
  // The caller's options object and the tasks
  // ---------------------------------------------------------------------------

  /** The caller-owned options object, which a task run updates in place. */
  class OptionsObject {
    var entries: Options

    /** Like every JavaScript object, it holds each key at most once. */
    ghost predicate Valid()
      reads this
    {
      DistinctKeys(entries)
    }

    constructor (entries: Options)
      requires DistinctKeys(entries)
      ensures Valid() && this.entries == entries
    {
      this.entries := entries;
    }

    /** `options.project = options.project || tsConfigFile || undefined`. */
    method AssignProject(tsConfigFile: Option<string>)
      requires Valid()
      modifies this
      ensures Valid()
      ensures entries == DefaultProject(old(entries), tsConfigFile)
    {
      var project := ResolvedProject(ValueOf(entries, ProjectKey), tsConfigFile);
      AssignKeepsDistinct(entries, ProjectKey, project);
      entries := Assign(entries, ProjectKey, project);
    }
  }

  /** The task closure a factory returns, with what it captured. */
  class CompilerTask {
    const mode: Mode
    const options: OptionsObject
    const tsConfigFile: Option<string>
    const tscCmd: string

    constructor (mode: Mode, options: OptionsObject, tsConfigFile: Option<string>, tscCmd: string)
      ensures this.mode == mode && this.options == options
      ensures this.tsConfigFile == tsConfigFile && this.tscCmd == tscCmd
    {
      this.mode := mode;
      this.options := options;
      this.tsConfigFile := tsConfigFile;
      this.tscCmd := tscCmd;
    }

    /**
     * One invocation of the task: default `project` in the shared options
     * object, then skip, or return the command to execute or spawn.
     * `execPath` is the interpreter's path and `fileExists` the file system.
     */
    method Run(execPath: string, fileExists: string -> bool) returns (o: Outcome)
      requires options.Valid()
      modifies options
      ensures options.Valid()
      ensures options.entries == DefaultProject(old(options.entries), tsConfigFile)
      ensures o == Command(mode, execPath, tscCmd, options.entries, fileExists)
    {
      options.AssignProject(tsConfigFile);
      var opts := options.entries;
      if ProjectExists(ValueOf(opts, ProjectKey), fileExists) {
        var args := BuildArgs(tscCmd, opts);
        if mode == Build {
          o := Exec([execPath] + args);
        } else {
          o := Spawn(execPath, args + [WatchFlag]);
        }
      } else {
        o := Skip;
      }
    }
  }

  /** Shared body of the two factories; `tscCmd` is what module resolution found. */
  method MakeTask(mode: Mode, options: OptionsObject, tsConfigFile: Option<string>,
                  tscCmd: Option<string>) returns (r: Result<CompilerTask, string>)
    ensures r.Failure? <==> FindTsc(tscCmd).Failure?
    ensures r.Failure? ==> r.error == MissingTsc
    ensures r.Success? ==>
              fresh(r.value) && r.value.mode == mode && r.value.options == options &&
              r.value.tsConfigFile == tsConfigFile && r.value.tscCmd == FindTsc(tscCmd).value
  {
    match FindTsc(tscCmd)
    case Failure(e) =>
      r := Failure(e);
    case Success(cmd) =>
      var task := new CompilerTask(mode, options, tsConfigFile, cmd);
      r := Success(task);
  }

  /** `tscTask(options)`: a single build. */
  method TscTask(options: OptionsObject, tsConfigFile: Option<string>, tscCmd: Option<string>)
    returns (r: Result<CompilerTask, string>)
    ensures r.Failure? <==> FindTsc(tscCmd).Failure?
    ensures r.Failure? ==> r.error == MissingTsc
    ensures r.Success? ==>
              fresh(r.value) && r.value.mode == Build && r.value.options == options &&
              r.value.tsConfigFile == tsConfigFile && r.value.tscCmd == FindTsc(tscCmd).value
  {
    r := MakeTask(Build, options, tsConfigFile, tscCmd);
  }

  /** `tscWatchTask(options)`: a watch build. */
  method TscWatchTask(options: OptionsObject, tsConfigFile: Option<string>, tscCmd: Option<string>)
    returns (r: Result<CompilerTask, string>)
    ensures r.Failure? <==> FindTsc(tscCmd).Failure?
    ensures r.Failure? ==> r.error == MissingTsc
    ensures r.Success? ==>
              fresh(r.value) && r.value.mode == Watch && r.value.options == options &&
              r.value.tsConfigFile == tsConfigFile && r.value.tscCmd == FindTsc(tscCmd).value
  {
    r := MakeTask(Watch, options, tsConfigFile, tscCmd);
  }
}
