# TypeScript compiler tasks of just-scripts, in Dafny

This project models `tscTask` and `tscWatchTask` from
`packages/just-scripts/src/tasks/tscTask.ts`. Each factory looks up the
compiler's entry script (`typescript/lib/tsc.js`) and a `tsconfig.json` in the
working directory. It throws `cannot find tsc` when the entry script is
missing. Otherwise it returns a task closure. Each run of that task does three things:

1. It writes `options.project = options.project || tsConfigFile || undefined`
   into the caller's options object.
2. It does nothing when that project is falsy or is not an existing file.
3. Otherwise it folds the option keys, in insertion order, into an argument
   list seeded with the entry script:
   - a string option gives `--key value`;
   - a boolean option, `true` or `false`, gives `--key`;
   - anything else gives nothing.

   The build task `exec`s the interpreter with that list. The watch task
   `spawn`s the interpreter with the list plus a trailing `--watch`.

Layout:

- `wrappers.dfy` (module `Wrappers`): `Option` and `Result`.
- `tsc_task.dfy` (module `TscTasks`):
  - option values (`Value`: string, boolean, any other JavaScript value with
    its truthiness, or `undefined`);
  - the options object as an insertion-ordered `seq` of key/value pairs, with
    JavaScript's get and set;
  - project defaulting, the argument fold `Reduce` and its reference definition
    `Emitted`, and the outcome `Command` of one run;
  - the class `OptionsObject`, the caller's object that a run updates in place;
  - the class `CompilerTask`, the returned closure with its captured values;
  - the two factories.

Environment inputs are parameters:

- the `tsconfig.json` lookup and the module resolution of the entry script are
  `Option<string>` values given to the factories;
- `fs.existsSync` is a predicate `fileExists: string -> bool` given to `Run`;
- `process.execPath` is the string `execPath` given to `Run`.

Both tasks default `project` with `||` (`tscTask.ts` lines 18 and 54), so an
empty-string or `false` project is replaced by the discovered `tsconfig.json`.

The options object is a list of key/value pairs in insertion order. A
JavaScript object never repeats a key, so the class `OptionsObject` keeps
`DistinctKeys` as its invariant, and every assignment preserves it.

## Model

| member | source | states |
|---|---|---|
| `TscTasks.Keys` | packages/just-scripts/src/tasks/tscTask.ts:23-59 | `Object.keys`: one key per entry, in insertion order (build: line 23; watch: line 59) |
| `TscTasks.ValueOf` | packages/just-scripts/src/tasks/tscTask.ts:18 | `options[key]`: a key the object does not hold reads `undefined` |
| `TscTasks.ValueOfEntry` | packages/just-scripts/src/tasks/tscTask.ts:18 | In an object with distinct keys, every key reads the value of its own entry |
| `TscTasks.Assign` | packages/just-scripts/src/tasks/tscTask.ts:18 | Property assignment: afterwards the key reads the assigned value |
| `TscTasks.AssignOtherKeys` | packages/just-scripts/src/tasks/tscTask.ts:18 | Assigning one key leaves what every other key reads unchanged |
| `TscTasks.AssignKeepsOrder` | packages/just-scripts/src/tasks/tscTask.ts:18 | Assignment keeps `Object.keys` order. Every entry stays at its index with its key, and entries under other keys are untouched. An existing key keeps its place; a new key (even with `undefined`) is added last, holding the assigned value |
| `TscTasks.AssignKeepsDistinct` | packages/just-scripts/src/tasks/tscTask.ts:18 | Assignment never makes a key appear twice |
| `TscTasks.ResolvedProject` | packages/just-scripts/src/tasks/tscTask.ts:18-54 | The falsy-test chain of `options.project`, then `tsConfigFile`, then `undefined`: a truthy value is kept. Otherwise the result is `undefined` exactly when no non-empty `tsconfig.json` was found, and that file otherwise. The result is always truthy or `undefined` (build: line 18; watch: line 54) |
| `TscTasks.DefaultProject` | packages/just-scripts/src/tasks/tscTask.ts:18-54 | An explicit (truthy) `project` is never replaced, and then the options are unchanged. Otherwise `project` becomes the discovered `tsconfig.json` when there is a non-empty one, else `undefined`. No other key's value changes. Every key keeps its place, and `project` is appended when it was absent. Distinct keys stay distinct (build: line 18; watch: line 54) |
| `TscTasks.DefaultedProjectTruthyOrUndef` | packages/just-scripts/src/tasks/tscTask.ts:18-54 | After defaulting, `project` is either a truthy value or `undefined` (build: line 18; watch: line 54) |
| `TscTasks.DefaultProjectIdempotent` | packages/just-scripts/src/tasks/tscTask.ts:16-54 | Defaulting a second time with the same factory-time `tsconfig.json` leaves the options as the first run left them (build: lines 16-18; watch: lines 53-54) |
| `TscTasks.OptionsObject.AssignProject` | packages/just-scripts/src/tasks/tscTask.ts:18-54 | The in-place write: the object's entries become the defaulted options of its old entries, and its keys stay distinct (build: line 18; watch: line 54) |
| `TscTasks.Reduce` | packages/just-scripts/src/tasks/tscTask.ts:23-70 | The `reduce` keeps its accumulator as a prefix and appends exactly the reference concatenation of every option's tokens, in key order (build: lines 23-34; watch: lines 59-70) |
| `TscTasks.BuildArgs` | packages/just-scripts/src/tasks/tscTask.ts:23-70 | The fold seeded with `[tscCmd]`: the argument list starts with the compiler entry script, followed by exactly the options' tokens (build: lines 23-34; watch: lines 59-70) |
| `TscTasks.Contribution` | packages/just-scripts/src/tasks/tscTask.ts:25-67 | The tokens of one key: two for a string, one for a boolean, none for anything else. The first token is `--key`, and a string's second token is its value (build: lines 25-31; watch: lines 61-67) |
| `TscTasks.BuildArgsLength` | packages/just-scripts/src/tasks/tscTask.ts:23-70 | The argument list has 1 + 2 x (string options) + (boolean options) tokens (build: lines 23-34; watch: lines 59-70) |
| `TscTasks.OptionSlice` | packages/just-scripts/src/tasks/tscTask.ts:23-70 | Option i owns the slice of the argument list from its offset to the next option's offset, and that slice is exactly its tokens. Offsets never decrease, so tokens appear in key order (build: lines 23-34; watch: lines 59-70) |
| `TscTasks.OptionTokens` | packages/just-scripts/src/tasks/tscTask.ts:24-67 | Per value type: a string gives exactly two consecutive tokens, `--key` and then the value; a boolean (true or false) gives exactly one token, `--key`; any other value gives no token (build: lines 24-31; watch: lines 60-67) |
| `TscTasks.BooleanValueIgnored` | packages/just-scripts/src/tasks/tscTask.ts:27-64 | Setting a boolean option to `true` or to `false` builds the same arguments (build: lines 27-28; watch: lines 63-64) |
| `TscTasks.ProjectExists` | packages/just-scripts/src/tasks/tscTask.ts:20-56 | The gate passes only for a non-empty string project. For such a project it passes exactly when the file exists (build: line 20; watch: line 56) |
| `TscTasks.Command` | packages/just-scripts/src/tasks/tscTask.ts:20-77 | A run skips exactly when `project` is not a non-empty string naming an existing file. Otherwise build runs the interpreter followed by the entry script and the options' tokens, and watch spawns the interpreter with the entry script, the options' tokens and a trailing `--watch` (build: lines 20-41; watch: lines 56-77) |
| `TscTasks.SkipWhenNoProject` | packages/just-scripts/src/tasks/tscTask.ts:18-56 | Stated on the caller's options as passed: a run skips exactly when the defaulted project (explicit, else discovered, else `undefined`) is not an existing file (build: lines 18-20; watch: lines 54-56) |
| `TscTasks.WatchIsBuildPlusFlag` | packages/just-scripts/src/tasks/tscTask.ts:36-72 | The watch task runs exactly when the build task does. Its executable is the build command's first token, and its arguments are the rest of the build command plus one `--watch` (build: line 36; watch: line 72) |
| `TscTasks.FindTsc` | packages/just-scripts/src/tasks/tscTask.ts:10-51 | The factory-time gate succeeds exactly when module resolution found a non-empty path, which it returns; otherwise it fails with `cannot find tsc` (build: lines 10-14; watch: lines 47-51) |
| `TscTasks.CompilerTask.Run` | packages/just-scripts/src/tasks/tscTask.ts:16-78 | One run writes the defaulted `project` into the shared options object and returns the outcome `Command` gives on the updated options (build: lines 16-42; watch: lines 53-78) |
| `TscTasks.MakeTask` | packages/just-scripts/src/tasks/tscTask.ts:8-53 | Fails with `cannot find tsc` exactly when the entry script was not found. Otherwise it returns a new task that captures the caller's options object itself (not a copy), the discovered `tsconfig.json` and the entry script (build: lines 8-16; watch: lines 45-53) |
| `TscTasks.TscTask` | packages/just-scripts/src/tasks/tscTask.ts:8-16 | `tscTask`: as `MakeTask`, in build mode |
| `TscTasks.TscWatchTask` | packages/just-scripts/src/tasks/tscTask.ts:45-53 | `tscWatchTask`: as `MakeTask`, in watch mode |

## Left out

- `exec`, `spawn`, the `{ stdio: 'inherit' }` stream wiring and the processes' exit status: a run returns an `Exec` or `Spawn` value naming what would be started.
- `encodeArgs` shell quoting and the `join(' ')` into one command string: the command is an unquoted token list. The quoting routine is not part of this model.
- `logger.info` messages: they do not change behaviour.
- `fs.existsSync`, `resolveCwd` and `resolve`: these are file-system and module-resolution lookups, taken as parameters. A truthy `project` that is not a string (`true`, an object) is treated as a file that does not exist. Node's `existsSync` returns `false` for an argument that is not a path.
- The `Promise.resolve()` in the skip branches is not returned, so a skipping task returns `undefined`: modelled as `Skip`.
- The `ts.CompilerOptions` key type: keys are plain strings.
- JavaScript puts integer-like keys first in `Object.keys`. The model uses plain insertion order. Compiler option names are never integer-like.
- The `options &&` guard on line 18: `options` is always an object here. A null `options` would make the assignment itself throw.
