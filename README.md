# A model of the slater CLI's watch/build/sync orchestrator

`createApp(config, shopifyconfig)` in `packages/cli/lib/createApp.js` returns the
object that drives a theme project's development loop: `copy` fills the output tree
(`config.out`) from the source tree (`config.in`), `build` runs the bundler and reports
its assets, and `watch` keeps the output tree and the remote theme store in step with
the source tree. This project models that routing and formatting logic in Dafny and
proves what it promises.

- `Paths` (paths.dfy): `formatFile`, the path translator. The empty path gives the
  empty record `{}` (`NoFile`). Any other path gives `{filename, src, dest}`. The
  library helpers `sanitize`, `match` and `path.join` are function-valued fields of a
  `Util` value and stay abstract. `Ignored` is the one ignore test (`match(path,
  ignore_files)`). `Translate` is `formatFile(file, config.in, config.out)`.
- `Decimal` (decimal.dfy): the decimal text JavaScript gives a whole number below
  10^21 when it is concatenated to a string, with its inverse.
- `BuildLog` (build_log.dfy): `logAssets`. `Fold` is the `reduce` callback exactly as
  written, index test included. `JoinLines(Entries(...))` is an independent reference
  definition. `SplitLines` and `ReadSizeText` are inverses that show the report can be
  read back.
- `Trees` (trees.dfy): the source and output trees as maps from path to bytes. The
  remote store as a log of `Sync(dest)` / `Unsync(dest)` calls and `Refresh` emissions.
  Here each handler's effect, and the tree a successful `copy` leaves behind
  (`Mirrored`), are pure functions.
- `Consistency` (consistency.dfy): lemmas that relate operations. After a copy, the
  source handlers keep the output tree equal to a fresh copy of the current source
  tree, for every file whose translated `dest` is where the copy puts it, that lies
  under no ignored directory, and whose `fs.copy` or `fs.remove` succeeds (a failed
  one is caught and logged, and the model takes it to leave the old entry in place). A run of output events makes one store call per event
  whose translated filename is not falsy, and one refresh per successful call, whatever
  earlier calls returned.
- `Orchestrator` (app.dfy): class `App`, the object createApp returns. Its fields are
  the output tree and the effect log. `Copy` empties the tree, then `CopyInto` loops
  over the source files, proved against `Mirrored`. The four watch helpers, the six
  handlers and a dispatcher for output events are proved against the `Trees` functions.
- `Scenario` (scenario.dfy): a small project (`in=/proj/src`, `out=/proj/build`,
  `ignore_files=['*.tmp']`) with stand-ins for `sanitize` and `match`. Two client
  methods drive the handlers. Lemmas check the build-report text and exhibit a file
  that copy skips but an add event writes.

File-system, store and bundler outcomes are parameters of the operations: what
`fs.copy` reads (`Option<Bytes>`), whether `fs.remove`, `fs.emptyDir`, a per-file copy
or a store call succeeds (`bool`s and a `Path -> bool`). The source tree that `copy`
reads is a parameter too. The fs-extra copy puts the file at `p` at `config.out` followed
by the part of `p` after `config.in` (`Trees.Mirror`).

fs-extra's `copy` calls the filter on `config.in`, on every directory it walks into
and on every file, and skips the whole subtree of a directory the filter rejects. The
model keeps that: a file reaches the copy exactly when it passes `Trees.CopyAdmits`, that is
when neither it nor `config.in` nor any directory between them is ignored
(`Trees.AncestorsAdmitted`). The source handlers, in contrast, test only the file's own
path (createApp.js:159, 163, 167). The two agree when no directory above the file is
ignored (`Consistency.SameIgnoreSemantics`). When one is, a fresh copy leaves the file
out but an add event writes it (`Consistency.IgnoredDirectoryDivergence`,
`Scenario.ExampleDirectoryDivergence`). Whether a real ignore list ever matches a
directory path depends on `match` from @slater/util, so this is recorded as a
difference and not as a defect.

The per-file condition `Consistency.TranslatesLikeCopy` says that formatFile's `dest`
for a path is the place the copy puts it. It is needed because `sanitize` and `path.join`
stay abstract.

Two behaviours of the code shape the model:

- `theme` is `{}` when there is no store configuration, and `{}` has no `sync` method
  (createApp.js:66). The code also reads `shopifyconfig.ignore_files` in `copy`'s filter
  (createApp.js:75) and when `watch` starts (createApp.js:155). So the model always has
  a theme configuration and a store.
- formatFile hands only the path to `sanitize` and never uses its `src` argument
  (createApp.js:52). So `sanitize` is abstract, and `FormatFileIgnoresSourceRoot` states
  that the argument has no effect.

## Model

| member | source | states |
|---|---|---|
| `Paths.FormatFile` | packages/cli/lib/createApp.js:49-58 | the result is the empty record exactly when the path is falsy; otherwise `src` is the path itself, `filename` is `sanitize(path)` and `dest` is `join(destRoot, filename)` |
| `Paths.FormatFileIgnoresSourceRoot` | packages/cli/lib/createApp.js:49-58 | formatFile's result does not depend on its source-root argument |
| `Paths.Translate` | packages/cli/lib/createApp.js:160 | every handler's `formatFile(file, config.in, config.out)` gives `{}` exactly for the empty path; otherwise `src` is the path and `dest` is `join(config.out, sanitize(path))` |
| `Paths.Ignored` | packages/cli/lib/createApp.js:75 | the one ignore test, `match(path, ignore_files)`, shared by copy's filter and the source handlers |
| `Paths.Key` | packages/cli/lib/createApp.js:127 | the key syncFile/unsyncFile test is a full record's `filename` and `''` for the empty record `{}`; so a non-falsy key exists only on a full record and is its `filename` |
| `Decimal.NatText` | packages/cli/lib/createApp.js:29-30 | a whole number's text is one or more digits with no leading zero, a single digit exactly below 10 |
| `Decimal.ParseNatText` | packages/cli/lib/createApp.js:29-30 | reading a number's text back gives the number |
| `Decimal.NatTextInjective` | packages/cli/lib/createApp.js:29-30 | different numbers have different texts |
| `BuildLog.GzipTruthy` | packages/cli/lib/createApp.js:30 | the gzip size counts as present exactly when it exists and is not 0 |
| `BuildLog.SizeText` | packages/cli/lib/createApp.js:30 | a size text is longer than the `kb` suffix and never ends in a newline |
| `BuildLog.Entry` | packages/cli/lib/createApp.js:31 | an entry is never empty and never ends in a newline |
| `BuildLog.Fold` | packages/cli/lib/createApp.js:29-32 | each reduce step only appends to its accumulator: the accumulator is a prefix of the result |
| `BuildLog.SizeTextShowsPreferredSize` | packages/cli/lib/createApp.js:30 | a size text reads back as the gzip size marked as gzipped when gzip is truthy, and as the raw size otherwise; a gzip size of 0 falls back to raw |
| `BuildLog.Entries` | packages/cli/lib/createApp.js:29-32 | there is one entry per asset, in input order, and entry i is asset i's |
| `BuildLog.FoldIsJoin` | packages/cli/lib/createApp.js:29-32 | the reduce fold from any index appends the remaining entries joined by newlines to its accumulator |
| `BuildLog.AssetList` | packages/cli/lib/createApp.js:29-32 | the entry list is the entries joined by newlines; it is empty exactly when there are no assets, and otherwise has no trailing newline |
| `BuildLog.JoinLinesEnd` | packages/cli/lib/createApp.js:31 | joining lines that do not end in a newline gives text that is empty only for no lines and never ends in a newline |
| `BuildLog.BuiltMessage` | packages/cli/lib/createApp.js:28-33 | the message is ` in `, the duration, `ms`, a newline, then the entries joined by newlines |
| `BuildLog.SplitJoin` | packages/cli/lib/createApp.js:31 | lines without newlines that are joined with newlines split back into the same lines |
| `BuildLog.AssetListLines` | packages/cli/lib/createApp.js:29-32 | when no filename holds a newline, the entry list splits back into exactly one entry per asset, in input order |
| `Trees.MirrorRoundTrips` | packages/cli/lib/createApp.js:73 | the copy's relocation and its inverse undo each other, so no two source files share an output place |
| `Trees.Mirror` | packages/cli/lib/createApp.js:73 | the copy places every source file under `config.out` |
| `Trees.IsCopyAncestor` | packages/cli/lib/createApp.js:73-76 | the paths fs-extra's copy hands to the filter on the way to a file: `config.in` itself and each directory prefix of the file below it |
| `Trees.AncestorsAdmitted` | packages/cli/lib/createApp.js:73-76 | the filter passes `config.in` and every directory between it and the file |
| `Trees.CopyAdmits` | packages/cli/lib/createApp.js:73-76 | the bulk copy writes p exactly when the filter passes `config.in`, every directory between it and p, and p |
| `Trees.Mirrored` | packages/cli/lib/createApp.js:69-78 | the post-copy tree holds a source file's mirrored place exactly when the filter admits `config.in`, every directory above the file and the file itself, there with the file's content |
| `Trees.MirroredFrom` | packages/cli/lib/createApp.js:69-78 | read from the output side, the post-copy tree holds a path exactly when it lies under `config.out` and comes from a source file the filter admits, with that file's content; so it holds nothing else |
| `Trees.CopiedFile` | packages/cli/lib/createApp.js:114-119 | a copy that reads content sets exactly `dest` to it; a failed copy, or one given `{}`, changes nothing |
| `Trees.RemovedFile` | packages/cli/lib/createApp.js:120-125 | a removal that succeeds takes exactly `dest` out; a failed one, or one given `{}`, changes nothing |
| `Trees.SourceWritten` | packages/cli/lib/createApp.js:157-165 | a source add/change on an ignored path leaves the output tree unchanged; otherwise it sets `out[dest]` to the source content; no other entry changes |
| `Trees.SourceRemoved` | packages/cli/lib/createApp.js:166-169 | a source unlink on an ignored path leaves the output tree unchanged; otherwise it removes `out[dest]`; no other entry changes |
| `Trees.StoreEffects` | packages/cli/lib/createApp.js:126-149 | a falsy filename causes nothing; otherwise exactly one call (`sync` or `unsync` of `dest`) comes first, then exactly one refresh if the call succeeded and none if it failed |
| `Trees.OutputEffects` | packages/cli/lib/createApp.js:176-178 | an output event on the empty path causes nothing; otherwise its first effect is `unsync(dest)` for unlink and `sync(dest)` for add/change; it makes one store call exactly when the translated filename is not falsy, and one refresh exactly when that call succeeds |
| `Trees.Replay` | packages/cli/lib/createApp.js:176-178 | a run of output events causes at most two effects per event |
| `Consistency.MirroredUpdate` | packages/cli/lib/createApp.js:69-78 | writing one source file changes the copy result only at that file's place, and not at all when the copy filter rejects the file or a directory above it |
| `Consistency.MirroredRemove` | packages/cli/lib/createApp.js:69-78 | deleting one source file removes only its place from the copy result, and nothing when the copy filter rejects the file or a directory above it |
| `Consistency.SourceWriteKeepsCopy` | packages/cli/lib/createApp.js:157-165 | for a file whose translated `dest` is its copy place and with no ignored directory above it, a source add/change after a copy whose `fs.copy` of the file succeeds leaves the copy of the updated source tree |
| `Consistency.SourceRemoveKeepsCopy` | packages/cli/lib/createApp.js:166-169 | for a file whose translated `dest` is its copy place and with no ignored directory above it, a source unlink after a copy whose `fs.remove` succeeds leaves the copy of the source tree without that file |
| `Consistency.SameIgnoreSemantics` | packages/cli/lib/createApp.js:75 | for a file whose translated `dest` is its copy place: copy places it exactly when the filter admits it and every directory above it; whatever copy places an add event writes too; and with no ignored directory above, add writes it exactly when copy places it |
| `Consistency.IgnoredDirectoryDivergence` | packages/cli/lib/createApp.js:73-76 | a file that is not ignored itself but lies under an ignored directory is left out by copy and still written by an add event |
| `Consistency.ReplayAppend` | packages/cli/lib/createApp.js:134-136 | the log of two runs of output events is the first run's log followed by the second's, so a failed call does not change what later events do |
| `Consistency.ReplayCounts` | packages/cli/lib/createApp.js:176-178 | over any run of output events there is one store call per event with a non-falsy filename and one refresh per successful call |
| `Orchestrator.App.constructor` | packages/cli/lib/createApp.js:61-68 | the app starts with the given configuration, the existing output tree and an empty log |
| `Orchestrator.App.Copy` | packages/cli/lib/createApp.js:69-90 | copy succeeds exactly when emptying and the copy of every file the filter admits (with all its directories) succeed, and then leaves exactly `Mirrored(source)`; an emptyDir failure rejects with its own error; a file failure rejects naming an admitted failing file and leaves only part of the copy, nothing stale |
| `Orchestrator.App.CopyInto` | packages/cli/lib/createApp.js:73-78 | into an empty output tree, the fs-extra copy succeeds exactly when no admitted file fails, then leaves exactly `Mirrored(source)`, and on failure names an admitted failing file and leaves part of `Mirrored(source)` |
| `Orchestrator.App.CopyNext` | packages/cli/lib/createApp.js:73-76 | one file of the fs-extra copy: it fails exactly when the filter admits the file and its copy fails, leaving the tree as it was; otherwise the copied part of the source grows by that file and the tree is its `Mirrored` copy |
| `Orchestrator.App.CopyFile` | packages/cli/lib/createApp.js:114-119 | the output tree becomes `CopiedFile` of the old one |
| `Orchestrator.App.DeleteFile` | packages/cli/lib/createApp.js:120-125 | the output tree becomes `RemovedFile` of the old one |
| `Orchestrator.App.SyncFile` | packages/cli/lib/createApp.js:126-137 | the log grows by the sync effects of the record |
| `Orchestrator.App.UnsyncFile` | packages/cli/lib/createApp.js:138-149 | the log grows by the unsync effects of the record |
| `Orchestrator.App.OnSourceAdd` | packages/cli/lib/createApp.js:157-161 | the output tree becomes `SourceWritten` of the old one; the log is untouched |
| `Orchestrator.App.OnSourceChange` | packages/cli/lib/createApp.js:162-165 | the output tree becomes `SourceWritten` of the old one; the log is untouched |
| `Orchestrator.App.OnSourceUnlink` | packages/cli/lib/createApp.js:166-169 | the output tree becomes `SourceRemoved` of the old one; the log is untouched |
| `Orchestrator.App.OnOutputAdd` | packages/cli/lib/createApp.js:176 | the log grows by the sync effects of the translated file; the output tree is untouched |
| `Orchestrator.App.OnOutputChange` | packages/cli/lib/createApp.js:177 | the log grows by the sync effects of the translated file; the output tree is untouched |
| `Orchestrator.App.OnOutputUnlink` | packages/cli/lib/createApp.js:178 | the log grows by the unsync effects of the translated file; the output tree is untouched |
| `Orchestrator.App.OnOutputEvent` | packages/cli/lib/createApp.js:176-178 | handling one output event of any kind appends exactly `Replay` of that event to the log |
| `Scenario.RawSizeReport` | packages/cli/lib/createApp.js:28-33 | 120 ms and one asset `app.js` of raw size 40 report ` in 120ms`, then `  > app.js 40kb` |
| `Scenario.GzipSizeReport` | packages/cli/lib/createApp.js:28-33 | with gzip size 12 the entry reads `  > app.js 12kb gzipped` |
| `Scenario.ZeroGzipSizeReport` | packages/cli/lib/createApp.js:30 | with gzip size 0 the entry falls back to `40kb` |
| `Scenario.AddSyncRemoveUnsync` | packages/cli/lib/createApp.js:157-178 | adding `a.liquid` copies it and its output add syncs it; adding the ignored `b.tmp` changes nothing; removing `a.liquid` deletes it and its output unlink unsyncs it, with no refresh since that call fails: the tree ends empty and the log is sync of `/proj/build/a.liquid`, refresh, unsync of it |
| `Scenario.TwoOutputEvents` | packages/cli/lib/createApp.js:176-178 | two output events in a row append the replay of both to the log |
| `Scenario.ExampleDirectoryDivergence` | packages/cli/lib/createApp.js:73-76 | with `ignore_files=['*.tmp']`, `/proj/src/x.tmp/a.liquid` is skipped by copy and written by an add event |

## Left out

- `build()` (createApp.js:92-107) and the bundler's watch loop (createApp.js:181-188): the bundler is a foreign library. Only the message `logAssets` builds from its stats is modelled. Whether `build` resolves or rejects simply follows the bundler.
- A failed `fs.copy` or `fs.remove` of one file in the watch task (createApp.js:115-118, 121-124) is assumed to leave the output tree unchanged (`Trees.CopiedFile`, `Trees.RemovedFile`). fs-extra is not part of this model, and a copy that overwrites may already have removed `dest` when it fails.
- The `exit()` call after a failed copy (createApp.js:82, 88): process termination is outside the model. `Copy` returns the failure.
- Orchestrator.App.Copy: when `emptyDir` fails, the contract says nothing about the output tree, since fs-extra may have emptied part of it. The model's body leaves the tree as it was.
- Orchestrator.App.Copy: the trees hold files only, so empty directories that fs-extra would create are not modelled. The filter's directory tests are modelled through the directory prefixes of each file's path.
- The placement of copied files (`Trees.Mirror`) assumes both roots are written without a trailing separator. `Trees.IsPrefix` and `Trees.UnderRoot` test a string prefix, not a directory prefix: a path such as `/proj/srcx/a` would count as lying under `/proj/src`. No file below `config.in` has such a path, so the model never meets one. `path.join` and its normalisation stay abstract (`Util.join`).
- The bodies of `sanitize` and `match` (@slater/util) are not part of this model. They are parameters, and `Consistency.TranslatesLikeCopy` names, per file, the agreement between `sanitize`/`path.join` and the copy that the consistency lemmas need.
- Logging: `log.info`/`log.error`, and the `gray` colouring of filenames in the build report. An entry holds the plain filename.
- The value the helpers' promises resolve with (`true` for a falsy filename, otherwise `undefined`). copyFile and deleteFile always settle normally.
- syncFile/unsyncFile when the store rejects with `undefined` or `null` (createApp.js:135, 147): `e.message` then throws inside the catch handler and the helper's promise rejects unhandled. Nothing handles that rejection. The effect log is the same as for any failed call (the call, no refresh), and the model records only that.
- chokidar itself: persistence, `ignoreInitial`, the watchers' `ignore` options (createApp.js:155, 172), and the delivery of events. Each handler is a method called once per event.
- The transport and authentication of `@slater/sync`, and the socket server. Store calls and `refresh` emissions are entries of the effect log, and the store's answer is a parameter.
- `onExit` teardown (createApp.js:190-193): closing the watchers and the server.
- Concurrency: in-flight promises of different files interleave in the source. The model runs one event to completion at a time.
- Asset sizes and durations are whole numbers; the bundler reports floating-point kilobytes.
- Decimal.NatText: gives the digits JavaScript writes only for numbers below 10^21 (from there JavaScript writes exponent form such as `1e+21`), and numbers above 2^53 are not exact JavaScript numbers at all. Sizes and durations are assumed to be far smaller.
- Running without a theme configuration; see above.
