# Sproutboat CLI: what its hard parts keep true

A Dafny model of the parts of the Sproutboat command line that are easy to get subtly wrong, and proofs of what they
promise. The project file for `dafny verify` is `dfyconfig.toml`.

| component | modules |
|---|---|
| `node:path` shim | `Splitting`, `PathSegments`, `PathNormalize`, `PathResolve`, `PathLaws`, `PathJoin`, `PathRelative`, `PathParts`, `PathPartLaws`, `PathWritten` |
| `node:querystring` shim | `PercentCoding`, `QueryString`, `PercentPieces` |
| compile cache | `CompileCache`, `CompileCacheExclusion`, `CompileCacheOneMiss`, `CompileCacheLiveness`, `CompileCacheAnswer`, `CompileCacheLeftovers` |
| SQLite source and object cache | `SqlitePublish`, `SqliteSource`, `SqliteLock`, `SqliteLiveness`, `SqliteAnswer` |
| dev reload coordinator | `DevReload`, `DevEdits` |
| live tail | `TailFrames`, `TailReconnect` |
| local package linking | `LocalPackages` |
| lint type resolvers | `TypeAliases`, `TypeNodes`, `AliasReachability` |
| pinned downloads | `FetchPinned` |
| native restore argument | `DecimalTxid` |
| shared helpers | `Options` |

**Paths.** The scanners of the shim are methods with the loops of the source, each proved equal to a function on lists of
segments: a path is a walk over a stack, `resolve` is a sequence of changes of directory. The laws are proved about those
functions, for all strings.

**Compile cache and SQLite cache.** Any number of calls run at once over shared directories. Every system call is a step of
its own, and between two steps anything may happen: another call's step, a crash, a clock tick, damage to a stored
file. A recursive delete and a file write happen piece by piece. A run is any sequence of such events, so a statement
about `Run` is about every interleaving. `produced`, `credited` and `owner` are history that no call can read. SHA-256 is
taken to be injective.

**Dev reload.** `class Coordinator` has the variables of `runDev` as fields and one method for each event that can reach it:
a file change, the debounce timer, and the three places where a rebuild task waits. Each method is proved to compute a
function on states, and the theorems are about all sequences of those events.

**The rest** are methods with the loops of the source. What the environment answers (attempts of a connection, replies of a
download source, file operations that throw, the operation before which a process is killed) is a parameter, and every
statement is about all its values.

## What turned out not to hold

Each is stated with the condition under which it does hold, or with a run that shows it fails.

- `format(parse(p))` is `p` exactly when `p` is `/`, or has no slash at its end and is not `//` followed by a single part
  (`PathPartLaws.FormatParse`); `//a` comes back as `/a` (`PathPartLaws.DoubleSlash`).
- `parse(p).ext` is `extname(p)` exactly when `p` is not `/..`, with or without slashes behind it
  (`PathPartLaws.ParseAgrees`); for `/..` it is `.` (`PathPartLaws.DotDotUnderRoot`).
- `basename(p, ext)` is the last part less a proper suffix `ext`, except, for an `ext` that is not empty and not longer than
  `p`: when `ext` is `p` and has a last part (the answer is then empty), and when the last part is a proper suffix of
  `ext` and slashes follow it (`PathPartLaws.BasenameSuffix`); `basename("a//", "xa")` is `a//`
  (`PathPartLaws.SuffixOfSuffix`).
- The comment at `src/compile-cache.ts:39-40` rests on the lock. `stat(lock)` and `rm(lock)` are two steps, so a call that
  looked at one lock may remove another: two calls can hold the lock although no lock was ever older than 15 minutes, no
  call crashed and nothing was damaged (`CompileCacheExclusion.YoungLocksAreNotEnough`). A run keeps calls apart if and
  only if no step of it removes, as stale, the lock of a call that is still at work
  (`CompileCacheExclusion.ExclusionExact`); it is enough that no call comes to judge a lock stale, the guard at line 71
  (`CompileCacheExclusion.Exclusion`). The bytes delivered do not depend on any of this (`CompileCache.ContentSafety`).
- The manifest of a SQLite object names the digest of the source file taken before the compile (`src/sqlite.ts:149`), and
  the compiler reads the file later (184). If the file is damaged in between, the cache check passes for an object that
  was never compiled from the source it names (`SqliteSource.DigestIsNotEnough`). The check can be trusted all along a
  run if and only if no compile reads another source than the digested one and gives bytes that source never gave
  (`SqliteSource.SoundExact`); and so whenever the source file still has its digest at each compile
  (`SqliteSource.CheckIsSound`).
- If resetting the file watchers throws after the route has switched, the previous process is never stopped, not even at
  shutdown: shutdown stops every candidate exactly when no switch threw (`DevReload.ShutdownStopsAll`,
  `DevReload.LeftRunning`).
- `--only wire,wire` is accepted. If the installed entry is a symlink, the second link moves the first link over the
  backup and the original is gone (`LocalPackages.NamedTwice`); if it is a directory the second rename throws and all is
  restored. The originals lost are exactly those that were moved aside twice (`LocalPackages.Workspace.Run`), so none in
  a run in which no symlinked package is named twice.
- A pinned download fails, though a source gave the pinned bytes, when the cache copy cannot be written: the write is
  inside the `try`, so it counts as a failed attempt (`FetchPinned.UnwritableCache`). It fails exactly when no source
  gives the bytes if and only if, where some source does, some copy can be kept (`FetchPinned.MatchReturned`); that is,
  if there is no cache, or it can be written, or no source gives the bytes (`FetchPinned.WritableDecides`).
- The first reconnect delay is not capped: the rule "double, up to 8 seconds" describes every wait exactly when `retryMs`
  is at most 8000 (`TailReconnect.CappedWait`, `TailReconnect.LongFirstWait`).
- `parse(stringify(m))` is `m` exactly when every list has at least two values and all pairs fit `maxKeys`
  (`QueryString.RoundTrip`, `QueryString.OneElementList`).

## Model

| member | source | states |
|---|---|---|
| `Splitting.JoinSplit` | src/node-shims.ts:283 | splitting at a separator loses nothing: joining the pieces gives the text back |
| `Splitting.SplitJoin` | src/node-shims.ts:283 | pieces that hold no separator survive joining and splitting |
| `PathSegments.WalkPlain` | src/node-shims.ts:36-74 | a normalized stack has no empty and no `.` segment, and no `..` unless going above the root is allowed |
| `PathSegments.TextPop` | src/node-shims.ts:50-54 | cutting the text at its last slash removes exactly the top segment |
| `PathNormalize.CloseSegment` | src/node-shims.ts:41-69 | what happens to `res` and `lastSegmentLength` at a slash is one step of the segment walk, the test on the last two characters included |
| `PathNormalize.NormalizeString` | src/node-shims.ts:36-74 | the single-pass scanner equals splitting at slashes and folding a stack, for every string and both settings of `allowAboveRoot` |
| `PathResolve.Resolve` | src/node-shims.ts:81-101 | `resolve` is the directory reached from the root by one change of directory per argument; the two relative outcomes cannot occur |
| `PathResolve.Normalize` | src/node-shims.ts:102-109 | `normalize` is the folded stack with the root and the trailing slash of the path put back |
| `PathResolve.JoinPaths` | src/node-shims.ts:113-124 | `join` normalizes its non-empty arguments with slashes between them |
| `PathResolve.CdAppend` | src/node-shims.ts:81-101 | resolving more arguments continues from where the first ones led |
| `PathLaws.NormalizeIdempotent` | src/node-shims.ts:102-109 | normalizing twice is normalizing once |
| `PathLaws.NormalizeKeepsMeaning` | src/node-shims.ts:102-109 | from any directory, a path and its normal form lead to the same directory |
| `PathLaws.ResolvedIsCanonical` | src/node-shims.ts:81-109 | a resolved path is absolute, is its own normal form, and resolves to itself from anywhere |
| `PathLaws.ResolveIsJoin` | src/node-shims.ts:81-124 | for an absolute and a relative part, `resolve` is `join` without its trailing slash, the root excepted |
| `PathJoin.NormalizedForm` | src/node-shims.ts:102-109 | a normalized path is a reduced stack written out, with the root and the trailing slash of the path it was made from |
| `PathJoin.NormalizedSlash` | src/node-shims.ts:102-109 | normalizing keeps the trailing slash and the root, and only `/` gains one |
| `PathJoin.JoinLeads` | src/node-shims.ts:113-124 | `join` answers a normal path; from any directory it leads to where its arguments lead, followed one after the other, from the root only if the first that is not empty is absolute; its trailing slash is that of the last that is not empty |
| `PathRelative.SkipSlashes` | src/node-shims.ts:128-131 | the start index stays behind the root slash unless another slash follows it |
| `PathRelative.UpText` | src/node-shims.ts:148-152 | the second loop writes one `..` per segment left, and at least one, so the branch for an empty `out` is unreachable |
| `PathRelative.Scan` | src/node-shims.ts:128-158 | the two character loops compute the relative path of the segment lists |
| `PathRelative.Relative` | src/node-shims.ts:125-158 | `relative` is one `..` per segment of the resolved `from` past the longest common segment prefix, then the other segments of the resolved `to` |
| `PathRelative.ResolveRelative` | src/node-shims.ts:125-158 | following the relative path from `from` arrives exactly where `to` resolves, for all strings |
| `PathParts.Dirname` | src/node-shims.ts:159-169 | `dirname` is what precedes the last part, with its three special answers |
| `PathParts.Basename` | src/node-shims.ts:191-198 | `basename` is the last run of characters other than slashes |
| `PathParts.BasenameWithout` | src/node-shims.ts:170-199 | the backward comparison with `ext` and its index bookkeeping, as one statement about the last part |
| `PathParts.ScanPart` | src/node-shims.ts:202-212 | the loop shared by `extname` and `parse` finds the last part and counts the dots in it |
| `PathParts.Extname` | src/node-shims.ts:200-215 | `extname` starts at the last dot of the last part unless that dot is its first character or the part is `..` |
| `PathParts.Parse` | src/node-shims.ts:221-250 | `parse` cuts out root, directory, base, name and extension |
| `PathPartLaws.DirnameBasename` | src/node-shims.ts:159-199 | `resolve(dirname(p), basename(p))` is `resolve(p)`, for every `p` |
| `PathPartLaws.ParseAgrees` | src/node-shims.ts:191-250 | `parse(p).base` is `basename(p)` and is `name + ext`; `parse(p).ext` is `extname(p)` if and only if `p` is not `/..`, with or without slashes behind it |
| `PathPartLaws.DotDotUnderRoot` | src/node-shims.ts:213-248 | `parse("/..").ext` is `.` and `extname("/..")` is empty |
| `PathPartLaws.FormatParse` | src/node-shims.ts:75-80 | `format(parse(p)) == p` if and only if `p` is rebuildable, a test on its slashes |
| `PathPartLaws.DoubleSlash` | src/node-shims.ts:75-80 | `format(parse("//a"))` is `/a` |
| `PathPartLaws.BasenameSuffix` | src/node-shims.ts:170-199 | `basename(p, ext)` is the last part less a proper suffix if and only if two stated quirks are absent |
| `PathPartLaws.SuffixOfSuffix` | src/node-shims.ts:170-190 | `basename("a//", "xa")` is `a//`, where the last part is `a` |
| `PathWritten.DirWritten` | src/node-shims.ts:159-169 | for a path written as head, part and slashes, `dirname` is the head without its last slash, but for `.`, `/` and `//` |
| `PathWritten.OnlySlashes` | src/node-shims.ts:159-250 | a path of slashes alone has no part; `dirname` is `/`, and `parse` has nothing but the root |
| `PathWritten.PartsOf` | src/node-shims.ts:159-250 | every path is written so, or of slashes alone |
| `PathWritten.ExtWritten` | src/node-shims.ts:213-214 | the extension is the last dot and what follows it, if anything stands before it and the whole is not `..`; else there is none |
| `PathWritten.ParseWritten` | src/node-shims.ts:221-250 | the five fields of a path written so |
| `PathWritten.FormatWritten` | src/node-shims.ts:75-80 | `format` puts the base, or else name and extension, behind the directory, or else the root, with a slash between unless the directory is the root or there is none |
| `PathWritten.QuirkWritten` | src/node-shims.ts:170-190 | what `basename(p, ext)` answers in the two quirks |
| `PercentCoding.FromUtf8OfUtf8` | src/node-shims.ts:273-275 | the octets of a code point decode to it (section 19.2.6 of ECMA-262) |
| `PercentCoding.Utf8OfFromUtf8` | src/node-shims.ts:269-272 | the decoder accepts only what the encoder produces: no overlong form, no surrogate |
| `PercentCoding.EncodeFails` | src/node-shims.ts:273-275 | encoding throws if and only if a surrogate stands alone |
| `PercentCoding.EncodeEscaped` | src/node-shims.ts:273-275 | encoded text holds only unreserved characters and escapes |
| `PercentCoding.DecodeEncode` | src/node-shims.ts:269-275 | decoding undoes encoding on all well-formed text |
| `QueryString.UnescapeEscape` | src/node-shims.ts:269-275 | `unescape(escape(s)) == s`, and escaped text holds no `&`, `=` or `+` |
| `QueryString.ParsePair` | src/node-shims.ts:286-292 | a key that holds no `=` and its value come back decoded, whatever the value holds; a pair without `=` has an empty value |
| `QueryString.Parse` | src/node-shims.ts:276-299 | the loop adds the decoded pairs, in order, up to the limit |
| `QueryString.AddPairsGroups` | src/node-shims.ts:293-296 | the object holds exactly the keys of the pairs, each with all its values in order, a single one bare |
| `QueryString.Stringify` | src/node-shims.ts:300-317 | the nested loops print every value of every key, in the order the keys are enumerated |
| `QueryString.PrintedFails` | src/node-shims.ts:300-317 | printing throws if and only if some key or value is not well-formed Unicode |
| `QueryString.ParsePrinted` | src/node-shims.ts:276-317 | parsing printed text gives the printed pairs back, up to the limit |
| `QueryString.RoundTrip` | src/node-shims.ts:276-317 | `parse(stringify(m)) == m` if and only if every list has at least two values and all pairs fit the limit |
| `QueryString.OneElementList` | src/node-shims.ts:293-313 | a list of one value does not come back as a list |
| `PercentPieces.WrittenDecodes` | src/node-shims.ts:269-272 | text written of units other than `%` and of code points spelled by escapes, in small or capital digits, decodes to what it means |
| `PercentPieces.DecodedIsWritten` | src/node-shims.ts:269-272 | and no other text decodes |
| `PercentPieces.UnescapeReads` | src/node-shims.ts:269-272 | `unescape` reads a plus as a space and decodes such text, and leaves any other text as it is |
| `PercentPieces.EncodeOne` | src/node-shims.ts:273-275 | a letter, a digit or one of `-_.!~*'()` is left alone, any other code point is spelled by escapes with capital digits |
| `PercentPieces.EncodeAppend` | src/node-shims.ts:273-275 | text is encoded one code point after the other |
| `PercentPieces.ParseWritten` | src/node-shims.ts:276-299 | of any parts without `&`, empty ones too, each key gets all its values in order: those of the first `maxKeys` parts, or of all if it is not positive |
| `CompileCache.StepSafe` | src/compile-cache.ts:11-97 | whatever one step of one call is, and whatever its system call answers, what the call holds was produced by a compile for its own key, and so is all that the entry it leaves behind vouches for, halfway through a delete too |
| `CompileCache.RunSafe` | src/compile-cache.ts:41-98 | the invariant holds through every interleaving with crashes, stolen locks, half-done deletes and damaged binaries |
| `CompileCache.ContentSafety` | src/compile-cache.ts:39-98 | every call that answers hit or miss has delivered bytes that some compile for its own key produced, and what stands at an output path is, whole, what a call delivered there |
| `CompileCacheExclusion.StepOwns` | src/compile-cache.ts:53-97 | a step leaves every working call its lock if and only if it does not remove, as stale, the lock of a working call |
| `CompileCacheExclusion.HarmBreaks` | src/compile-cache.ts:56-74 | after such a removal the call that made it has only to try again: two calls are in |
| `CompileCacheExclusion.ExclusionExact` | src/compile-cache.ts:53-97 | wherever a run stands nothing lets a second call in, and every working call keeps its lock, if and only if no step of the run makes such a removal |
| `CompileCacheExclusion.Exclusion` | src/compile-cache.ts:53-97 | as long as no call judges a lock stale, whatever crashes, is damaged or cannot be read: at most one call per key is between taking and releasing the lock, and the rename meets no existing entry |
| `CompileCacheExclusion.YoungLocksAreNotEnough` | src/compile-cache.ts:70-71 | a run without crash, damage or any old lock in which two calls hold the lock at once |
| `CompileCacheOneMiss.ExactlyOneMiss` | src/compile-cache.ts:41-98 | if all calls for an absent key succeed, its entry is not damaged, and its calls can read it and judge no lock stale, exactly one of them compiled and says miss, and all others say hit, whatever happens to other keys |
| `CompileCacheOneMiss.StepCalm` | src/compile-cache.ts:53-97 | where entries can be read and stay as written, a step keeps every entry usable, and what a call holds in step with it |
| `CompileCacheLiveness.RankDrops` | src/compile-cache.ts:41-98 | every step of a call that is still at work, the waiting loop with its deadline and its steal included, brings it nearer to its answer |
| `CompileCacheLiveness.EveryCallAnswers` | src/compile-cache.ts:41-98 | from every reachable state, wherever a call that has not crashed stands, it comes to its answer within a fixed number of turns once it is let run alone and its system calls succeed |
| `CompileCacheLiveness.InsideSucceeds` | src/compile-cache.ts:76-97 | if no working call was robbed of its lock, a call inside the lock that is not already failing, let run alone, says hit or miss |
| `CompileCacheAnswer.CallAlone` | src/compile-cache.ts:41-98 | from any state, damaged entries included, a call let run alone: with a usable entry it says hit, lock or no lock; else, without a lock or once it is older than 15 minutes, it says miss, stores what the compiler wrote and leaves no lock; else it fails after 12 minutes and changes nothing; nobody else moves |
| `CompileCacheAnswer.WaiterHits` | src/compile-cache.ts:56-73 | a call that waits for the lock says hit once the entry is usable, whoever holds the lock and however late it is |
| `CompileCacheAnswer.GivesUpLate` | src/compile-cache.ts:55-72 | in every run, a waiting call gives up only after more than 12 minutes, or when its own system call on the lock fails |
| `CompileCacheAnswer.InsideLeavesNoLock` | src/compile-cache.ts:75-97 | a call inside the lock, failing or not, let run alone, leaves no lock; one that was failing has failed |
| `CompileCacheAnswer.AfterFailedCompile` | src/compile-cache.ts:85-97 | after a failed compile the call fails and leaves no lock, and the next call for the key says hit or miss |
| `CompileCacheAnswer.ThenHit` | src/compile-cache.ts:41-98 | when the turns of a call that did not fail are followed by those of another for the same key, the second says hit and delivers the same bytes |
| `CompileCacheLeftovers.OrderlyExact` | src/compile-cache.ts:75-97 | a step keeps every lock with a call that is inside or was killed there, and staging directories with calls that use them, if and only if it is not a removal, by a call, of its own staging directory or lock that fails |
| `CompileCacheLeftovers.RunOrderly` | src/compile-cache.ts:75-97 | so it is all along a run, if and only if no such removal fails |
| `CompileCacheLeftovers.NothingLeft` | src/compile-cache.ts:75-97 | in every run without such a failure, a call that has ended has left no lock, no staging directory and no temporary file |
| `SqlitePublish.StepSafe` | src/sqlite.ts:38-76 | no step of a builder makes a manifest vouch for bytes that were not given to a build asked for with its recipe |
| `SqlitePublish.RunSafe` | src/sqlite.ts:38-61 | the invariant holds through every interleaving of builders, stolen locks, crashes and damaged payloads |
| `SqlitePublish.CheckIsCredited` | src/sqlite.ts:157-199 | in every run the cache check is true only of bytes that a build asked for with exactly that source digest, target, command and flags was given, and so for the source and its archive; a call that returns has seen such bytes |
| `SqlitePublish.BuildLeavesValid` | src/sqlite.ts:180-199 | a call that built and was not interfered with since its first rename leaves a valid cache |
| `SqliteSource.TruthExact` | src/sqlite.ts:145-195 | a step keeps true what the cache credits to recipes if and only if it is not a compile that reads another source file than its caller digested and gives bytes that source never gave |
| `SqliteSource.CheckIsSound` | src/sqlite.ts:157-199 | as long as the source file still has the digested content at each compile: the cache check is true only of bytes that a successful compile of exactly that source, target, command and flags produced, and a call returns only such bytes |
| `SqliteSource.Misleads` | src/sqlite.ts:184-195 | after a compile of another source the call has only to go on, and the check passes for bytes never made from its recipe |
| `SqliteSource.SoundExact` | src/sqlite.ts:145-199 | the check can be trusted all along a run, whoever goes on from there, if and only if no compile in it is miscredited |
| `SqliteSource.DigestIsNotEnough` | src/sqlite.ts:149-194 | a run from an empty cache in which the source is damaged after its digest was taken, and the check passes for the wrong object |
| `SqliteSource.UnpacksPinned` | src/sqlite.ts:113-123 | a call unpacks no archive but one whose digest is the pinned one, so what it unpacks is made from what its recipe names |
| `SqliteSource.CheckIsSoundButForSource` | src/sqlite.ts:63-199 | in every run what the check passes was made by the target, command and flags named, from some source; a source it passes was unpacked from an archive with the pinned digest |
| `SqliteSource.CheckOnward` | src/sqlite.ts:157-178 | the two reads of the cache check accept exactly a valid pair of files |
| `SqliteAnswer.UndisturbedCall` | src/sqlite.ts:38-200 | a call that alone moves and whose steps go well, while any time goes by, builds exactly when the cache check is not already true, and returns what makes it true; if there is no lock, or one older than 5 minutes, within 20 steps besides naps, and no lock is left, the old one neither; it fails only if it found a lock and more than 30 seconds went by, and then nothing has changed |
| `SqliteAnswer.EndedValid` | src/sqlite.ts:157-195 | what such a call leaves when it returns makes the cache check true |
| `SqliteLock.Exclusion` | src/sqlite.ts:38-61 | as long as no call judges a lock older than 5 minutes, one call at a time is between taking and releasing the lock of a slot |
| `SqliteLock.StepLocks` | src/sqlite.ts:38-61 | a step takes a lock only when there is none, dating it now, and gives it up only by its release, which comes after the stage is removed |
| `SqliteLock.NoLockLeft` | src/sqlite.ts:56-60 | as long as no release fails, where there is a lock a call is inside or was killed; when all calls have ended there is none |
| `SqliteLiveness.RankDrops` | src/sqlite.ts:38-200 | every step of a call that is awake and at work, whatever its system call answers, brings it nearer to its end |
| `SqliteLiveness.EveryCallEnds` | src/sqlite.ts:38-200 | in every run, whatever the other calls do and the system calls answer, a call returns, fails or crashes within a fixed number of steps besides its naps, and no nap is longer than 25 ms |
| `SqliteLiveness.GivesUpLate` | src/sqlite.ts:41-55 | in every run, a waiting call gives up only after more than 30 seconds |
| `DevReload.ApplyKeeps` | src/dev.ts:318-417 | every handler, at whichever wait it finds a rebuild, keeps the invariant: one rebuild at most, an edit pending means a timer or a rebuild, every candidate accounted for, a reused binary compiled from the source and config it serves |
| `DevReload.RunKeeps` | src/dev.ts:318-420 | so does every sequence of events, a change, timer, answer or signal in any order |
| `DevEdits.NoLostEdit` | src/dev.ts:353-420 | the edits counted are the changes of the session; as long as no rebuild has begun after the last of them, the timer is armed or a rebuild is in flight |
| `DevEdits.AtRestServesLatest` | src/dev.ts:353-420 | at rest, a rebuild began after the last change of the session, and if it succeeded, what it read is the project of the running candidate, which the route names |
| `DevReload.OneRebuild` | src/dev.ts:361-363 | there are never two rebuilds in flight |
| `DevReload.AssetOnlyReuses` | src/dev.ts:364-368 | the compiled binary is reused exactly when neither source nor config has changed |
| `DevReload.Settles` | src/dev.ts:353-417 | from every state before shutdown, in the middle of a rebuild or with edits waiting: if what happens goes well, in whatever order, and no edit or signal comes, the session is at rest after at most ten steps and serves the newest edit |
| `DevReload.EditServed` | src/dev.ts:353-417 | from any state at rest, an edit and the rebuild it starts, if nothing disturbs it, end with that project served, the candidate before it stopped and nothing left to do |
| `DevReload.Ownership` | src/dev.ts:212-221 | every candidate is exactly one of running, pending, stopped or lost, is killed and its broker closed at most once, only the running one may dispatch, and the route names its port; that one has reported ready and, until shutdown, is not stopped |
| `DevReload.RunLost` | src/dev.ts:398-402 | a run loses a candidate exactly when resetting the watchers threw in one of its switches |
| `DevReload.ShutdownStopsAll` | src/dev.ts:318-403 | after shutdown and the end of the task in flight all candidates are stopped, if and only if no switch threw |
| `DevReload.LeftRunning` | src/dev.ts:398-403 | a session with a switch whose watchers throw and then a signal: the first candidate is never stopped |
| `DevReload.StoppedOnce` | src/dev.ts:212-221 | stopping again does nothing, and a candidate is killed and its broker closed exactly once |
| `DevReload.Coordinator.StopCandidate` | src/dev.ts:212-221 | the candidate ends up stopped, killed and closed exactly once however often it is called, and without the right to dispatch; no other candidate is touched |
| `DevReload.Coordinator.OnFileChange` | src/dev.ts:353-357 | the handler computes the change event and keeps the invariant |
| `DevReload.Coordinator.OnTimer` | src/dev.ts:357-364 | the timer callback up to its first wait; during a rebuild or a shutdown it starts nothing |
| `DevReload.Coordinator.OnRead` | src/dev.ts:364-370 | the rebuild task from the read of the project to the start of a candidate |
| `DevReload.Coordinator.OnStarted` | src/dev.ts:367-378 | the task from a started candidate to the wait for its readiness; a candidate that arrives during shutdown is stopped at once |
| `DevReload.Coordinator.OnReady` | src/dev.ts:377-416 | the switch of route and dispatch, and the two ways of not switching: not ready, or ready after shutdown |
| `DevReload.Coordinator.OnSignal` | src/dev.ts:318-327 | shutdown stops the pending and the running candidate, once |
| `TypeAliases.UnwrapTransparentType` | tools/oxlint/anti-slop/shared/dictionary-types.ts:117-126 | the loop takes off all parentheses and `readonly` |
| `TypeAliases.ClassifiedIsLeast` | tools/oxlint/anti-slop/shared/dictionary-types.ts:190-244 | on every finite alias map, cyclic ones included, the search terminates and answers non-null exactly on the types derivable from the rules, and `any` exactly on those derivably any |
| `TypeAliases.DerivableIsLeast` | tools/oxlint/anti-slop/shared/dictionary-types.ts:190-244 | derivability is contained in every pair of predicates closed under the rules |
| `TypeAliases.DerivableIsFixed` | tools/oxlint/anti-slop/shared/dictionary-types.ts:190-244 | derivability satisfies the rules in both directions, so it is their least fixed point |
| `TypeAliases.UnsafeFound` | tools/oxlint/anti-slop/shared/dictionary-types.ts:238-243 | cutting a revisited alias to null loses nothing: a shortest derivation never revisits one |
| `TypeAliases.UnsafeSound` | tools/oxlint/anti-slop/shared/dictionary-types.ts:190-244 | whatever the search reports, inside any set of aliases being resolved, has a derivation |
| `TypeNodes.EmptyMember` | tools/oxlint/anti-slop/shared/dictionary-types.ts:128-140 | a member is empty exactly when it is an optional property annotated `never`, with any parentheses and `readonly` around it |
| `TypeNodes.LiteralClassified` | tools/oxlint/anti-slop/shared/dictionary-types.ts:142-201 | a type literal is reported exactly when all its members are such |
| `TypeNodes.MemberCounts` | tools/oxlint/anti-slop/shared/dictionary-types.ts:132-144 | one member that is required, has no annotation, or is annotated with anything but `never` is enough for no report |
| `TypeNodes.InterfaceClassified` | tools/oxlint/anti-slop/shared/dictionary-types.ts:146-235 | an interface is reported exactly when it is declared once, extends nothing and has only such members |
| `TypeNodes.WrapperClassified` | tools/oxlint/anti-slop/shared/dictionary-types.ts:221-226 | `Readonly`, `Partial`, `Required` and `NonNullable`, unless shadowed, are as their first argument |
| `TypeNodes.AliasClassified` | tools/oxlint/anti-slop/shared/dictionary-types.ts:237-243 | any other name is as its alias's body, or nothing |
| `TypeNodes.UnionClassified` | tools/oxlint/anti-slop/shared/dictionary-types.ts:202-208 | a union is reported when one of its members is |
| `TypeNodes.IntersectionClassified` | tools/oxlint/anti-slop/shared/dictionary-types.ts:209-217 | an intersection is `any` when a member is, and else is as its first member when all are reported |
| `TypeNodes.KeywordClassified` | tools/oxlint/anti-slop/shared/dictionary-types.ts:197-199 | the labels of `unknown`, `any` and `object` |
| `AliasReachability.CollectAliases` | tools/oxlint/anti-slop/rules/no-unknown-returns.ts:92-101 | the first rule's map keeps the last declaration of each name |
| `AliasReachability.CollectPlainAliases` | tools/oxlint/anti-slop/rules/no-object-parameters.ts:101-113 | the second rule's map keeps the last non-generic declaration of each name |
| `AliasReachability.AliasMaps` | tools/oxlint/anti-slop/rules/no-unknown-returns.ts:56-66 | which body each rule follows for a name: a generic redeclaration hides an alias from the first rule and not from the second |
| `AliasReachability.ResolvesIsReachable` | tools/oxlint/anti-slop/rules/no-unknown-returns.ts:42-76 | the search terminates on every alias map and is true exactly when a path leads to the target |
| `AliasReachability.Finds` | tools/oxlint/anti-slop/rules/no-unknown-returns.ts:61-75 | refusing visited aliases loses nothing |
| `AliasReachability.UnknownAndObject` | tools/oxlint/anti-slop/rules/no-object-parameters.ts:52-81 | both rules: reachability through parentheses, unions, unshadowed non-generic aliases and, for `unknown`, the first argument of `Promise` and `PromiseLike` |
| `AliasReachability.UnknownByNode` | tools/oxlint/anti-slop/rules/no-unknown-returns.ts:42-76 | what the first rule says of a type, by its outermost node: `unknown`, parentheses, unions, `Promise` and `PromiseLike`, and bare aliases whose last declaration is not generic |
| `AliasReachability.ObjectByNode` | tools/oxlint/anti-slop/rules/no-object-parameters.ts:52-81 | the same of the second rule: `object`, parentheses, unions, and bare aliases by their last non-generic declaration |
| `TailFrames.ReadFrames` | src/tail.ts:125-148 | the frames are those of the whole text, however it was cut into chunks |
| `TailFrames.ReadOn` | src/tail.ts:128-135 | reading on from what was left over is reading the whole text |
| `TailFrames.BlocksWritten` | src/tail.ts:133-135 | a text is its blocks and its rest, and none of them holds a blank line: so what one read leaves in the buffer holds none when the next one starts |
| `TailFrames.WrittenBlocks` | src/tail.ts:133-135 | there is only one way to read a text so; an unterminated block yields nothing |
| `TailFrames.Delivered` | src/tail.ts:125-148 | whatever messages a sender writes, with comments and other fields among their lines, their data arrive whole and in order, and an unfinished one does not arrive |
| `TailFrames.AnyData` | src/tail.ts:136-140 | every text can be sent as data, line by line |
| `TailFrames.AllArrive` | src/tail.ts:125-148 | if the data of every message make a frame, there is one frame for each message, in order |
| `TailFrames.PassedOver` | src/tail.ts:141-143 | messages without data or whose data make no frame are passed over, and nothing else is |
| `TailReconnect.Follow` | src/tail.ts:356-374 | every frame clears the failures and the delay; a body without a frame is a failure |
| `TailReconnect.Try` | src/tail.ts:339-374 | which answers are final, which are failures, and what was printed before |
| `TailReconnect.AnswersDecide` | src/tail.ts:348-374 | the statuses that are final: 400 to 499 but 408 and 429; everything else without a whole body of frames is a failure |
| `TailReconnect.RunTail` | src/tail.ts:327-391 | how a run ends, after how many attempts, what it printed, with every dropped notice and one line per retry, and how long it waited, for every sequence of attempts |
| `TailReconnect.OneOutcome` | src/tail.ts:336-391 | the attempts leave no choice of how and when a run ends |
| `TailReconnect.ThrowsExactly` | src/tail.ts:375-382 | not aborted and not finally refused, a run gives up exactly when `maxFailures` attempts (at least one) failed since the last frame, and at the first such point |
| `TailReconnect.StreakIsLongest` | src/tail.ts:362-378 | the number of failures since the last frame is the length of the longest row of failures at the end |
| `TailReconnect.WaitDoubles` | src/tail.ts:384-385 | doubling under the cap is the closed form of the k-th wait |
| `TailReconnect.CappedWait` | src/tail.ts:384-385 | every wait is `min(retryMs * 2^k, 8000)` if and only if `retryMs` is at most 8000 |
| `TailReconnect.LongFirstWait` | src/tail.ts:384-385 | with `retryMs` 9000 the first wait is 9000 and the next 8000 |
| `TailReconnect.JsonLines` | src/tail.ts:367-369 | in JSON form the lines of output are exactly the events, in order of arrival |
| `LocalPackages.Workspace.Restore` | scripts/with-local-packages.ts:104-117 | one package is put back, or a kill leaves its original at one of its two paths |
| `LocalPackages.Workspace.Repair` | scripts/with-local-packages.ts:119-125 | whatever an interrupted run left, every original is home again with no backup left |
| `LocalPackages.Workspace.LinkAll` | scripts/with-local-packages.ts:176-183 | the link loop, up to the operation that throws or the kill |
| `LocalPackages.Workspace.RestoreAll` | scripts/with-local-packages.ts:140-158 | everything linked is restored, once |
| `LocalPackages.Workspace.LinkAndRestore` | scripts/with-local-packages.ts:140-193 | the same of the link loop, the command and the restore, whether the loop threw or not |
| `LocalPackages.Workspace.Run` | scripts/with-local-packages.ts:119-193 | at every end, a kill included, an original is at one of its two paths exactly if it was moved aside at most once; unless killed, it is home in that case, and a link of ours is left in its place otherwise; with no symlinked package named twice none is lost |
| `LocalPackages.RunAll` | scripts/with-local-packages.ts:104-193 | over any sequence of runs, each killed anywhere and none naming a symlinked package twice, no original is lost |
| `LocalPackages.KeptOnce` | scripts/with-local-packages.ts:104-117 | kept means at exactly one of two paths, and from there a restore brings it home |
| `LocalPackages.NamedTwice` | scripts/with-local-packages.ts:42-54 | a run with a package named twice that loses its original |
| `LocalPackages.AllPresent` | scripts/with-local-packages.ts:127-134 | without `--only`, the packages the checkout has, each once |
| `FetchPinned.Ask` | src/fetch-pinned.ts:59-77 | the attempts at one source follow the schedule |
| `FetchPinned.Fetch` | src/fetch-pinned.ts:38-80 | returned bytes hash to the pin; the calls are the scheduled ones in order, at most sources times attempts; it fails exactly when no scheduled call succeeds |
| `FetchPinned.SuccessMatches` | src/fetch-pinned.ts:63-73 | a call succeeds if and only if the bytes match and the cache copy, where one is kept, can be written |
| `FetchPinned.ScheduledExactly` | src/fetch-pinned.ts:58-77 | a source is asked again, up to `attempts` times, exactly as long as it gave no answer, a 5xx, a body that broke off, or the bytes and no copy could be kept |
| `FetchPinned.DownOrRefusing` | src/fetch-pinned.ts:30-77 | a source that is down is asked `attempts` times, one that answers another status or other bytes once |
| `FetchPinned.BackoffDoubles` | src/fetch-pinned.ts:60 | the wait before each attempt |
| `FetchPinned.DiskFirst` | src/fetch-pinned.ts:43-54 | a copy on disk is returned exactly when it has the pinned bytes, the local one first; sources are asked exactly when neither has them and nothing on disk fails |
| `FetchPinned.MatchReturned` | src/fetch-pinned.ts:63-77 | no scheduled call succeeds exactly when no scheduled match can be kept; "it fails exactly when no source gives the bytes" holds if and only if a match implies a match that is kept |
| `FetchPinned.WritableDecides` | src/fetch-pinned.ts:67-77 | with a cache that either can be written or cannot, it holds if and only if there is no cache, or it can be written, or no source gives the bytes |
| `FetchPinned.UnwritableCache` | src/fetch-pinned.ts:67-77 | a fetch from one source with one attempt is given the pinned bytes, cannot write its copy, and fails |
| `DecimalTxid.Overflows` | src/native-restore.ts:32 | the guard is true exactly when the next digit does not fit in 64 bits |
| `DecimalTxid.ParseTxid` | src/native-restore.ts:28-36 | no step wraps; an argument is accepted exactly when it is all digits with a value from 1 to 2^64-1, and the word is that value |
| `DecimalTxid.LeadingZero` | src/native-restore.ts:30-34 | leading zeros change nothing |
| `DecimalTxid.EveryWord` | src/native-restore.ts:30-34 | every number is written by some argument |

## Left out

- `PathNormalize.NormalizeString`: path strings are sequences of Dafny's `char`, which leaves out the surrogates without a partner that a JavaScript string may hold; the path functions look only at `/` and `.`. The query-string modules do model them, as UTF-16 code units.
- Arguments that are not strings, `assertPath`, and `format` with fields that are not strings: the model is typed.
- Custom separators, custom coders and a `maxKeys` that is not an integer in `querystring`; the order in which JavaScript enumerates the keys of an object is a parameter of `QueryString.Stringify`.
- The legacy URL shim and the other shims of `src/node-shims.ts`: constant answers and wrappers.
- Real files, processes, sockets and timers, SHA-256, JSON texts and UTF-8 stream decoding: bytes, answers and times are parameters, and a digest is worth the bytes it was taken of.
- `CompileCache.StepSafe`: the compile cache and the SQLite cache are step systems on values, not objects updated in place, because what matters is every interleaving of their system calls.
- `CompileCache.ContentSafety`: a damaged `cache.json` is not modelled, only a damaged binary; the record is private data that nobody else writes.
- `CompileCache.StepPublishSafe`: the random name of the temporary file is taken to be unique, and what a crash leaves beside the output path is not followed.
- `SqliteSource.CheckIsSound`: a compile reads the source file at one instant, not piece by piece while it changes.
- `SqliteSource.UnpacksPinned`: files in a staging directory are private to their call and stay as written, the archive between its write and its unpacking included.
- `SqliteSource.DigestIsNotEnough`: a call for an object starts at its digest of the source (`src/sqlite.ts:149`); that it waits for the source first is left to the schedule.
- `DevEdits.AtRestServesLatest`: that a read of the project sees at least the edits made before it began is how an event is enabled, not something proved of the file system.
- The start of a dev session and its readiness probe, a session without watching, and a candidate process that dies on its own; the session begins once the first candidate serves.
- A claim that shutdown waits for the build in flight: a timer that fires during a rebuild replaces the promise that is waited for (`src/dev.ts:358`), so ownership is stated for the moment the task has ended.
- `TypeAliases.ClassifiedIsLeast`: for non-generic aliases. Generic ones substitute, and a parameter replaced by a compound type that names it again makes the search run for ever (`tools/oxlint/anti-slop/shared/dictionary-types.ts:227-232`). Which label a finding carries, other than `any` or not, is not stated.
- `createTypeEnvironment`, `dictionaryValueTypes` and the widening targets of the same file.
- How `no-unknown-returns` and `no-object-parameters` collect the type parameter names in scope: the set of shadowed names is a parameter.
- `toFrame`, which decides whether a text of data is a frame, is a parameter of `TailFrames.ReadFrames`; the printed form of an event is a parameter of `TailReconnect.RunTail`.
- `TailReconnect.RunTail`: the idle timer is one of the reasons why an attempt may fail, not modelled as a clock; in pretty form the notices are stated as a multiset, not their order.
- `LocalPackages.Workspace.Run`: restore operations do not throw, as the script itself takes for granted, and runs do not overlap.
- `FetchPinned.Fetch`: the hexadecimal spelling of a digest, and what a failed write leaves beside the cache path.
- The same lock loop in `src/toolchain.ts`, `src/bearssl.ts` and `src/build.ts`.
- Command plumbing, reports, type generation, deployment, bundling and credentials.
