# Proofs about the labdrian SDD overlay

A model of seven components of the overlay and three small ones, and proofs of what they promise. Each module follows one
source file or component. What the source does step by step is a method over a class or a loop; it is proved against a
function that says the result, and the promises are lemmas about that function, for every input, every run and every
reachable state.

| module | source |
|---|---|
| `FileSystem`, `Races`, `Disks`, `AtomicFile` | engine/atomicfile: a staged write as a protocol of system calls over names, inodes and what a crash may bring back |
| `FlockKernel`, `FileLock`, `SkillsLock` | engine/filelock and the protocol of engine/skills that reads under its locks |
| `Toml`, `AgentGen`, `Generator` | engine/agentgen: printers, readers, and Generate and Check over a repository |
| `Contracts`, `Gate` | engine/contract and engine/gate: the contract parser and the rewrite of a prompt |
| `Calls`, `Readers`, `Aggregate` | telemetry: the log readers and the aggregator |
| `ArchGuard` | archguard: the direct-import check and what it says of import paths |
| `SkillsFlags` | engine/cmd/skills_flags.go: the strict flag parser |
| `CappedBuffers`, `ClaimSet`, `Identity` | the output bound, the claim set, the name of a remote |
| `Text`, `Sorting`, `Wrappers` | the library functions the modelled code calls |

How the two protocols are modelled. A run is a log of system calls, made by any number of programs in any order; replaying
it from a first state gives the present one. A crash point, or a moment between two calls, is a prefix of the log. Before
each call of a method (`Disk`, `System`) the others act any number of times, and any call may fail. So an `ensures` that
speaks of every prefix speaks of every crash and every interleaving. `Disk.quiet` are the names no other program changes;
`Races` speaks of names that anyone changes. `Disk.works` and `System.works` say that no call fails: what must then succeed,
and what a refusal then means, is promised too, so that refusing everything is no way to keep a promise. What Replace, Create
and WriteFile promise of the content of one name is for a quiet name; what they promise of everything else is for every name.

What does not hold of the code as its documentation says it, each with a lemma:

- A backup is said to keep the mode of the file. A file of mode 0 is kept as 0600, and one with set-ID or sticky bits, such as
  4755, without them. It keeps the mode of a file exactly when the file has permission bits and no others
  (`AtomicFile.BackupKeepsModeIff`).
- The reader of Codex files is said to be the exact inverse of the printer and to take an escaped quotation mark only as the
  third of three. It takes other escaped quotation marks, and control characters that the printer refuses
  (`Toml.ReadButNeverPrinted` has one text of each kind). `Toml.PrintedIffOnlyThirdsAndClean` says exactly when a string it
  reads is what the printer prints, and `AgentGen.CodexPrintedIff` exactly which files it reads are printed for some role.
- White space around a key of a contract is said to be ignored. Before the colon it is not
  (`Contracts.SpaceBeforeColonHidesKey`).
- A rewritten prompt is said not to change again. With no contract that acts it changes again exactly when the block ends in a
  newline and is not only newlines (`Gate.AppendTwice`, `Gate.IdleRewriteTwice`). A stripped path that is a later contract's header,
  or a line of the block, brings a second change too (`Gate.HeaderRewriteTwice`, `Gate.BlockRewriteTwice`, each an
  if-and-only-if about the prompt and the block); `Gate.RewrittenAgain` has a call and a configuration for each of the three.
  `Gate.RewriteTwice` is the guarantee for whole lists of contracts outside these cases.
- A shared lock that holds nothing is looked at again after the read, but not when the look before it gave no answer and the
  file was then absent. Such a read stands in every run exactly when that look was answered (`SkillsLock.ReadStandsIffAnswered`);
  `SkillsLock.UncheckedReadCanTear` is a run, at the steps of that look and that read, which ends with a pair the two files
  never held together. When stats answer, `SkillsLock.ReadConsistently` has no exception.
- Debt is matched by the text of an edge, and edges of two packages can have one text: exactly when one directory, with the
  arrow, starts with the other and the arrow (`ArchGuard.EdgesMeetIff`). `ArchGuard.DebtOfAnother` is a module that passes the
  check although an adapter imports the composition root, because of a line of another package; `ArchGuard.ImpureOwesIff` says
  exactly when such a package owes.
- The name of a remote is said never to merge two repositories. It forgets the user, so `alice@h:w` and `bob@h:w`, which are
  paths in two homes, have one name (`Identity.UsersAreMerged`, `Identity.TwoUsersOneName`). `Identity.HostIff` and
  `Identity.PathIff` say all that it forgets beside the scheme.
- A Pi line whose own ID reads like a response ID and comes before it in a file takes the place of the response there: the
  third condition of `Readers.KeptByFirstCompleteFile`; `Readers.ResponseDisplaced` is a file of two lines.

## Model

| member | source | states |
|---|---|---|
| `FileSystem.StepWellFormed` | engine/atomicfile/atomicfile.go:142-266 | every system call of writers that fill a temporary file, put it at a name once and do not write to it afterwards keeps: names, and every binding a crash may bring back, lead to files that are placed and so never written to again |
| `FileSystem.StepCalm` | engine/atomicfile/atomicfile.go:215-219 | a call that does not rename, link, swap or unlink a name changes neither what it leads to nor what a crash may find there, however it changes other names and files |
| `Races.NameIsAtomicRegister` | engine/atomicfile/atomicfile.go:183-220 | for any calls of any number of writers in any order, a reader of a name finds exactly what the last rename, link, swap or unlink of it put there, wholly: the content one writer staged, never a mix |
| `Races.CrashFindsWhatWasHeld` | engine/atomicfile/atomicfile.go:171-175 | when writers flush before they rename, a crash after any calls of any writers finds at a name what it could find at the start or a whole content that was there at some moment, never a torn one |
| `Races.OneCreateWins` | engine/atomicfile/atomicfile.go:222-238 | of any number of Create calls on a free name, with no Replace, no two win, the name is taken afterwards if and only if one won, and what the winner staged stays whatever the others do |
| `Disks.Disk.Others` | engine/atomicfile/atomicfile.go:289-299 | what any number of other programs can do between two calls of ours: they leave quiet names and our temporary files alone and keep the content of placed files |
| `Disks.Disk.Rename` | engine/atomicfile/atomicfile.go:215-217 | a rename that succeeds puts the finished file at the name in one step, after a run that left the name alone; one that fails changes nothing |
| `Disks.Disk.Link` | engine/atomicfile/atomicfile.go:234-236 | a link succeeds only on a free name, and when it fails says whether the name is taken |
| `Disks.Disk.Remove` | engine/atomicfile/atomicfile.go:243-248 | a temporary file of ours is gone from the disk afterwards, unless this removal failed, which is in the log; where removals do not fail it is gone |
| `Disks.PlaceOldOrNew` | engine/atomicfile/atomicfile.go:215-219 | one rename or link makes a reader find the new content, and a crash find what it could find before or the new content; torn only without Sync |
| `Disks.OldOrNewPlaced` | engine/atomicfile/atomicfile.go:171-219 | at every moment of a run that ends in a rename or link the name is the old or the new, for readers and after a crash |
| `Disks.SafeByCopy` | engine/atomicfile/atomicfile.go:210-215 | once the backup is on the medium, the old content is found at one of the two names after a crash at any later moment |
| `AtomicFile.BackupKeepsModeIff` | engine/atomicfile/atomicfile.go:71-75 | a backup holds the data of the file; it has the mode it had if and only if that is permission bits, some of them, and no other bit; with the two kinds of failing input |
| `AtomicFile.Fill` | engine/atomicfile/atomicfile.go:159-181 | whatever call fails: on success the temporary file is complete with the mode and the data asked for, and flushed if asked; at no moment does it hold content before its mode is set; no other file and no name changes; it fails only when a call fails |
| `AtomicFile.Stage` | engine/atomicfile/atomicfile.go:136-157 | a finished temporary file of our own, in the directory of the target, and no change at any final name, at any moment; a mode with other bits is refused, and otherwise it is ready unless a call fails; on failure none of the temporary files ever made is on the disk but those that were there before and those whose removal the log says failed |
| `AtomicFile.Staged.Discard` | engine/atomicfile/atomicfile.go:240-248 | the temporary file is not on the disk afterwards, unless a removal of it was tried in this call and failed; no name changes; calling it again is harmless |
| `AtomicFile.Staged.Claim` | engine/atomicfile/atomicfile.go:250-256 | a staged file is committed once |
| `AtomicFile.Staged.FlushDir` | engine/atomicfile/atomicfile.go:258-266 | with Sync and no error, a crash leaves exactly the present binding of the name |
| `AtomicFile.Staged.Install` | engine/atomicfile/atomicfile.go:215-219 | the rename and the flush: old or new at every moment, the new content when renamed, only the new after a crash when Sync succeeded; the error is that of the rename exactly when nothing was placed |
| `AtomicFile.Staged.BackUp` | engine/atomicfile/atomicfile.go:289-331 | on success, and on an error that says the directory was not flushed, the backup name holds the content and mode of the backup of the regular file; on the medium with Sync; no other name changes, and no temporary file of ours is on the disk that was not there before but one whose removal failed |
| `AtomicFile.Staged.Inspect` | engine/atomicfile/atomicfile.go:203-214 | for a name no other program changes, a refusal as a symlink means there was one, and one is never passed over; with no call that fails a symlink is refused as one, and nothing else is refused when a backup, if asked for, can be made; a regular file is backed up when asked; an error that says a directory was not flushed comes only from the backup of a regular file |
| `AtomicFile.Staged.Replace` | engine/atomicfile/atomicfile.go:183-220 | at every crash point the name is wholly the old or wholly the new content with the chosen mode; after success it is the new, and only that after a crash with Sync; with Backup and Sync the old content is on the medium at the name or the backup name at every moment; an error that says a directory was not flushed means the name holds the new content, or the backup is in place and the name untouched; a refusal as a symlink means there was one; with no call that fails, it succeeds when neither the name nor, with Backup, the backup name is one |
| `AtomicFile.Staged.Create` | engine/atomicfile/atomicfile.go:222-238 | never replaces a taken name; old or new at every moment; the file is linked to the name if and only if the call succeeds or only the flush failed, and then the new content is there; with no call that fails the first call succeeds if and only if the name is free |
| `AtomicFile.WriteFile` | engine/atomicfile/atomicfile.go:333-347 | the promises of Replace for the whole of Stage, Replace and Discard: old or new at every crash point, a symlink refused, the old content on the medium with Backup and Sync, and what an error that says a directory was not flushed means; a mode is refused if and only if it has other bits than permissions; with no call that fails it succeeds on a name that is no symlink, when with Backup the backup name is none either and there is a no-follow open; every temporary file it makes is in the directory of the target, and of all ever made none is on the disk that was not there before but one whose removal failed |
| `FlockKernel.StepSound` | engine/filelock/filelock.go:98-118 | each kernel call of disciplined processes, exits included, keeps: descriptors of one path are of one inode, an exclusive holder of an inode is alone, and a pair that does not agree is being written or was abandoned by an exit |
| `FlockKernel.ExclusionAlways` | engine/filelock/filelock.go:14-21 | at every moment of every run at most one exclusive holder per path, and then no shared one |
| `FlockKernel.RemovingTheLockFileBreaksExclusion` | engine/filelock/filelock.go:14-21 | why the lock file is never unlinked: with one removal two processes hold the exclusive lock on one path |
| `FlockKernel.LockFileStays` | engine/filelock/filelock.go:185-190 | a lock file that exists once exists ever after |
| `FlockKernel.AbsentAfterRead` | engine/filelock/filelock.go:110-116 | if the lock file is absent after a read, no write began during it: the pair was whole and did not change |
| `FlockKernel.LockedRead` | engine/filelock/filelock.go:103-108 | while a process keeps a lock on the guard and does not write, the pair does not change |
| `FlockKernel.GuardedWhole` | engine/filelock/filelock.go:103-108 | a lock on the guard finds the pair whole, not between two writes |
| `FileLock.TryLock` | engine/filelock/filelock_unix.go:51-73 | one attempt, made again for as long as signals interrupt it: it ends when the signals are finitely many, with one call of flock and one more per interruption; held if and only if the descriptor now holds the mode, otherwise nothing of ours changed, and a call found a conflicting lock or failed, as is said |
| `FileLock.Acquire` | engine/filelock/filelock.go:225-288 | a lock taken is one new descriptor on the file at the path in the mode asked for; every refusal leaves no descriptor open; the lock that holds nothing is returned only for a shared one on an absent file, and an absent file is no refusal of a shared lock; with no call that fails only a conflicting lock, a bad mode, a platform without locks or an absent directory refuses it; busy only after an attempt that found a conflicting lock, with the wait over, two seconds when none was asked for; not locked only after a call of flock that failed; NoWait makes exactly one attempt and does not read the clock; at least one attempt and at most one per pause begun before the deadline and one more; the attempts are the calls of flock, but for those repeated after an interruption, and one pause of the poll interval is between two of them |
| `FileLock.Poll` | engine/filelock/filelock.go:256-287 | the loop over the deadline, with the bound on its attempts, on a clock that does not go back and whose Sleep pauses for its argument at least |
| `FileLock.AttemptsBound` | engine/filelock/filelock.go:260-287 | the bound is wait divided by the poll interval, rounded up, and one |
| `FileLock.Release` | engine/filelock/filelock.go:270-276 | the first call lets go and closes; a later one releases nothing, even when the number was given to another file since |
| `SkillsLock.AcquireLocks` | engine/skills/lock.go:250-305 | every lock of the requests in order or none; each guarded request is locked or listed to be looked at again, unless a stat of the lock file gave no answer and the file was absent; what is listed was absent and is asked to be read again; each registry asked for was there; a refusal says what is so: an absent registry, a conflicting lock, or locks that do not work |
| `SkillsLock.TakeNext` | engine/skills/lock.go:270-303 | one request more: the registry is looked at, then absence, then the lock is asked for; what was covered, listed or shown stays so |
| `SkillsLock.Ask` | engine/skills/lock.go:279-292 | a file reported absent was absent; a lock that holds nothing on a file not reported absent means that the look at it, made before, gave no answer; busy means a call of flock found a conflicting lock, and where locks work nothing but a directory is refused otherwise |
| `SkillsLock.ReleaseAll` | engine/skills/lock.go:263-268 | lets go of every lock and of nothing else; the closes in the log are those of the locks, the last taken first |
| `SkillsLock.RereadsWhenTheLockFileAppears` | engine/skills/lock.go:307-343 | the failure is set if and only if a look at one of the paths gave no answer; appeared only if some path is there, and when it is not set every path was absent at a moment after the read or its look gave no answer; neither hides the other |
| `SkillsLock.AttemptStands` | engine/filelock/filelock.go:110-116 | a read under the locks stands when they are real, or when each provisional lock file is still absent afterwards |
| `SkillsLock.Attempt` | engine/skills/lock.go:383-397 | one attempt: locks, one read, look again, release; what it read stands unless a look was missed; it is made again only when a lock file of a request was absent and then there; nothing is held afterwards |
| `SkillsLock.ReadConsistently` | engine/skills/lock.go:375-402 | in every interleaving with writers and exits, what is returned is the pair as it was, whole, over a span of the run: no torn read, unless a stat of the lock file gave no answer in this call and the file was absent; at most three reads, counted, and three before it gives up because a lock file was absent and then there; what a refusal says is so; nothing is held afterwards |
| `SkillsLock.ReadStandsIffAnswered` | engine/skills/lock.go:279-285 | a read under a shared lock that holds nothing stands in every run if and only if the look at the lock file before it was answered |
| `SkillsLock.UncheckedReadCanTear` | engine/skills/lock.go:307-317 | a run where the look gave no answer and the pair read is one the files never held together: the first writer writes both twice between the two reads |
| `Toml.RefuseControlCharacters` | engine/agentgen/toml.go:135-150 | refuses a text if and only if it holds a control character TOML does not allow there |
| `Toml.ReadMultilineLoop` | engine/agentgen/toml.go:92-128 | the scan with an index and a builder is the recursive reader of multi-line strings |
| `Toml.SkipBasicLoop` | engine/agentgen/toml.go:71-90 | the scan over a basic string is the recursive reader |
| `Toml.TwoPassesAreOne` | engine/agentgen/toml.go:29-31 | the two passes of leftmost replacement are one pass that escapes backslashes and the third mark of each run of three |
| `Toml.BodyRoundTrip` | engine/agentgen/toml.go:94-128 | reading an escaped body stops exactly at its closing delimiter and gives it back, for any mix of backslashes and quote runs of any length, at its end too |
| `Toml.MultilineRoundTrip` | engine/agentgen/toml.go:21-32 | the multi-line string that is printed is read back, and what follows it is left |
| `Toml.MultilineInjective` | engine/agentgen/toml.go:21-32 | no two texts are printed alike |
| `Toml.BasicRoundTrip` | engine/agentgen/toml.go:12-19 | a printed basic string is read back, and is skipped exactly to its end |
| `Toml.PrintedIffOnlyThirdsAndClean` | engine/agentgen/toml.go:37-41 | what is read is what the printer prints for its body if and only if, in the text up to the closing delimiter, each escaped quotation mark is the third of a run of three and no control character is one the printer refuses |
| `Toml.ReadButNeverPrinted` | engine/agentgen/toml.go:104-109 | two texts that are read and that no body is printed as: an escaped single quotation mark, and a control character |
| `AgentGen.BodyChangesOnlyTheMemoryLine` | engine/agentgen/roles.go:221-237 | a role that searches memory keeps its source; any other has a body if and only if the memory line occurs at exactly one place, and the body is the source with only that line taken out or changed |
| `AgentGen.CountIsOne` | engine/agentgen/roles.go:230-232 | counting the line without overlaps gives one exactly when it occurs at one place |
| `AgentGen.PiTools` | engine/agentgen/roles.go:239-255 | the loop with `seen` gives the first occurrences of the names of the tools, and fails exactly when some tool has no name on Pi |
| `AgentGen.FirstsOnceInOrder` | engine/agentgen/roles.go:239-240 | that list has every name, each once, in the order of its first occurrence |
| `AgentGen.CodexInstructions` | engine/agentgen/toml.go:42-69 | the loop over the keys is the reader of the four lines and nothing after them |
| `AgentGen.CodexRoundTrip` | engine/agentgen/roles.go:283-304 | reading the Codex file gives back exactly the body and consumes the whole file |
| `AgentGen.CodexPrintedIff` | engine/agentgen/toml.go:37-69 | a file is printed for a body and some role if and only if it is read with that body, has no control character the printer refuses, and each escaped quotation mark of its instructions is the third of three |
| `AgentGen.ProjectedInstructions` | engine/agentgen/roles.go:257-281 | so for every role and source on which the projection succeeds |
| `AgentGen.ProjectedFields` | engine/agentgen/roles.go:257-304 | for every projection that succeeds: the three paths, and what a reader of `key: value` headers and of one-line TOML finds in the three files, each field of the role under its own key, in order, and then the body; of the Claude and the Pi file if and only if their model is on one line |
| `AgentGen.ClaudeInstructions` | engine/agentgen/claude.go:14-35 | the loop over the keys is the reader of the frontmatter lines |
| `AgentGen.ClaudeRoundTrip` | engine/agentgen/claude.go:11-13 | the body of a generated Claude file is read back if and only if the model alias has no newline: the projection refuses one in every other field |
| `AgentGen.ClaudeReadIff` | engine/agentgen/claude.go:11-35 | a file is read with a body if and only if it is the file of that body and some role whose fields are each on one line |
| `Generator.Build` | engine/agentgen/agentgen.go:41-64 | the artifacts of the good sources and the errors of the others, in the order of the roles |
| `Generator.Generate` | engine/agentgen/agentgen.go:86-100 | a bad source leaves every file as it was; success writes every artifact and nothing else; a file that cannot be written stops it there |
| `Generator.TableOfGoodSources` | engine/agentgen/agentgen.go:48-64 | the table holds the projected files of exactly the roles whose source, roles/NAME/body.md, is there, readable and projected; the problems are those of the other roles, each with its reason |
| `Generator.GeneratedFiles` | engine/agentgen/agentgen.go:86-100 | after a success each role has its three files in place, projected from its source |
| `Generator.Check` | engine/agentgen/agentgen.go:102-138 | changes nothing and reports each artifact that is missing, unreadable or different, then each bad source |
| `Generator.ComplaintsAreTrue` | engine/agentgen/agentgen.go:102-121 | there is a complaint of an artifact if and only if it is unreadable, missing or different, and it says which |
| `Generator.GenerateThenCheck` | engine/agentgen/agentgen.go:86-138 | after a Generate that succeeded, with distinct role names, Check builds the same table and complains of an artifact if and only if it cannot be read; generating again changes nothing |
| `Contracts.FrontmatterIsBetween` | engine/contract/contract.go:126-146 | there is a frontmatter if and only if two lines are delimiters, and it is the lines between the first two |
| `Contracts.DelimiterIff` | engine/contract/contract.go:142-146 | a line is a delimiter if and only if it is three dashes and then only spaces, tabs and carriage returns |
| `Contracts.ParseList` | engine/contract/contract.go:251-267 | the loop over the items is the list function: items in order, trimmed, the empty ones dropped |
| `Contracts.ListIsBracketed` | engine/contract/contract.go:242-259 | a value is a list if and only if it is one pair of brackets with none inside; otherwise the error carries the trimmed value |
| `Contracts.WrappedListIsRead` | engine/contract/contract.go:251-267 | a list of words is read as the words, whatever white space, and quotes inside it, are around each |
| `Contracts.ParseScope` | engine/contract/contract.go:190-218 | the loop over the lines is the scope function, with its first error |
| `Contracts.ParseContextLines` | engine/contract/contract.go:220-239 | the loop over the lines is the context function, with its first error |
| `Contracts.ParseBoth` | engine/contract/contract.go:170-188 | the values of Parse and ParseContext, and Parse's error first |
| `Contracts.Parse` | engine/contract/contract.go:148-157 | the scope of the frontmatter, or the error of a document without one |
| `Contracts.ParseContext` | engine/contract/contract.go:159-168 | the context of the frontmatter, or the error of a document without one |
| `Contracts.ScopeIsLastLines` | engine/contract/contract.go:16-21 | a scope is read if and only if every line of its lists can be, the overridden ones too; each field is what the last line for its key says |
| `Contracts.ContextIsLastLines` | engine/contract/contract.go:220-239 | a context is read if and only if no line asks for an operator and every line of its lists can be, and each list is what the last line for its key says |
| `Contracts.SpaceBeforeColonHidesKey` | engine/contract/contract.go:198-202 | a line is read for its key if and only if nothing stands between the key and the colon |
| `Contracts.DocumentIsRead` | engine/contract/contract.go:174-219 | every scope of plain words can be written as a document that ParseBoth reads back as it, with no context |
| `Contracts.CrlfParsesTheSame` | engine/contract/contract.go:142-146 | Parse, ParseContext and ParseBoth give the same value or the same error when every newline becomes CRLF |
| `Gate.Inject` | engine/gate/gate.go:217-250 | the loop over the lines puts the path under each exact header, or header and path at the end |
| `Gate.Strip` | engine/gate/gate.go:252-271 | the loop over the lines leaves out the exact entry |
| `Gate.HasExactLine` | engine/gate/gate.go:192-215 | true if and only if a line is the text when the white space around it is removed |
| `Gate.Rewrite` | engine/gate/gate.go:84-109 | the fold over the contracts in order, then the block; an unreadable contract is skipped; changed if and only if the prompt differs |
| `Gate.Evaluate` | engine/gate/gate.go:121-142 | strips an excluded phase, injects into one it applies to when the work matches, otherwise leaves the prompt |
| `Gate.SilentChangesNothing` | engine/gate/gate.go:127-161 | a contract that cannot be read, that neither excludes nor applies to the phase, or that asks for a context without trusted work on application code that shares a language and an activation with those it lists, changes nothing: the prompt is rewritten as without it |
| `Gate.AppliedIsThere` | engine/gate/gate.go:127-142 | a contract that applies, does not exclude, and whose context the work suits has its path in the prompt, when no later one takes it away |
| `Gate.AppliedUnderItsHeading` | engine/gate/gate.go:217-250 | and when the path was not there, on the line below the heading its document names, or the default one |
| `Gate.ExcludedIsGone` | engine/gate/gate.go:132-134 | a contract that excludes the phase has its path taken out, though it applies to the phase too and whatever the work |
| `Gate.NoSubagentNoContract` | engine/gate/gate.go:92-97 | without a sub-agent no contract acts, and an empty prompt stays empty |
| `Gate.BlockEndsThePrompt` | engine/gate/gate.go:111-120 | the block comes after the text without its last newlines and an empty line, unless the text ends in it |
| `Gate.StripKeepsTheRest` | engine/gate/gate.go:252-256 | every other line stays, in order, and the entry is gone |
| `Gate.InjectLines` | engine/gate/gate.go:217-221 | exactly which lines a prompt has after an injection |
| `Gate.InjectTwice` | engine/gate/gate.go:185-188 | injecting twice is injecting once if and only if the path is trimmed and on one line |
| `Gate.StripUndoesInject` | engine/gate/gate.go:217-271 | stripping undoes injecting if and only if the path was absent and the exact header present |
| `Gate.AppendTwice` | engine/gate/gate.go:111-120 | for every prompt, appending again changes nothing if and only if the block does not end in a newline or is only newlines |
| `Gate.RewriteTwice` | engine/gate/gate.go:84-120 | rewriting a rewritten prompt changes nothing, for every prompt and any list of injecting, stripping, idle and unreadable contracts where no contract undoes an earlier one, no stripped path is a line of the block, and the block is one that is put once |
| `Gate.FoldSettles` | engine/gate/gate.go:98-107 | after the contracts in order, every stripped path is absent and every injected one present |
| `Gate.StrippedHeader` | engine/gate/gate.go:131-141 | exactly when a contract whose header is an earlier stripped path makes a second rewrite change the prompt |
| `Gate.StrippedBlock` | engine/gate/gate.go:111-120 | exactly when stripping a path and putting a block, for any block, settles at the first time |
| `Gate.IdleRewriteTwice` | engine/gate/gate.go:84-120 | for every prompt that is not empty, when no contract acts, a second rewrite changes nothing if and only if the block is one that is put once |
| `Gate.HeaderRewriteTwice` | engine/gate/gate.go:84-142 | two contracts, the header of the second the stripped path of the first: a second rewrite changes nothing if and only if the prompt had the path of the second |
| `Gate.BlockRewriteTwice` | engine/gate/gate.go:84-142 | a contract that strips, and a block: a second rewrite changes nothing exactly under the condition of StrippedBlock |
| `Gate.RewrittenAgain` | engine/gate/gate.go:111-120 | a call and a configuration, with contract documents, for each of the three ways in which a rewritten prompt changes again |
| `Readers.LinesAreTheLog` | telemetry/readers.go:197-203 | the lines read are the whole log in order, each with its one newline at its end, but the last |
| `Readers.LineReader.ReadBytes` | telemetry/readers.go:200-201 | one line more, or what is left; at the end of the log, or where it cannot be read on |
| `Readers.Rows.Keep` | telemetry/readers.go:221-236 | the two rules: the last line with an ID wins, or the first |
| `Readers.ReadFile` | telemetry/readers.go:193-218 | the rows of the file under the rule and the counts of its lines; success exactly when the end is reached |
| `Readers.KeepLastIsLast` | telemetry/readers.go:221-226 | the row of an ID is its last line in the file, and no other ID has a row |
| `Readers.KeepFirstIsFirst` | telemetry/readers.go:228-236 | the row of an ID is the first of its lines that no earlier file took, and no other ID has a row |
| `Readers.LogRun.TagClaude` | telemetry/readers.go:238-249 | every row, and nothing else of it, gets the agent type, and the role under subagents |
| `Readers.LogRun.TagPi` | telemetry/readers.go:251-262 | every row gets the session of the file name, and the response IDs are recorded |
| `Readers.TheOrder` | telemetry/readers.go:264-276 | the rows, each once, by time and then ID |
| `Readers.Ordered` | telemetry/readers.go:264-276 | whatever order the map is gone through in, that one sequence |
| `Readers.LogRun.Visit` | telemetry/readers.go:149-189 | what one file or unlistable directory adds to a run; a file that fails emits nothing and suppresses nothing |
| `Readers.ReadLogs` | telemetry/readers.go:135-191 | the whole walk, or a refusal of a root that is no directory |
| `Readers.EmittedIff` | telemetry/readers.go:162-188 | over any run, an entry is emitted if and only if it is a line of a file read to its end, the last with its ID for Claude, the first that no earlier file took for Pi, with the first element of the path as its project; for Claude with the agent of the metadata file and the role sub exactly in a directory subagents or when the line says so; for Pi with what follows the first underscore of the name as its session; and with all else as the line says |
| `Readers.EmittedInOrder` | telemetry/readers.go:184-188 | file after file in the order of the walk, and within a file by time and then ID |
| `Readers.RunConserves` | telemetry/readers.go:25-34 | over any run, lines are skipped, without ID, duplicates, emitted calls or dropped rows; unreadable is files not read and directories not listed |
| `Readers.KeptByFirstCompleteFile` | telemetry/readers.go:43-47 | a file keeps a row for a response if and only if it is read to its end, no earlier file kept one, and the first line with that ID is a response; the row is that line |
| `Readers.ResponseDisplaced` | telemetry/readers.go:228-236 | a complete file of two lines whose response no file keeps, because the own ID of the line before it reads the same |
| `Readers.RespondsOnce` | telemetry/readers.go:43-47 | over any run each response is emitted once when some file kept it, and never otherwise |
| `Readers.FailedFilesAreInvisible` | telemetry/readers.go:193-196 | what is emitted and what is taken for seen is what it would be without the files that fail |
| `Aggregate.Accumulator.Add` | telemetry/aggregate.go:95-114 | the accumulator holds exactly the calls it held and one more |
| `Aggregate.Aggregator.Add` | telemetry/aggregate.go:116-135 | the summary and, in each dimension, exactly the accumulator of the call's key hold one call more |
| `Aggregate.CanonicalCost` | telemetry/aggregate.go:145-158 | none of no values, otherwise their sum in sorted order |
| `Aggregate.Accumulator.MakeGroup` | telemetry/aggregate.go:160-179 | the group of exactly the calls held: sums, canonical costs, ratios, percentiles |
| `Aggregate.Ratio` | telemetry/aggregate.go:137-143 | no ratio exactly when the denominator is zero, otherwise the number that times it gives the numerator |
| `Aggregate.Rank` | telemetry/aggregate.go:171-172 | the index of a percentile is in range and is the nearest rank |
| `Aggregate.Aggregator.MakeReport` | telemetry/aggregate.go:181-197 | the report of exactly the calls held, whatever order the keys come in; the aggregator stays as it is |
| `Aggregate.ReportSays` | telemetry/aggregate.go:95-197 | the report field by field, of the fields of a call: the summary is of all calls; each of the six lists has, in the order of the keys, one group for each value of the field of its name and no other, an empty agent type as (none), and it is of exactly the calls with that value: counts, sums, costs added from the least to the greatest, ratios and percentiles as their names say |
| `Aggregate.ReportForgetsOrder` | telemetry/aggregate.go:145-197 | two permutations of the same calls give equal reports, costs included, for any addition of costs |
| `Aggregate.GroupsPartition` | telemetry/aggregate.go:116-135 | in each dimension the totals of the groups add up to those of the summary |
| `Aggregate.GroupsShareOut` | telemetry/aggregate.go:116-135 | in each dimension the contexts, costs and estimates of the groups together are those of the summary, as multisets |
| `Aggregate.NearestRank` | telemetry/aggregate.go:171-177 | at least p percent of the contexts are at most the reported value and fewer than p percent are below it |
| `Aggregate.PercentilesRise` | telemetry/aggregate.go:173-176 | P5, P25, P50, P90 and Max do not fall, and no context is above Max |
| `Aggregate.RecordedOrEstimated` | telemetry/aggregate.go:8-9 | no call counts as both recorded and estimated; a cost is absent only when no call recorded one, an estimate only when none was estimated, percentiles only when there is no call |
| `ArchGuard.Judge` | archguard/checker.go:54-78 | one violation for each broken target, each once, its files sorted |
| `ArchGuard.TableHoldsTheBroken` | archguard/checker.go:54-70 | a target has a violation if and only if some reference breaks a rule with it, and its files are exactly those of such references |
| `ArchGuard.KeptIff` | archguard/checker.go:80-133 | a reference breaks no rule if and only if its ring may make it: inside the module, by the elements of the path, of a ring no further out than it reaches; outside, for a pure ring, in a pure module or a path of the pure standard library; no dot import, no ambient member |
| `ArchGuard.PureModuleIsFirst` | archguard/checker.go:122-133 | the pure module of a path is the first of the list whose elements are the first of the path; a path that only starts like a module is not in it |
| `ArchGuard.ShownAs` | archguard/checker.go:82-97 | the target a reference is shown as, for any ring |
| `ArchGuard.FoundIffNotKept` | archguard/checker.go:39-78 | there is a violation of a directory and a target if and only if a package of it, in a judged ring, makes a reference with that target that its ring may not make; nothing else is reported |
| `ArchGuard.AmbientPackagesArePure` | archguard/rules.go:57-63 | every package with ambient members is one that is pure to import |
| `ArchGuard.Violations` | archguard/checker.go:39-52 | exactly the violations of the judged packages, each as often as packages have it, by edge |
| `ArchGuard.FoundOnce` | archguard/source.go:61-84 | which is at most once when no two packages are of one directory |
| `ArchGuard.LinesOf` | archguard/debt.go:18-28 | exactly the lines of the debt, each once, by edge |
| `ArchGuard.Reconcile` | archguard/debt.go:30-51 | unlisted are the violations with no debt line of that edge, stale the lines with no violation of it |
| `ArchGuard.ValidateDebts` | archguard/debt.go:55-74 | a problem for each line that cannot be trusted, with the first reason |
| `ArchGuard.MistrustIff` | archguard/debt.go:53-74 | a line is trusted if and only if it has a target, a unit that is one of four letters and a number, and a directory declared as domain or application; the reason is the first of these that fails |
| `ArchGuard.UndeclaredDirs` | archguard/checker.go:165-174 | exactly the package directories with no ring |
| `ArchGuard.MissingDirs` | archguard/checker.go:176-191 | exactly the declared directories with no package |
| `ArchGuard.UnusedPureModules` | archguard/checker.go:135-155 | exactly the pure modules no package imports |
| `ArchGuard.CheckWith` | archguard/archguard.go:143-177 | reports exactly the problems there are, and cannot run when no package is found |
| `ArchGuard.DirectIsKept` | archguard/checker.go:39-78 | when nothing is reported each reference of a judged package keeps its rule or is owed |
| `ArchGuard.PathsStayInward` | archguard/archguard.go:58-59 | then every path of imports from a judged package stays inward up to an owed edge: domain reaches domain, pure reaches pure, and none reaches a root or test support |
| `ArchGuard.ImpurityIsOwed` | archguard/archguard.go:58-59 | then on every path from a domain or application package to an impure import, an ambient member or a package outside its rings some edge is a debt line |
| `ArchGuard.DomainReachesDomain` | archguard/archguard.go:6-11 | with no debt whatever a domain package reaches is domain and refers to nothing impure |
| `ArchGuard.EdgesMeetIff` | archguard/checker.go:17 | two directories have edges of one text if and only if one of them, with the arrow, starts with the other and the arrow |
| `ArchGuard.DebtOfAnother` | archguard/debt.go:16 | a module and a debt for which nothing is reported, although an adapter imports the root |
| `ArchGuard.ImpureOwesIff` | archguard/debt.go:55-57 | when nothing is reported, a package that is no domain or application package owes an edge if and only if the text of a line of another package is that of an edge of it |
| `ArchGuard.OnlyPurePackagesOwe` | archguard/debt.go:55-57 | otherwise what a package owes are its own lines, and it is a domain or application package |
| `SkillsFlags.FlagAt` | engine/cmd/skills_flags.go:104-139 | the switch of the loop, case by case in its order, is one move of the parser |
| `SkillsFlags.ParseArgs` | engine/cmd/skills_flags.go:98-150 | the loop is the recursive parse, with or without the verb among the arguments |
| `SkillsFlags.AfterVerb` | engine/cmd/skills_flags.go:89-96 | parsing with the verb among the arguments is parsing them without their first word, when that word is the verb |
| `SkillsFlags.WrapperFlagsAreHarmless` | engine/cmd/skills_flags.go:24-27 | an appended wrapper flag and its value change nothing if and only if the command line was refused already, or left no flag without a value and did not end its options |
| `SkillsFlags.SwitchIsNeverAValue` | engine/cmd/skills_flags.go:40-45 | when a value is never a flag, a switch is set in a successful parse if and only if it is given before the options end |
| `SkillsFlags.DryRunIsHeard` | engine/cmd/skills_flags.go:315-374 | so --dry-run of the verbs that write is never taken as a value |
| `SkillsFlags.SwitchTakenAsValue` | engine/cmd/skills_flags.go:18-21 | without that rule the flag before a switch takes it |
| `SkillsFlags.ValuesAreKept` | engine/cmd/skills_flags.go:53-63 | the value of a flag is the last of the values kept for it, and no more words are kept than the verb accepts |
| `SkillsFlags.CommandLineIsRead` | engine/cmd/skills_flags.go:53-150 | a command line spelled from flags with values, switches, wrapper flags and words is read as exactly what it says: the words in order, the switches that are on, all values of each flag in order, and the last as its value |
| `SkillsFlags.FirstFaultIsNamed` | engine/cmd/skills_flags.go:98-150 | and the first word that does not fit is refused for what it is, whatever comes after |
| `CappedBuffers.CappedBuffer.Write` | engine/execrunner/execrunner.go:54-74 | after any writes the buffer holds exactly the first min(max, total) bytes and is over if and only if total > max > 0 |
| `CappedBuffers.WriteAll` | engine/execrunner/execrunner.go:54-58 | so for any sequence of writes |
| `CappedBuffers.HeldInPieces` | engine/execrunner/execrunner.go:56-58 | how the output is cut into writes does not matter |
| `ClaimSet.ValidateClaimSet` | engine/capability/validate.go:84-113 | accepts exactly the closed set in its order, and each refusal is true and names the first place, or the first missing capability |
| `ClaimSet.NoMoreThanOrder` | engine/capability/validate.go:105-108 | the pigeonhole that makes the last index safe |
| `Identity.OneNameOneRepository` | identity/identity.go:80-88 | two remotes have one name if and only if they have the same stripped host and the same stripped path |
| `Identity.RawPartsIff` | identity/identity.go:95-107 | which texts have a host to key on, and which host and path they write: after the first :// and a scheme that is not file, or before and after the first colon with no slash before it |
| `Identity.NameIff` | identity/identity.go:89-124 | a text has a name if and only if it spells a host and a path that are not empty when stripped, and the name is the two with a slash between |
| `Identity.HostIff` | identity/identity.go:109-112 | a name forgets of a host exactly the user up to the first at sign, the white space around it and the case of its letters |
| `Identity.PathIff` | identity/identity.go:117-119 | a name forgets of a path exactly the white space and the slashes around it and one ".git", with the slashes before that |
| `Identity.UsersAreMerged` | identity/identity.go:102-112 | the remotes of all users of a host with one path after the colon have one name |
| `Identity.TwoUsersOneName` | identity/identity.go:80-88 | two such remotes, which differ in their user and have one name |
| `Identity.FourSpellings` | identity/identity.go:63-70 | the four documented spellings of a remote give one name |
| `Identity.OriginRemote` | identity/identity.go:14-49 | the name of the first url in a section of the origin that has one, and none exactly when there is no such line |
| `Identity.HeaderIff` | identity/identity.go:51-60 | a section header in either spelling is that of the origin if and only if its section is remote in any case and its name is origin as written |

## Left out

- The workflow log, the role chain, the review chain, the projection gate, skills install and ownership.
- engine/cmd but for skills_flags.go; messages of errors but for the data they carry; `--help` and exit codes.
- Decoding: JSON of prices and of log lines (a function given to the reader says what a line is), the Go parser and the
  directory walk of archguard (packages with their references are given), and files' metadata.
- Real floating point: a cost is its place in the order of the numbers and adding is any function, so signed zeros and NaN are
  not told apart; ratios are real numbers. Token counts, rank arithmetic and byte counts are unbounded integers: overflow is
  not covered.
- Full Unicode: white space is the ASCII white space and letters are folded in ASCII; text is compared character by character.
- The table of the eight roles and the Pi model names: the theorems hold for every role.
- AgentGen.ProjectedFields: the files are read by a reader of lines that are a key and a value; the YAML and TOML readers of
  the runtimes, which give some characters of a value a meaning, are not modelled.
- ArchGuard.KeptIff: the tables of pure packages and of ambient members are taken as they are.
- Aliasing of paths in a file system: two different texts are two files, so links and case folding between artifact paths are
  not covered. Creating parent directories is part of a write that may fail.
- FileSystem.StepWellFormed: temporary names are fresh, and never names a caller chose; a temporary file is named as a
  `Temp`, so TempPattern is not modelled.
- AtomicFile.Staged.Discard: the source ignores a failure of os.Remove; here the log and `leaked` keep it. A file that another
  program removed first is not told apart from one that this program removed.
- AtomicFile.Staged.Replace: a symlink put at the name between the look and the rename is replaced by the rename; the refusal
  is promised for names no other program changes.
- FileLock.Acquire: signals that interrupt are finitely many, and the kernel gives a descriptor number that no open file of
  the process has. The process-wide effects of fork, and the mode a lock file is created with, are not modelled.
- SkillsLock.ReadConsistently: what is read is one pair of files, a manifest and a registry; the generic read is not modelled.
- SkillsLock.UncheckedReadCanTear: the run is one of calls of the kernel with the steps of the look and the reads marked in it;
  a method cannot be made to take one of its runs.
- Readers.ReadLogs: the order of the walk and the errors of directories are given; files do not change while they are read.
- ArchGuard.CheckWith: says which problems are reported; that each kind comes in its place is in the body only. Rings
  beyond the five are one, `Unknown`.
- SkillsFlags.ParseArgs: the wording of a refusal, for which extraWord and dashValue are, is not modelled.
- Gate.RewriteTwice: goes one way; outside its conditions `Gate.IdleRewriteTwice`, `Gate.HeaderRewriteTwice` and
  `Gate.BlockRewriteTwice` say exactly when the block, two contracts, or a contract and the block bring a second change, not
  longer chains.
- CappedBuffers.CappedBuffer.Write: stopping the program is a flag.
- validateClaim, validateTestRefs, capability targets, identity readers of the repository: they would only add easy members.
