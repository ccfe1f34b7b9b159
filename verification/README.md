# Formal model of the Zowe Subsystem Services server (ZSS and ZIS)

This project models the stateful and looping parts of ZSS and of its privileged cross-memory server ZIS in
Dafny and proves what they keep over every input and every history. `dafny verify dfyconfig.toml` checks all
of it.

| file | models | main results |
|---|---|---|
| `ZisStorage.dfy` | anchors, lists, service table, router (`c/zis/server.c`, `c/zis/service.c`) | reuse of an anchor against a fresh one |
| `ZisLifecycle.dfy`, `ZisLifecycleProofs.dfy` | start, clean-up, installation, stop, crash and restart, one field write per step | router safety and completeness over every history |
| `ZisServer.dfy` | the clean-up and installation loops as a class | the loops perform exactly those steps |
| `ZisClient.dfy` | the service call of `c/zis/client.c` | end-to-end meaning of every return code |
| `ZisLpa.dfy` | relocation of plug-in modules to the LPA | honest LPA flags, and exactly when a crash breaks them |
| `Common.dfy` | optional values, repetition, joining | shared by the other modules |
| `OrderedMap.dfy`, `ZisParm.dfy`, `ZisDeploy.dfy` | parameters, PARMLIB reader, configuration, deployment | ordered map, continuation round trip, last writer wins, stable partition |
| `EnvKey.dfy` | environment-key decoder (`c/envService.c`) | equals a tokenisation; undoes every spelling of a key |
| `DatasetPath.dfy`, `DatasetExtent.dfy` | dataset names and extents (`c/datasetjson.c`) | validator accepts exactly the printed names; exact sizes |
| `DatasetRecords.dfy`, `DatasetProtocol.dfy`, `DatasetUpdate.dfy` | etags and optimistic update (`c/datasetjson.c`) | no lost updates in any interleaving; what etags identify; updates that must succeed |
| `ProfileSearch.dfy` | paged profile search (`c/securityService.c`) | equals a plain filter of the store |
| `UploadLog.dfy`, `UploadSessions.dfy`, `UploadRequests.dfy`, `UploadTracker.dfy` | chunked upload (`c/unixFileService.c`) | completed files, exclusive sessions, exact time-outs, identifiers and effects of each request, after every sequence of requests |

## How the parts are modelled

**Histories.** ZIS storage, LPA relocation and dataset update are transition systems: a `State`, an `Action`
per write or service call, `Enabled`, `Apply`, and `Exec` over a list of actions. A crash is an action that is
possible everywhere. Between any two actions a router call may look at storage, so statements about the state
after *every* list of actions cover router calls between any two field writes. A router call itself is one
atomic look at storage. The storage a server inherits is arbitrary: any anchors of any structure version, active
or not, as long as the lists hold allocated anchors of their own plug-in and table entries and active anchors are
listed. The results hold from the first completed clean-up on, and from the beginning if nothing inherited is
active (`Settled`).

**Loops and objects.** Code that changes things in place is a class or a method with a loop: `ZisServer.Server`,
`ZisLpa.Relocator`, `ZisClient.StatusBlock`, `ZisParm.ParmSet`, `ZisParm.ParmReader`, `ZisDeploy.Context`,
`UploadTracker.Tracker`, and the decoder, the paged search, the record loops and the field extraction. In
`ZisServer.Server` and `ZisLpa.Relocator` each assignment is followed by the action it performs, so the class
invariant says that the writes made so far are a history of the transition system.

**Assumptions taken from the source.**
- Service names are unique within a plug-in (`h/zis/service.h` demands it of callers; nothing checks it), and
  serve routines are not null. Both are part of `DescriptorOk`.
- The descriptor an LPA copy returns has the name and nickname of the one that was loaded (`FaithfulCopies`,
  and the name condition of the action `Relocated`), and its module has the version being installed.
- Descriptor and anchor flags use the same two bits (`h/zis/service.h`); any further bits are kept apart, since
  creating an anchor drops them and updating one copies them.
- The code-page table maps distinct codes to distinct characters and only 0 to NUL (round trip of keys only).
- Time is a true number of seconds; the code sees it modulo 2^32. An identifier that pruning leaves behind still
  names its file.
- What lies in memory behind the record buffer, and how much of an overlong record the dataset takes, are
  parameters of `WriteRecords`.
- The digest is injective (only where stated). Dataset allocation is exclusive for updates and shared for reads.
- The extraction service returns the first names, in order, from the start name on; stored names are
  blank-padded and hold nothing below the blank; `nullTerminate` drops trailing blanks.
- Looking up a session by a file that no identifier leads to finds no session.

**Where the code does not do what one would want.** These are stated as they are:
- A crash between setting the LPA flag and writing a changed plug-in version makes a later roll-back use the
  wrong module; a crash between deleting a module and clearing its flag leaves a flag without module.
  `FlagsAreHonest` and `CrashInWindowBreaks` say exactly when, `RollBackRunsWrongModule` shows the effect.
- `isPluginValid` never rejects a plug-in because of its services (`IsPluginValid`, `BadServiceIsAccepted`).
- The time-out test is wrong after an idle time of 2^32 seconds or more with a small remainder, and after most
  clock set-backs (`TimeOutIsExact`, `TimeOutFails`); `ExpiryIsExact` says so of every request of every run, and
  `SteadyClockIsExact` that it never happens if the clock does not go back and requests are at most 2^32 - 600
  seconds apart.
- Pruning leaves the identifiers of expired sessions behind, and such an identifier reaches the file's next session
  (`StaleIdentifiers`, `StaleIdentifierAccepted`).
- A routine that answers with a code from 14 to 17 looks to the client like a refused call
  (`RefusalsAreRecognisable`).
- Extents of 2^32 bytes or more are reported with the wrong number of tracks (`TracksAreExact`, `LargeExtentWraps`).
- Etags do not see record boundaries (`ETagsIgnoreBoundaries`); they identify record lists exactly in datasets with
  fixed-length records or a record length of 1 (`ETagsIdentifyRecords`).

## Model

| member | source | states |
|---|---|---|
| `ZisStorage.FindPlugin` | c/zis/server.c:296-310 | the first plug-in anchor with the name and a supported structure version; all earlier ones fail one or the other |
| `ZisStorage.FindService` | c/zis/server.c:312-327 | the first service anchor with the name, a supported version and not discarded; all earlier ones fail one of these |
| `ZisStorage.Lookup` | c/zis/server.c:296-327 | what both searches find carries exactly the path asked for |
| `ZisStorage.FoundIsUsable` | c/zis/server.c:296-327 | what both searches find is undiscarded, of a known structure version, and listed under a plug-in anchor of a known version |
| `ZisStorage.CreatedMatches` | c/zis/service.c:96-135 | a fresh anchor shows routers and clients exactly its descriptor, is found under its own path, can be used again by the same service, and is not active |
| `ZisStorage.UnknownFlagBits` | c/zis/service.c:96-164 | flag bits without a meaning are dropped by creation and copied by an update, which leaves path, version and state alone |
| `ZisStorage.ReuseIsFreshInstall` | c/zis/service.c:96-164 | no router call and no client can tell an updated old anchor from a fresh one if and only if the installer's compatibility test passes or the stale SAF names happen to be the wanted ones |
| `ZisLifecycle.Descriptors` | c/zis/server.c:560-573 | the services a plug-in brings, by path, each with its own descriptor and a non-null routine |
| `ZisLifecycleProofs.ClearStateKeeps` | c/zis/server.c:333-338 | clearing the state bit keeps the invariant |
| `ZisLifecycleProofs.ClearServeKeeps` | c/zis/server.c:333-341 | clearing the routine after the state bit keeps the invariant |
| `ZisLifecycleProofs.CleanDoneKeeps` | c/zis/server.c:348-358 | when clean-up ends no anchor at all is active, whatever a crash left |
| `ZisLifecycleProofs.BeginInstallKeeps` | c/zis/server.c:781-794 | finding or pushing a plug-in anchor keeps the invariant and disturbs no lookup that succeeded |
| `ZisLifecycleProofs.RelocatedKeeps` | c/zis/server.c:796-807 | taking up a plug-in of a new name never replaces the descriptor of an active service |
| `ZisLifecycleProofs.FindAnchorKeeps` | c/zis/server.c:570-586 | reuse, discard or absence of an anchor keeps the invariant; a discarded anchor was not active |
| `ZisLifecycleProofs.CreateAnchorKeeps` | c/zis/server.c:587-596 | the new anchor becomes the one its path finds, and no other path notices |
| `ZisLifecycleProofs.WriteFieldKeeps` | c/zis/service.c:147-164 | each single field write of an update keeps the invariant |
| `ZisLifecycleProofs.TablePutKeeps` | c/zis/server.c:608-615 | publishing a path keeps the table an index of listed anchors under their own paths |
| `ZisLifecycleProofs.ActivateKeeps` | c/zis/server.c:617 | activation adds one complete anchor and keeps the invariant |
| `ZisLifecycleProofs.StepKeeps` | c/zis/server.c:1260-1289 | every step of start, clean-up, installation, stop and crash keeps the invariant |
| `ZisLifecycleProofs.FirstCleanUp` | c/zis/server.c:348-358 | the first completed clean-up establishes the invariant, whatever was inherited, active anchors included |
| `ZisLifecycleProofs.InstallStepElsewhere` | c/zis/server.c:560-625 | installing one service changes nothing that the lists find for other paths |
| `ZisLifecycleProofs.RunKeeps` | c/zis/server.c:1260-1289 | the invariant holds after every history on every inherited storage, from the first completed clean-up on, or from the beginning if nothing inherited is active |
| `ZisLifecycleProofs.InstalledIsHistory` | c/zis/server.c:796-817 | the installed descriptors are those read off the list of actions alone, since the last completed clean-up |
| `ZisLifecycleProofs.RouterSafe` | c/zis/server.c:90-138 | after any history a call reaches a routine only if a plug-in brought it under that path since the last completed clean-up, it is new enough, and the check its own descriptor demands has succeeded |
| `ZisLifecycleProofs.ActiveAnchorsAreComplete` | c/zis/server.c:333-358 | after any history every active anchor agrees with the installed descriptor in flags, routine, version and SAF names |
| `ZisLifecycleProofs.RouterComplete` | c/zis/server.c:90-138 | while the server runs, a call reaches a routine if and only if its installation was completed, the version fits and the caller is authorised |
| `ZisLifecycleProofs.RouterRefusals` | c/zis/server.c:98-132 | while the server runs: 12 and 13 exactly for bad headers, 14 exactly for a path never published, 15 exactly for an anchor older than asked for, 16 exactly if no completed installation stands behind it, 17 exactly if one does and the check its descriptor demands fails |
| `ZisLifecycleProofs.TableAgreesWithLists` | c/zis/server.c:560-625 | after any number of restarts the table gives for every completed installation what the list searches give, every entry is listed under its own path, and discarded anchors are never active |
| `ZisServer.FindPluginAnchor` | c/zis/server.c:296-310 | the loop finds what the list search specifies |
| `ZisServer.FindServiceAnchor` | c/zis/server.c:312-327 | the loop finds what the list search specifies |
| `ZisServer.Server.CleanServiceAnchor` | c/zis/server.c:335-341 | state bit first, routine second, each a step of the history; nothing else changes |
| `ZisServer.Server.CleanPluginAnchor` | c/zis/server.c:333-343 | every anchor of the list is cleaned, by steps of the history |
| `ZisServer.Server.CleanPlugins` | c/zis/server.c:348-358 | exactly the listed anchors end inactive and without routine; lists, table and all other fields stay |
| `ZisServer.CleanedListsMeaning` | c/zis/server.c:348-358 | cleaning list after list is cleaning exactly the listed anchors, however lists overlap |
| `ZisServer.Server.InitServer` | c/zis/server.c:1260-1275 | start and clean-up: a ready server, nothing started, exactly the listed anchors cleaned |
| `ZisServer.Server.CleanupServer` | c/zis/server.c:1277-1289 | stop and clean-up: the server is down and exactly the listed anchors are cleaned |
| `ZisServer.Server.FindUsableAnchor` | c/zis/server.c:570-586 | found exactly if the lists find a compatible anchor, which is left untouched; an incompatible one ends discarded and counts as missing |
| `ZisServer.Server.Create` | c/zis/server.c:587-596 | the created anchor carries its descriptor and stands in front of its plug-in's list; nothing else changes |
| `ZisServer.Server.Update` | c/zis/service.c:147-164 | the five writes together are the update, each a step of the history |
| `ZisServer.Server.Publish` | c/zis/server.c:608-617 | table entry first, activation second; a failed table put changes no storage and starts nothing |
| `ZisServer.Server.InstallServices` | c/zis/server.c:560-625 | goes through the services up to the first that needs an anchor and gets no storage for it or whose table put fails, and starts exactly those whose init succeeded; every write on the way is a step of the history |
| `ZisServer.Server.InstallPlugin` | c/zis/server.c:781-817 | adds the plug-in exactly if it has or gets an anchor and relocation succeeds, and installs its services exactly if its init succeeds too |
| `ZisClient.CallServiceInternal` | c/zis/client.c:1068-1143 | the code returned, the status fields written and the routine that ran are those of the call's specification |
| `ZisClient.ReturnCodes` | c/zis/client.c:1068-1143 | of every call: 2, 9, 10, 11 and 14 exactly for their early exits, with the status untouched; 8 exactly for a server not ready or a failed cross-memory call, with its code in the status; 0 exactly if a routine ran and answered 0; no routine ran unless the call was delivered |
| `ZisClient.EndToEnd` | c/zis/client.c:1068-1143 | OK means that a routine brought since the last clean-up ran, fitted, was authorised and answered 0; a refusal comes back with its own code in the status and as 17 or 4, and nothing ran; both also when storage changes between the two lookups |
| `ZisClient.ClientRefusals` | c/zis/client.c:1125-1142 | a client of a running server gets 17 exactly for a failed check of the installed descriptor, and 4 with 14, 15 or 16 in the status exactly for an unpublished, an outdated and an inactive service |
| `ZisClient.RefusalsAreRecognisable` | c/zis/client.c:1125-1142 | the status tells refused calls from answered ones if and only if no routine answers with a code from 14 to 17 |
| `ZisClient.RouterChoice` | c/zis/client.c:1104-1109 | for a completed installation the client picks the router its descriptor asks for |
| `ZisLpa.HonestOutsideWindows` | c/zis/server.c:627-736 | all LPA flags are honest exactly outside two stretches of code |
| `ZisLpa.StepKeeps` | c/zis/server.c:627-807 | every step except a crash inside those stretches keeps the invariant |
| `ZisLpa.FirstStepOfRelocation` | c/zis/server.c:640-672 | a resident module is always deleted first in development mode, otherwise given up exactly if its version differs |
| `ZisLpa.FlagsAreHonest` | c/zis/server.c:627-807 | over all restarts, version changes, failing requests and mode switches a flagged anchor refers to a loaded module of its own version, and a relocated plug-in is entered through a module of the version being installed |
| `ZisLpa.CrashInWindowBreaks` | c/zis/server.c:658-672 | a crash leaves all flags honest if and only if it happens outside the two stretches |
| `ZisLpa.UpgradePassesWindow` | c/zis/server.c:668-807 | every upgrade of a resident module is the given run of steps and ends in the second stretch |
| `ZisLpa.RollBackRunsWrongModule` | c/zis/server.c:640-807 | a whole run: start, upgrade, crash there, restart with its cleaning pass, roll back, and the new version's module is about to be called for the old one |
| `ZisLpa.NothingDeletedOutsideDevMode` | c/zis/server.c:707-736 | without development mode no module ever leaves the LPA, over any history |
| `ZisLpa.Relocator.StartAndClean` | c/zis/server.c:344-358 | in development mode exactly the flagged modules whose deletion succeeds are cleared, otherwise nothing changes |
| `ZisLpa.Relocator.InstallPlugin` | c/zis/server.c:781-807 | success leaves the version in the anchor whether the plug-in is in the LPA or not, and a plug-in that needs it resident in that version |
| `ZisLpa.Relocator.Discard` | c/zis/server.c:651-672 | the anchor ends without flag and module; the module is unloaded only in development mode |
| `ZisLpa.Relocator.RemoveIfNeeded` | c/zis/server.c:707-736 | a successful delete in development mode clears module and flag; in every other case nothing changes |
| `ZisLpa.Relocator.RelocateIfNeeded` | c/zis/server.c:627-705 | fails exactly for a failing delete in development mode or a failing add; keeps a module of the right version exactly outside development mode and replaces it otherwise; success leaves a plug-in that needs it resident in its own version; failure leaves no dishonest flag |
| `ZisLpa.Relocator.AddIfNeeded` | c/zis/server.c:676-705 | a needed module is added once and flagged; fails exactly if it is needed and the request fails, and then changes nothing and leaves no flag |
| `OrderedMap.IndexOf` | c/zis/parm.c:531-542 | the first entry with the key; all earlier ones have other keys |
| `OrderedMap.PutAllIsMap` | c/zis/parm.c:544-595 | after any puts keys are distinct and every key has the value of its last put |
| `OrderedMap.PutAllKeepsOrder` | c/zis/parm.c:544-626 | the entries are in the order in which their keys were first put |
| `OrderedMap.FirstPutIsFirst` | c/zis/parm.c:544-569 | "first put" is the first position with that key, and exists exactly for keys with a value |
| `OrderedMap.PutIsMapUpdate` | c/zis/parm.c:544-585 | a put changes the value of its own key and moves no entry |
| `ZisParm.ParmSet.FindEntry` | c/zis/parm.c:531-542 | the loop finds the first entry with the name |
| `ZisParm.ParmSet.PutValue` | c/zis/parm.c:544-585 | the set becomes that of the history with one more put |
| `ZisParm.ParmSet.GetValue` | c/zis/parm.c:587-595 | the value of the last put, or none |
| `ZisParm.GetTrimmedSlice` | c/zis/parm.c:173-201 | position and length of the record without outer blanks, all-blank and empty records included |
| `ZisParm.TrimPadded` | c/zis/parm.c:173-201 | any padding of a text without outer blanks trims back to the text |
| `ZisParm.CommentsPutNothing` | c/zis/parm.c:218-226 | between parameters a record that starts with * or //* puts nothing |
| `ZisParm.NoCommentsInContinuation` | c/zis/parm.c:251-302 | in a continued parameter such a record is text |
| `ZisParm.OthersPutOneEntry` | c/zis/parm.c:228-311 | any other complete record puts exactly one entry |
| `ZisParm.CommentsAreSkipped` | c/zis/parm.c:49-65 | a comment between parameters may as well not be there |
| `ZisParm.ParmReader.HandleRecord` | c/zis/parm.c:228-311 | comment, continuation, completion or overflow, as specified; the assembled text always fits the 4096-byte buffer with its terminator |
| `ZisParm.ParmReader.ReadMember` | c/zis/parm.c:49-65 | puts what the records specify, in order, up to the first failure |
| `ZisParm.KeyValueReadsBack` | c/zis/parm.c:296-302 | key=value is read as that key and that value |
| `ZisParm.KeyWithoutValue` | c/zis/parm.c:296-302 | a text without equals sign is a key with an empty value |
| `ZisParm.NulEndsText` | c/zis/parm.c:296-302 | what follows a NUL is not read |
| `ZisParm.ContinuationReads` | c/zis/parm.c:251-294 | a line cut into well-cut fragments, continuing any pending text, is read as one entry if and only if every assembled prefix fits, and otherwise stores nothing |
| `ZisParm.ParameterReadsBack` | c/zis/parm.c:228-311 | round trip of one parameter, if and only if it fits the buffer |
| `ZisParm.MemberReadsBack` | c/zis/parm.c:49-65 | a member made of any such lines puts exactly one entry per line, in order |
| `ZisParm.UnfinishedIsNotStored` | c/zis/parm.c:276-283 | continued records that are never completed store nothing |
| `ZisParm.ReadMainParms` | c/zis/parm.c:480-524 | puts the pieces between commas, all but a final empty one, in order |
| `ZisParm.PiecesFromArePieces` | c/zis/parm.c:489-518 | walking from comma to comma yields the pieces of the split, from any position |
| `ZisParm.MainParmsReadBack` | c/zis/parm.c:489-518 | pieces joined by commas are read back in order, and only a final empty one is dropped |
| `ZisParm.SplitJoined` | c/zis/parm.c:489-518 | splitting at commas undoes joining with commas |
| `ZisParm.PieceByPiece` | c/zis/parm.c:489-518 | each piece is read as one parameter |
| `ZisDeploy.LoadConfig` | c/zis/server.c:1390-1442 | fails exactly for a suffix not two characters long, a missing member or an overlong continuation; otherwise holds all puts |
| `ZisDeploy.ReadParmlib` | c/zis/parm.c:441-454 | adds the puts of the member's records and succeeds exactly when all of them were read |
| `ZisDeploy.MemberIsChosen` | c/zis/server.c:1346-1371 | the member is the module's first four characters, IP, and the last MEM parameter or 00; none if that is not two characters |
| `ZisDeploy.ConfigIsLayered` | c/zis/server.c:1401-1425 | every parameter has the value of the last writer among test parameter, main parameters and PARMLIB |
| `ZisDeploy.AttemptedAtTurn` | c/zis/server.c:1230-1238 | every plug-in parameter has a turn among the attempts |
| `ZisDeploy.TurnsAreStable` | c/zis/server.c:1014-1029 | turns are a stable partition: dynamic linkage first, parameter order within each part |
| `ZisDeploy.AttemptsArePluginParms` | c/zis/server.c:1031-1062 | the attempts are the plug-in parameters and nothing else, each as often as it occurs |
| `ZisDeploy.AttemptCounts` | c/zis/server.c:1031-1062 | every parameter whose name starts with ZWES.PLUGIN. is attempted as often as it occurs, and no other |
| `ZisDeploy.IsPluginValid` | c/zis/server.c:914-979 | accepts on eyecatcher, version and service count alone |
| `ZisDeploy.BadServiceIsAccepted` | c/zis/server.c:951-963 | a plug-in whose only service has a bad eyecatcher and version is accepted |
| `ZisDeploy.Context.IsDuplicate` | c/zis/server.c:738-774 | reports a plug-in with the same name or the same nickname |
| `ZisDeploy.Context.VisitPluginParm` | c/zis/server.c:1031-1089 | acts exactly on suitable plug-in parameters and installs as specified |
| `ZisDeploy.Context.DeployPlugins` | c/zis/server.c:1230-1238 | attempts the stable partition and leaves exactly the plug-ins it installs, pairwise distinct |
| `ZisDeploy.InstalledAreUnique` | c/zis/server.c:981-998 | installed plug-ins have pairwise distinct names and nicknames, whatever is attempted |
| `ZisDeploy.OneAttempt` | c/zis/server.c:1031-1089 | an attempt installs exactly an installable plug-in that shares neither name nor nickname with an installed one |
| `ZisDeploy.InstalledWereAttempted` | c/zis/server.c:1031-1089 | everything installed is the relocated copy of an installable plug-in that was attempted |
| `ZisDeploy.FirstComeFirstServed` | c/zis/server.c:981-998 | an installable plug-in is installed unless an installable one attempted earlier shares its name or nickname |
| `EnvKey.HexValueIsPlace` | c/envService.c:78-89 | exactly the digits of either case have a value, and it is their place among the digits |
| `EnvKey.RunMeans` | c/envService.c:128-141 | 4k + r underscores are k dots and then nothing, '_', '_' or '-' for r = 0, 1, 2, 3 |
| `EnvKey.SpellingsDecode` | c/envService.c:104-158 | every spelling decodes to what it stands for: dots and one '_' or '-' as a single run, '_' once or twice, escapes, plain characters |
| `EnvKey.PlainKeysStay` | c/envService.c:104-158 | a key without adjacent underscores and without escapes decodes to itself |
| `EnvKey.Decoded` | c/envService.c:104-158 | the decoded key is never longer than the key |
| `EnvKey.TryEscape` | c/envService.c:111-116 | moves to the end of a non-zero escape and yields its character, or stays and yields NUL |
| `EnvKey.ReadToken` | c/envService.c:109-141 | an iteration either counts an underscore or ends the run before the next token, and what is pending stays the same |
| `EnvKey.DecodeStep` | c/envService.c:109-156 | every iteration preserves what is still to be decoded, and moves on or lowers the count |
| `EnvKey.DecodeEnvKey` | c/envService.c:104-158 | terminates, stays in its buffer, and equals the tokenisation into escapes, maximal runs and plain characters |
| `EnvKey.PendingCounts` | c/envService.c:118-141 | counting underscores one by one amounts to the whole run |
| `EnvKey.RoundTrip` | c/envService.c:91-158 | decoding undoes the encoder, for every key |
| `EnvKey.EncodedDecodes` | c/envService.c:91-158 | the same for text that follows a run of underscores |
| `DatasetPath.PrintParses` | c/datasetjson.c:897-1013 | printed well-formed names are valid and parse back to themselves |
| `DatasetPath.ParsePrints` | c/datasetjson.c:897-981 | every valid path is the print of well-formed names |
| `DatasetPath.ValidIffPrinted` | c/datasetjson.c:897-981 | a path is accepted if and only if it prints a name of 1 to 44 characters with an optional member of 1 to 8 |
| `DatasetPath.FillField` | c/datasetjson.c:987-1013 | a field ends as the upper-cased, blank-padded name |
| `DatasetPath.ToUpperIsPlace` | c/datasetjson.c:1003-1013 | the k-th small letter becomes the k-th capital one, and every other character stays |
| `DatasetPath.Extract` | c/datasetjson.c:983-1015 | for a valid path every copy stays inside 44 and 8 bytes and the fields hold the names |
| `DatasetExtent.SizeIsExactModuloWord` | c/datasetjson.c:491-500 | however the steps wrap, the result is the true size reduced once |
| `DatasetExtent.TracksAreExact` | c/datasetjson.c:525-528 | the track count is right if and only if the extent does not end early and is below 2^32 bytes; the cylinder count is then right too |
| `DatasetExtent.LargeExtentWraps` | c/datasetjson.c:491-528 | an extent of 75810 tracks is reported as 12 |
| `DatasetExtent.ReversedExtentWraps` | c/datasetjson.c:491-528 | an extent that ends two tracks early is reported as 75796 tracks |
| `DatasetRecords.Stored` | c/datasetjson.c:1222-1235 | the stored record is the submitted one followed by blanks only, up to the record length if that is fixed, and one blank if it was empty |
| `DatasetRecords.StoredReadsBack` | c/datasetjson.c:1222-1235 | without trailing blanks the stored record is the submitted one |
| `DatasetRecords.AllReadBack` | c/datasetjson.c:1220-1247 | the same for the list of records |
| `DatasetRecords.LengthCheckMeans` | c/datasetjson.c:1168-1199 | a record passes if it fits without its trailing blanks, and fails with a byte above the blank beyond the record length |
| `DatasetRecords.FirstBadRecord` | c/datasetjson.c:1168-1199 | finds the first record with something above the blank beyond the record length, or none |
| `DatasetRecords.Taken` | c/datasetjson.c:1222-1235 | a record up to the record length is stored as it should be; what is stored of a longer one begins with its own first bytes |
| `DatasetRecords.WriteRecords` | c/datasetjson.c:1220-1247 | stores every record, overlong ones as far as the dataset takes them, and returns the digest of exactly what was stored |
| `DatasetRecords.ETagByRecord` | c/datasetjson.c:194-256 | the etag of a read by records is the digest of the bytes in order, empty records included |
| `DatasetRecords.ETagByChunk` | c/datasetjson.c:200-233 | the same however the read is chunked |
| `DatasetRecords.ETagsIgnoreBoundaries` | c/datasetjson.c:1210-1272 | lists with equal etags are stored alike if and only if their stored records agree in length one by one |
| `DatasetRecords.ETagsIdentifyRecords` | c/datasetjson.c:1210-1272 | etags identify all record lists if and only if records have fixed length or the record length is 1 |
| `DatasetRecords.FixedETagsIdentifySubmissions` | c/datasetjson.c:1210-1272 | in fixed-length datasets two updates get one etag if and only if they submitted the same records up to trailing blanks |
| `DatasetRecords.OneRecordAsTwo` | c/datasetjson.c:1210-1272 | with variable length one record of two bytes has the etag of two records of one byte |
| `DatasetProtocol.StepKeeps` | c/datasetjson.c:1280-1371 | every step of every client keeps the protocol's invariant |
| `DatasetProtocol.RunKeeps` | c/datasetjson.c:1280-1371 | the invariant holds after every interleaving of any number of clients |
| `DatasetProtocol.NoLostUpdates` | c/datasetjson.c:1340-1359 | every unforced write replaced exactly the bytes its etag had been issued for, by a read or a write |
| `DatasetProtocol.SecondWriterMustFindBase` | c/datasetjson.c:1340-1359 | two unforced writes with one etag both succeed only if the replaced bytes were put back in between |
| `DatasetProtocol.WriteIssuesItsRecords` | c/datasetjson.c:1220-1272 | the etag a write hands out is the digest of the records it stored |
| `DatasetProtocol.WriteThenRead` | c/datasetjson.c:296-326 | a read hands out the digest of what the last write left |
| `DatasetProtocol.ComparisonDecides` | c/datasetjson.c:1340-1359 | in every run a comparison approves exactly the etag of the dataset's bytes, and so an etag handed out earlier exactly if the dataset holds the bytes it was handed out for |
| `DatasetUpdate.UncontendedUpdateSucceeds` | c/datasetjson.c:1280-1371 | an update that is forced or carries the right etag, and meets nobody, goes through, stores its records and hands out their etag |
| `ProfileSearch.PrefixIsLeast` | c/securityService.c:2843-2844 | no name with the prefix sorts before the start name |
| `ProfileSearch.ResumesAt` | c/securityService.c:2920-2922 | starting at a trimmed stored name resumes exactly at that profile |
| `ProfileSearch.PageIsNext` | c/securityService.c:2893-2914 | what is processed of a page is the next part of the store, all the rest if the page is short, and at least one profile otherwise |
| `ProfileSearch.NextPageResumes` | c/securityService.c:2920-2922 | the next page starts exactly where the processing of this one ended |
| `ProfileSearch.PageContinues` | c/securityService.c:2895-2914 | filtering part after part is filtering the whole |
| `ProfileSearch.WithPrefixCounts` | c/securityService.c:2895-2914 | every profile with the prefix is found as often as it is stored, and no other |
| `ProfileSearch.WithPrefixSorted` | c/securityService.c:2895-2914 | what is found of a sorted store is sorted |
| `ProfileSearch.Append` | c/securityService.c:2901-2912 | doubling the buffer loses nothing |
| `ProfileSearch.FilterPage` | c/securityService.c:2895-2914 | adds exactly the page's profiles with the prefix, in order |
| `ProfileSearch.SearchPage` | c/securityService.c:2855-2924 | one round extends the searched part, strictly unless it was the last |
| `ProfileSearch.ProfilesByPrefix` | c/securityService.c:2827-2928 | for every sorted store, prefix and page size of at least 2 terminates and returns exactly the profiles with the prefix, or reports a failed service call |
| `UploadLog.TimeOutIsExact` | c/unixFileService.c:155-162 | with true times across any wraps, the test is right if and only if the idle time is below 2^32 seconds or has a large remainder (and the mirrored condition for a clock set back) |
| `UploadLog.TimeOutFails` | c/unixFileService.c:155-162 | a clock set back by one second times a session out, 2^32 idle seconds do not |
| `UploadLog.ViewSinceOpening` | c/unixFileService.c:415-673 | a session's user, transfer and identifier are those of the file's last opening, and it is live unless an event since has ended it |
| `UploadLog.PayloadSinceOpening` | c/unixFileService.c:568-673 | a session's payload is the join of the chunks accepted since the file's last opening |
| `UploadLog.TouchedLast` | c/unixFileService.c:586-587 | a session's time is that of the last request that reached it |
| `UploadLog.LeadsUnlessReissued` | c/unixFileService.c:394-403 | the identifier of a live session leads to its file if and only if its last issue was for that file |
| `UploadLog.IssuedForItsFile` | c/unixFileService.c:394-403 | up to 2^32 issues no identifier is issued twice |
| `UploadLog.LeadsSinceIssue` | c/unixFileService.c:394-403 | an identifier leads to a file exactly since its issue for it, up to its next issue or the end of a session through it |
| `UploadSessions.PruneKeeps` | c/unixFileService.c:405-413 | pruning keeps the invariant that tables, stamps, identifiers and files are what the history says |
| `UploadSessions.ServeKeeps` | c/unixFileService.c:675-705 | every PUT keeps that invariant |
| `UploadSessions.UploadsAreSound` | c/unixFileService.c:415-673 | over any PUTs at any times: completed files are the accepted payloads since the truncating open, no file is opened again while its session is live, every chunk comes from the opener |
| `UploadSessions.ExpiryComesFirst` | c/unixFileService.c:675-690 | every PUT of every run begins by expiring the timed-out sessions |
| `UploadSessions.ExpiryIsExact` | c/unixFileService.c:405-413 | after any PUTs, at any true time, the timed-out sessions are exactly the live ones that no request has reached for 600 seconds, each if and only if its idle time is one the stamps can tell |
| `UploadSessions.SteadyClockIsExact` | c/unixFileService.c:405-413 | if the clock does not go back and requests are at most 2^32 - 600 seconds apart, every request of every run expires exactly the sessions idle for at least 600 seconds, across any number of wraps |
| `UploadSessions.IdentifiersLeadHome` | c/unixFileService.c:568-584 | after any PUTs the identifier of a live session leads to it if and only if it has not been issued for another file since, and always up to 2^32 issues |
| `UploadSessions.StaleIdentifiers` | c/unixFileService.c:568-584 | an identifier reaches a session it was not given to if and only if it was issued for the same file, no session was ended through it since, and the file was opened again |
| `UploadSessions.StaleIdentifierAccepted` | c/unixFileService.c:405-413 | such a run: a session expires, the file is opened again, and the old identifier's chunk goes into the new session |
| `UploadRequests.OpeningIsExact` | c/unixFileService.c:415-549 | after any PUTs one asking for a session opens the file exactly if a transfer type was parsed, the file exists and may be overwritten or can be created, no session on it is live after the expiry and the open succeeds; it gets the next identifier exactly if the tagging succeeds too |
| `UploadRequests.OpeningAndFiles` | c/unixFileService.c:415-549 | such a request empties exactly the file it opens or creates and changes no other |
| `UploadRequests.ChunkIsExact` | c/unixFileService.c:568-673 | after any PUTs a chunk counts as a request for exactly the live session its identifier leads to, is accepted exactly if user, parameter and write are right, completes the session exactly if it is then the last one, and closes it exactly if it was heard and not accepted |
| `UploadRequests.ChunkAndFiles` | c/unixFileService.c:568-673 | an accepted chunk is appended to its file, one that is not heard changes nothing, and no chunk changes another file |
| `UploadTracker.Tracker.RemoveSessionTimeOuts` | c/unixFileService.c:405-413 | the loop prunes as specified |
| `UploadTracker.Tracker.AssignSessionId` | c/unixFileService.c:415-549 | opens, refuses or takes back a session as specified |
| `UploadTracker.Tracker.AddSessionId` | c/unixFileService.c:394-403 | the counter's value becomes the identifier and the counter moves on, modulo 2^32 |
| `UploadTracker.Tracker.DoChunking` | c/unixFileService.c:568-673 | stamps the session first, then accepts, refuses, completes or fails the chunk as specified |
| `UploadTracker.Tracker.ServePut` | c/unixFileService.c:675-705 | cuts the time to a word, prunes and then serves one PUT as specified |

## Left out

- DatasetProtocol.NoLostUpdates: takes allocation and release of the dataset as atomic steps, the digest as injective, and updates with records no longer than the record length; a failing digest service is not modelled.
- UploadSessions.ServeKeeps: takes PUT requests one at a time, because the duplicate check and the insertion are separate critical sections.
- UploadTracker.Tracker.AssignSessionId: files are not deleted or changed from outside during an upload, and user names fit their eight characters.
- ProfileSearch.ProfilesByPrefix: the store does not change during a search, and the page size (1000 in the code) is a parameter of at least 2.
- ZisLifecycleProofs.RouterSafe: a router call reads storage in one atomic look; memory ordering inside a call is not modelled, nor are data areas that services keep in their anchors.
- ZisDeploy.LoadConfig: the logical PARMLIB services are a map from member names to records, and the line numbers kept for messages are left out.
- ZisParm.ParmSet.PutValue: the linked list is a sequence, and failing allocations are left out.
- The calls of init, term and command routines are outcomes of steps; their own effects are not modelled.
- The creation of plug-in and service descriptors (c/zis/plugin.c) would add only easy members.
- HTTP handling, JSON, logging, VSAM datasets, the remaining ZSS services and the dynamic-linkage stubs.
- The decoding of extent fields from the volume label, and secondary space.
