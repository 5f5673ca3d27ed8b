# AIDOCS: verified models of the dashboard panels, the installer and the host plugin

Dafny models of the parts of the repository that hold state machines, protocols and
algorithms, and proofs about them. `dafny verify dfyconfig.toml` checks the whole project.

| file | component |
|---|---|
| `Text.dfy`, `Sorting.dfy`, `StringOrder.dfy` | trimming, decimals, splitting, the stable sort and the order of strings, shared |
| `AnchorAdmin.dfy`, `AnchorAdminRuns.dfy`, `AnchorAdminForm.dfy` | the asynchronous anchor-admin panel, what its runs keep, and its requests and messages against the history of edits |
| `Installer.dfy` | the three-way file installer and its manifest |
| `OutputGuard.dfy` | the output guard over heap objects and its in-place write-back |
| `HookState.dfy` | the plugin's per-session maps |
| `MemoryGraph.dfy`, `GraphSignature.dfy` | graph exploration with its two kinds of clicks, and the refresh signature |
| `CommandPalette.dfy` | fuzzy scoring, ranking and grouping |
| `TomlLexer.dfy` | the line tokenizer |
| `BashPolicy.dfy`, `JudgeOverride.dfy` | the optimistic policy grid and the override editor |
| `ChatLog.dfy`, `TaskRouting.dfy` | the chat logs of the scopes and the one on screen, and the task-routing codec |

What updates fields in place in the source is a class here whose methods do the same updates,
and each method is proved equal to a step of a function on values (`View()` gives the value).
Runs, invariants and the laws that span several operations are lemmas about those functions.

How outside parts appear:

- Server answers, errors and the operator's answers to confirmations are parameters, so every
  statement holds for all of them and in every order.
- SHA-256 and the secret redactor are function parameters with no assumed property; where a
  statement speaks of content, it speaks of hashes and no absence of collisions is assumed.
- Files are maps from names to bytes. A source directory is a sorted listing of distinct names.
- A React render, an effect, an event handler and the continuation after an await are one step
  each. React runs the effects of one render before it starts another; nothing else about
  their timing is assumed, so a handler may run between a render and its effects. The viewed
  project is set in the render of the dashboard that also renders the panel
  (apps/aidocs-dashboard/src/useDashboardData.ts:29-37), so the two are one step.
- Floating-point scores are real numbers. `charCodeAt` yields numbers below 65536.

Where the code and its comments differ, the code is followed: the installer's docstring says a
conflict is not overwritten (core/scripts/install_manifest.py:12), the code backs the file up
and overwrites it (lines 115-121).

Results that are not what one would expect from the comments:

- A request begun between a project switch and the reset effect it schedules, and still in flight
  when that effect runs, loses its busy flag to it (`SettledStep`, `BusyInRunsIff`). From there one
  preview can be applied twice (`HastyRunAppliesTwice`), by pressing Apply on a plan that is already
  on its way and in no other manner (`OnceStep`, `OnceInRunsIff`).
- Beside a string `text` every other text of the object reaches the host raw and uncapped
  (`SiblingStaysRaw`), against the comment at core/plugins/aidocs.js:115-118; `EveryTextIsGuardedIff`
  is the exact condition under which no text does.
- A file that already matched its source before the manifest knew it is never recorded, so the
  next upstream change to it is a conflict (`UnrecordedMatchConflicts`).
- A click on the canvas applies the search text of the render that loaded the network: after a
  search, a refresh and clearing the box it hides nodes that are shown (`StaleSearchHides`);
  `ClickHidesNothingIff` and `CanvasNeverHidesIff` say when it does not.
- The graph signature does not see where one text ends and the next begins
  (`BoundariesAreNotSigned`).
- An override of a command whose name has a colon, and the name of a row's field after it, is
  compared with another command's cell (`CellsSurviveIff`); names added in the panel cannot contain
  a colon (`ListedStep`).
- The chat has one log on screen for all scopes, and a handler or poll of an earlier render writes
  it under that render's scope: a late answer after a switch mixes the two logs
  (`LateLinesMixLogs`). `AnyAppendIsRightIff` and `RightInRunsIff` say exactly when the logs stay
  right.
- Two chat scopes can share a key when a project path contains `|` (`ScopeKeysMeetIff`).

## Model

| member | source | states |
|---|---|---|
| AnchorAdmin.AnchorPanel.constructor | apps/aidocs-dashboard/src/AnchorAdminPanel.tsx:42-65 | a mounted panel starts empty in its scope, with the mount effect pending |
| AnchorAdmin.AnchorPanel.RenderPanel | apps/aidocs-dashboard/src/AnchorAdminPanel.tsx:51-65 | a render takes over the viewed project and root, replaces the visit exactly when its scope differs and schedules the reset exactly when the scope changed; everything held stays |
| AnchorAdmin.AnchorPanel.ResetEffect | apps/aidocs-dashboard/src/AnchorAdminPanel.tsx:60-65 | rows, plan, notice and busy are cleared, requests in flight stay |
| AnchorAdmin.AnchorPanel.ChangeTarget | apps/aidocs-dashboard/src/AnchorAdminPanel.tsx:140-143 | the target changes and the plan goes |
| AnchorAdmin.AnchorPanel.ChangeOp | apps/aidocs-dashboard/src/AnchorAdminPanel.tsx:154-157 | the operation changes and the plan goes |
| AnchorAdmin.AnchorPanel.ChangeTier | apps/aidocs-dashboard/src/AnchorAdminPanel.tsx:165-173 | where the operation needs a tier, the tier changes and the plan goes |
| AnchorAdmin.AnchorPanel.Begin | apps/aidocs-dashboard/src/AnchorAdminPanel.tsx:67-71 | starting any operation sets busy and clears the notice |
| AnchorAdmin.AnchorPanel.PressList | apps/aidocs-dashboard/src/AnchorAdminPanel.tsx:81-88 | one list request of the current visit and scope for the trimmed target joins those in flight |
| AnchorAdmin.AnchorPanel.PressPreview | apps/aidocs-dashboard/src/AnchorAdminPanel.tsx:90-98 | the plan goes and one preview request bound to scope, target, op and tier joins those in flight |
| AnchorAdmin.AnchorPanel.PressApply | apps/aidocs-dashboard/src/AnchorAdminPanel.tsx:109-118 | the current plan is sent only with a fingerprint and only to the project it is labelled with; otherwise nothing is sent and the panel is free again |
| AnchorAdmin.AnchorPanel.Continue | apps/aidocs-dashboard/src/AnchorAdminPanel.tsx:84-97 | what a live answer to each kind of request changes |
| AnchorAdmin.AnchorPanel.Receive | apps/aidocs-dashboard/src/AnchorAdminPanel.tsx:67-79 | an answer leaves flight, and changes the panel only if its visit is still the current one |
| AnchorAdmin.AnchorPanel.ReceiveError | apps/aidocs-dashboard/src/AnchorAdminPanel.tsx:72-79 | an error shows its text and frees the panel only if its visit is still the current one |
| AnchorAdminRuns.ScopedStep | apps/aidocs-dashboard/src/AnchorAdminPanel.tsx:51-127 | every step keeps: rows, plan and notice belong to the current visit and scope, or until the pending reset to an earlier visit of another scope; requests of the current visit carry its scope |
| AnchorAdminRuns.SafeInEveryRun | apps/aidocs-dashboard/src/AnchorAdminPanel.tsx:51-127 | in every run, A to B to A included, what is held was written by the current visit, what is shown always was, and every apply message repeats one answered preview of its own visit made for the project it goes to |
| AnchorAdminRuns.SettledStep | apps/aidocs-dashboard/src/AnchorAdminPanel.tsx:60-79 | busy exactly when one request of the current visit is in flight, and not off under one before a due reset, is kept by a step if and only if the step is not a reset that fires on such a request |
| AnchorAdminRuns.BusyInRunsIff | apps/aidocs-dashboard/src/AnchorAdminPanel.tsx:60-79 | in every run, busy is exact in all states with no reset due if and only if no reset of the run fires on a request of the current visit |
| AnchorAdminRuns.FaithfulStep | apps/aidocs-dashboard/src/AnchorAdminPanel.tsx:90-118 | every step keeps that each apply message carries target, op, tier and fingerprint of one answered preview |
| AnchorAdminRuns.OnceStep | apps/aidocs-dashboard/src/AnchorAdminPanel.tsx:109-125 | a step keeps that no plan is applied twice or by two requests in flight if and only if it is not a press of Apply on a plan already on its way |
| AnchorAdminRuns.OnceInRunsIff | apps/aidocs-dashboard/src/AnchorAdminPanel.tsx:109-125 | in every run, each preview has at most one apply, answered or in flight, if and only if Apply is never pressed on a plan already on its way |
| AnchorAdminRuns.SettledNeverSendsAgain | apps/aidocs-dashboard/src/AnchorAdminPanel.tsx:67-79 | while busy is exact no press sends a plan that is already on its way |
| AnchorAdminRuns.OnceInUncutRuns | apps/aidocs-dashboard/src/AnchorAdminPanel.tsx:60-125 | in every run in which no reset fires on a request of the current visit no preview is successfully applied twice |
| AnchorAdminRuns.AskedStep | apps/aidocs-dashboard/src/AnchorAdminPanel.tsx:90-97 | every step keeps that previews are asked of the project they are labelled with |
| AnchorAdminRuns.AppliesWhereAsked | apps/aidocs-dashboard/src/AnchorAdminPanel.tsx:109-118 | in every run every apply goes to the project that answered its preview, and the second check of the project never stops one |
| AnchorAdminRuns.LateAnswerIsIgnored | apps/aidocs-dashboard/src/AnchorAdminPanel.tsx:68-79 | a late answer or error changes nothing on the panel |
| AnchorAdminRuns.PreviewIsOffered | apps/aidocs-dashboard/src/AnchorAdminPanel.tsx:90-107 | an answered preview is shown, offered to Apply and leaves the panel free |
| AnchorAdminRuns.EditWithdrawsOffer | apps/aidocs-dashboard/src/AnchorAdminPanel.tsx:100-107 | after an edit of the target made meanwhile it is offered only if the trimmed target is the same |
| AnchorAdminRuns.ApplySpendsThePlan | apps/aidocs-dashboard/src/AnchorAdminPanel.tsx:109-125 | an answered apply spends the plan, shows its notice, lists the target anew and frees the panel |
| AnchorAdminRuns.HastyRunIsNotBusy | apps/aidocs-dashboard/src/AnchorAdminPanel.tsx:60-71 | a run with a project switch whose reset fires on a preview, after which that is in flight, no reset is due and busy is off |
| AnchorAdminRuns.HastyRunAppliesTwice | apps/aidocs-dashboard/src/AnchorAdminPanel.tsx:60-125 | its continuation in which one preview is successfully applied twice |
| AnchorAdminForm.FormIsLastEdits | apps/aidocs-dashboard/src/AnchorAdminPanel.tsx:42-56 | in every run target, operation, tier and project are those last chosen or rendered, or the defaults |
| AnchorAdminForm.AsksForTheForm | apps/aidocs-dashboard/src/AnchorAdminPanel.tsx:81-98 | in every run a list asks for the trimmed target last typed and a preview for all that was last chosen; a blank target asks nothing |
| AnchorAdminForm.ApplySendsTheForm | apps/aidocs-dashboard/src/AnchorAdminPanel.tsx:100-118 | in every run a press of Apply sends one message exactly if the plan has a fingerprint, with the target, operation and tier last chosen and the project last rendered |
| AnchorAdminForm.OnlyApplySends | apps/aidocs-dashboard/src/AnchorAdminPanel.tsx:109-118 | no other step sends an apply message |
| AnchorAdminForm.OfferFollowsTheForm | apps/aidocs-dashboard/src/AnchorAdminPanel.tsx:90-107 | a preview answered after any edits is offered to Apply if and only if it has changes and the trimmed target, operation and tier in force are those of its press |
| AnchorAdminForm.OfferNeedsANewPreview | apps/aidocs-dashboard/src/AnchorAdminPanel.tsx:60-65 | after an edit, a press of Preview or a reset Apply stays disabled in any run until another preview is answered |
| AnchorAdminForm.ListIsShown | apps/aidocs-dashboard/src/AnchorAdminPanel.tsx:81-88 | an answered list is shown, drops the plan and frees the panel |
| AnchorAdminForm.ErrorIsShown | apps/aidocs-dashboard/src/AnchorAdminPanel.tsx:72-79 | an error of the current visit is shown, frees the panel and changes nothing else |
| AnchorAdminForm.SwitchStartsAVisitIff | apps/aidocs-dashboard/src/AnchorAdminPanel.tsx:14-16 | a render starts a visit and schedules the reset exactly when root and viewed project changed, but for pairs that read the same once joined |
| Installer.DecisionMatrix | core/scripts/install_manifest.py:56-91 | which action each combination of source, installed and current hash gives, both ways; the last return is unreachable |
| Installer.CategoryInstaller.LoadManifest | core/scripts/install_manifest.py:41-48 | a missing or unreadable manifest is an empty one |
| Installer.CategoryInstaller.PlanFileInstall | core/scripts/install_manifest.py:56-91 | the early-return plan is the matrix decision |
| Installer.CategoryInstaller.ExecuteFileInstall | core/scripts/install_manifest.py:94-134 | install writes source and manifest, update and conflict also save the old content first, skips write nothing |
| Installer.CategoryInstaller.InstallCategory | core/scripts/install_files.py:25-47 | the double loop with one load and one save installs every visited file in order, reports one line each, and saves the manifest |
| Installer.KeyInjective | core/scripts/install_files.py:41 | manifest keys of one category tell names apart |
| Installer.OtherCategoriesUntouched | core/scripts/install_files.py:41 | a run leaves the manifest entries of other categories alone |
| Installer.ShippedExtensionsAreSeparate | core/scripts/install_files.py:60-76 | in the four shipped extension lists no extension ends another or a backup name |
| Installer.VisitedOnce | core/scripts/install_files.py:36-44 | every name is processed at most once, and no processed name is the backup of another |
| Installer.EachFileAsIfAlone | core/scripts/install_files.py:36-44 | a run does to each visited file what installing it alone on the initial disk would do |
| Installer.LinesReportPlans | core/scripts/install_files.py:36-44 | the status lines are, in the order visited, the plans made on the initial disk |
| Installer.VisitedInOrder | core/scripts/install_files.py:36-37 | files of one extension are visited in the order of the listing |
| Installer.ContentIsKept | core/scripts/install_manifest.py:107-121 | content that was in a target before a run is after it in the target or in its backup |
| Installer.OtherPathsUntouched | core/scripts/install_files.py:36-44 | a path that is neither a visited name nor its backup is left alone |
| Installer.RunSettles | core/scripts/install_manifest.py:63-91 | after a run each target has its source's hash, or the manifest has it and the user's content was kept |
| Installer.SecondRunChangesNothing | core/scripts/install_files.py:36-46 | a second run with nothing changed leaves files, backups and manifest as they were |
| Installer.ManifestIsHonest | core/scripts/install_manifest.py:101-121 | over any history each manifest entry is the hash of what the installer last wrote there |
| Installer.OverwrittenOnlyAs | core/scripts/install_manifest.py:79-121 | existing content is replaced only after going to the backup, as an update only if it has the hash of what was last written, as a conflict otherwise |
| Installer.CustomisedSurvivesIff | core/scripts/install_manifest.py:82-89 | differing content survives a run if and only if the manifest entry is the source's hash |
| Installer.CustomisedSurvives | core/scripts/install_manifest.py:79-86 | with its source unchanged a recorded file keeps the user's content over any history that leaves it and the manifest alone |
| Installer.RunKeepsOrWrites | core/scripts/install_manifest.py:56-121 | all that a run does to a visited file: it keeps one that is there if the manifest has the source's hash, or has nothing and the file has it; otherwise the source is written and recorded and what was there backed up |
| Installer.EditAfterInstallSurvives | core/scripts/install_manifest.py:101-105 | a missing file that was installed and then edited keeps the edit over any such history |
| Installer.UneditedIsUpdated | core/scripts/install_manifest.py:82-83 | left unedited, its next upstream change is planned as an update, and the run brings it and backs the old content up |
| Installer.BackupIsOneSlot | core/scripts/install_manifest.py:115-120 | a second conflict replaces the first one's backup |
| Installer.UnrecordedMatchConflicts | core/scripts/install_manifest.py:73-77 | a file that matched without an entry conflicts at the next upstream change |
| OutputGuard.CappedIsBounded | core/plugins/aidocs.js:119-126 | whatever string is capped, the result has at most 262225 characters |
| OutputGuard.CappedAlikeIff | core/plugins/aidocs.js:119-126 | two texts are capped alike if and only if they are equal or have the same length and the same first 262144 characters |
| OutputGuard.ShortTextComesOut | core/plugins/aidocs.js:128-133 | a text of at most 262144 characters comes out as the redactor's non-empty answer, and without one as it is |
| OutputGuard.LongTextIsCut | core/plugins/aidocs.js:121-133 | a longer one without an answer comes out as its first 262144 characters and a note with the number of the others |
| OutputGuard.DroppedTextIsNeverRead | core/plugins/aidocs.js:121-133 | characters beyond the cap cannot influence the guarded text |
| OutputGuard.GuardKeepsShape | core/plugins/aidocs.js:128-147 | the guard keeps keys, lengths, nesting and every non-text value |
| OutputGuard.EveryTextIsGuardedIff | core/plugins/aidocs.js:115-147 | no text of a value gets past the guard, whatever the guard does, if and only if the guard sees them all, and if and only if every string `text` is the only text of its object |
| OutputGuard.SiblingStaysRaw | core/plugins/aidocs.js:137-142 | a text beside a string `text` comes out unchanged, of any length and for any guard |
| OutputGuard.OnlySeenTextsChange | core/plugins/aidocs.js:128-147 | for any value the texts that come out are those that went in with exactly the seen ones replaced by their guarded forms, none lost or doubled |
| OutputGuard.SecretIsLeftIff | core/plugins/aidocs.js:128-147 | with a redactor whose answers are free of a secret, the guarded value contains it if and only if a text the guard does not see does |
| OutputGuard.NoSecretIsLeft | core/plugins/aidocs.js:128-147 | so none is left where every string `text` is the only text of its object |
| OutputGuard.QuietRedactorChangesNothing | core/plugins/aidocs.js:128-147 | with texts within the cap and a redactor without an answer for them the value stays as it is |
| OutputGuard.RedactorGetsOnlyCappedTexts | core/plugins/aidocs.js:128-147 | the result depends on the redactor only at capped forms of texts the guard sees |
| OutputGuard.RedactorGetsNothingLonger | core/plugins/aidocs.js:115-147 | redactors that agree on strings of at most 262225 characters guard every value alike: no longer string reaches one |
| OutputGuard.Guard | core/plugins/aidocs.js:128-147 | builds a value with the guarded deep value and changes no existing object |
| OutputGuard.GuardTextOf | core/plugins/aidocs.js:137-142 | the object itself when its text needs no change, else a shallow copy with the guarded text |
| OutputGuard.GuardFields | core/plugins/aidocs.js:144-146 | a copy of the object whose values are guarded one by one |
| OutputGuard.ApplyInPlace | core/plugins/aidocs.js:157-175 | same reference back with the guarded elements or exactly the guarded properties, for any two values; on a shape mismatch the host stays and the guarded value is returned |
| OutputGuard.GuardHostOutput | core/plugins/aidocs.js:149-175 | guarding and writing back: same reference, guarded deep value, of the objects that were there only the host's own changed, and no secret left under the conditions of NoSecretIsLeft |
| HookState.Hooks.OnChatMessage | core/plugins/aidocs.js:243-334 | the branches of the prompt handler and what each leaves in the maps |
| HookState.Hooks.GiveContext | core/plugins/aidocs.js:297-329 | the once-per-session blocks, the stored context and the classification |
| HookState.Hooks.OnCommandBefore | core/plugins/aidocs.js:440-447 | the session's active command and metadata are set together |
| HookState.Hooks.OnCommandExecuted | core/plugins/aidocs.js:233-236 | and deleted together |
| HookState.Hooks.OnCompacting | core/plugins/aidocs.js:345-358 | a compaction makes the session's next prompt its first again |
| HookState.Hooks.OnAdvisory | core/plugins/aidocs.js:540-546 | an advisory not yet in the context is put before it |
| HookState.Hooks.OnEditDone | core/plugins/aidocs.js:583-588 | a context without the reminder gets it appended |
| HookState.InEveryRun | core/plugins/aidocs.js:216-334 | in every run a classified session has a context, and each block was injected at most once since the session's last compaction |
| HookState.InjectsExactlyWhenFirst | core/plugins/aidocs.js:297-317 | a prompt injects a block if and only if it is the first with a context since the last compaction and the block is there |
| HookState.MarksStandForBlocks | core/plugins/aidocs.js:297-320 | in every run the context a prompt leaves has each block under its heading exactly if that block was marked as injected, and nothing else beside what was built |
| HookState.InjectedBlockStands | core/plugins/aidocs.js:297-588 | an injected block stands in the session's context until its next prompt, through advisories, reminders, commands and compactions |
| HookState.ClassificationAfterPrompt | core/plugins/aidocs.js:243-334 | after a prompt a session is classified exactly if it was a managed one with a context and an action kind, as that kind; `/aidocs` leaves it |
| HookState.ClassificationStands | core/plugins/aidocs.js:216-220 | and stays so until its next prompt |
| HookState.NoContextIsLeft | core/plugins/aidocs.js:243-334 | a prompt that is blocked or has no context leaves none |
| HookState.ActiveCommand | core/plugins/aidocs.js:440-447 | a started command is the active one until another starts or one ends |
| HookState.EndedCommand | core/plugins/aidocs.js:233-236 | and none is after it ended |
| HookState.AidocsOpens | core/plugins/aidocs.js:282-291 | typing `/aidocs` with no active command makes it the active one and leaves its notice; nothing is injected |
| HookState.AdviceStands | core/plugins/aidocs.js:540-546 | an advisory is put before the context and stands there until the next prompt |
| HookState.ReminderStands | core/plugins/aidocs.js:583-588 | and the reminder after it |
| HookState.SessionsAreIsolated | core/plugins/aidocs.js:216-220 | an event of one session changes no entry of another |
| HookState.OnlyOwnEventsMatter | core/plugins/aidocs.js:222-334 | after any run a session's entries are those of a run of its own events alone |
| HookState.AdvisoryIsNotRepeated | core/plugins/aidocs.js:541-546 | repeating an advisory adds nothing |
| HookState.ReminderIsNotRepeated | core/plugins/aidocs.js:583-588 | repeated edits add one reminder |
| MemoryGraph.BuildAdjacency | apps/aidocs-dashboard/src/MemoryPage.tsx:225-230 | the lists pushed in one pass over the edges hold, per id, the other ends in edge order |
| MemoryGraph.EndsAreLinked | apps/aidocs-dashboard/src/MemoryPage.tsx:225-229 | an id is in another's list exactly when an edge joins them, in either direction |
| MemoryGraph.EndsCount | apps/aidocs-dashboard/src/MemoryPage.tsx:225-229 | and as often as edges join the two |
| MemoryGraph.MemoryPage.Load | apps/aidocs-dashboard/src/MemoryPage.tsx:216-292 | a load rebuilds the lists, keeps the revealed ids that are nodes, flags nodes without regard to the search, and gives the network the click handler of the render that asked for it; what that leaves shown is ShownAfterStep and RevealedStays |
| MemoryGraph.MemoryPage.RevealNeighbors | apps/aidocs-dashboard/src/MemoryPage.tsx:166-170 | a click reveals the node and everything linked to it |
| MemoryGraph.MemoryPage.ApplyVisibility | apps/aidocs-dashboard/src/MemoryPage.tsx:146-164 | a node is hidden exactly when it is neither memory nor revealed, or does not match the given search |
| MemoryGraph.MemoryPage.OnCanvasClick | apps/aidocs-dashboard/src/MemoryPage.tsx:283-285 | a click on a drawn node reveals, selects and applies the search the network was loaded with |
| MemoryGraph.MemoryPage.OnSidebarClick | apps/aidocs-dashboard/src/MemoryPage.tsx:520-527 | a click in the sidebar reveals, selects and applies the text now in the box |
| MemoryGraph.MemoryPage.OnType | apps/aidocs-dashboard/src/MemoryPage.tsx:314-316 | a change of the box applies the new text to every node |
| MemoryGraph.MemoryPage.OnRefresh | apps/aidocs-dashboard/src/MemoryPage.tsx:297-312 | a refresh tears the network down and remembers the text in the box for the next one |
| MemoryGraph.ShownAfterStep | apps/aidocs-dashboard/src/MemoryPage.tsx:146-316 | what is shown after each step: memories and all revealed by then, filtered by the search that a click or the box applies, unfiltered after a load |
| MemoryGraph.SidebarOffers | apps/aidocs-dashboard/src/MemoryPage.tsx:286-290 | the sidebar offers the neighbours of the node clicked last, none after a deselection |
| MemoryGraph.RevealedStays | apps/aidocs-dashboard/src/MemoryPage.tsx:220-224 | a revealed node stays revealed over any run, refreshes included |
| MemoryGraph.LoadKeepsTheRefreshText | apps/aidocs-dashboard/src/MemoryPage.tsx:210-312 | a new network applies the text that was in the box at the last refresh, whatever happened while it loaded |
| MemoryGraph.AfterAnyRun | apps/aidocs-dashboard/src/MemoryPage.tsx:146-316 | after any canvas and sidebar clicks, searches, refreshes and failed loads, every shown node is connected to a memory |
| MemoryGraph.ConnectedCanBeRevealed | apps/aidocs-dashboard/src/MemoryPage.tsx:166-207 | from any state at all a connected node can be shown: clear the box, refresh, click along its path |
| MemoryGraph.ClicksReveal | apps/aidocs-dashboard/src/MemoryPage.tsx:166-207 | with a blank box and the memories shown, clicks alone show it, whatever search the network was loaded with |
| MemoryGraph.RevealableIffConnected | apps/aidocs-dashboard/src/MemoryPage.tsx:9-13 | on a fresh page finitely many clicks can show a node if and only if it is connected to a memory, whatever was typed during the first load |
| MemoryGraph.ClickHidesNothingIff | apps/aidocs-dashboard/src/MemoryPage.tsx:146-170 | a click hides nothing if and only if all that is shown matches the search that click applies |
| MemoryGraph.CanvasNeverHidesIff | apps/aidocs-dashboard/src/MemoryPage.tsx:283-285 | no run of canvas clicks hides anything if and only if all that is shown matches the search the network was loaded with |
| MemoryGraph.NothingIsHiddenAgain | apps/aidocs-dashboard/src/MemoryPage.tsx:166-207 | mixed clicks only add to what is shown while it all matches that search and the box has it too |
| MemoryGraph.StaleSearchHides | apps/aidocs-dashboard/src/MemoryPage.tsx:210-312 | a run, search, refresh, clear the box, after which a click on either of two shown memories hides one |
| MemoryGraph.PruningIsInvisible | apps/aidocs-dashboard/src/MemoryPage.tsx:220-224 | the pruning of a refresh neither hides nor reveals a node of the new graph |
| GraphSignature.ToInt32 | apps/aidocs-dashboard/src/MemoryPage.tsx:86 | `\| 0` gives the 32-bit signed integer congruent to its operand (ECMA-262 section 7.1.6) |
| GraphSignature.Mix | apps/aidocs-dashboard/src/MemoryPage.tsx:85-87 | the running hash stays a 32-bit integer congruent to the polynomial; intermediates stay within the exact integers |
| GraphSignature.GraphSignature | apps/aidocs-dashboard/src/MemoryPage.tsx:81-91 | the loop's hash is 5381 times 33 to the n plus the weighted sum of all mixed units, modulo 2^32 |
| GraphSignature.SameSignatureIff | apps/aidocs-dashboard/src/MemoryPage.tsx:90 | equal signatures if and only if equal counts and congruent polynomials |
| GraphSignature.NodeChangeIsNoticed | apps/aidocs-dashboard/src/MemoryPage.tsx:88 | one unit changed in the id, type or label of any node changes the signature |
| GraphSignature.EdgeChangeIsNoticed | apps/aidocs-dashboard/src/MemoryPage.tsx:89 | and in an end or the type of any edge |
| GraphSignature.SmallHashes | apps/aidocs-dashboard/src/MemoryPage.tsx:84-86 | the hash of nothing, and of one unit |
| GraphSignature.Tick | apps/aidocs-dashboard/src/MemoryPage.tsx:326-339 | an unchanged payload never triggers a rebuild; exactly when one does |
| GraphSignature.BoundariesAreNotSigned | apps/aidocs-dashboard/src/MemoryPage.tsx:88-89 | moving a unit from the end of one node's label to the start of the next id changes the payload and not the signature |
| CommandPalette.Scan | apps/aidocs-dashboard/src/CommandPalette.tsx:69-78 | the greedy scan succeeds if and only if the needle is a subsequence |
| CommandPalette.FuzzyScore | apps/aidocs-dashboard/src/CommandPalette.tsx:60-79 | the score of blank, equal, prefix, substring, subsequence and other haystacks |
| CommandPalette.PositiveIffSubsequence | apps/aidocs-dashboard/src/CommandPalette.tsx:60-79 | a score is positive if and only if the trimmed needle is a subsequence; at most 500 unless equal |
| CommandPalette.ScoreOfFirstPlace | apps/aidocs-dashboard/src/CommandPalette.tsx:66-68 | where the query first stands decides the score: alone 1000, at the start 500, later 200 and a hundred divided by the place counted from one |
| CommandPalette.EarlierScoresMore | apps/aidocs-dashboard/src/CommandPalette.tsx:68 | so the earlier it stands the more it scores |
| CommandPalette.ScatteredScores | apps/aidocs-dashboard/src/CommandPalette.tsx:69-78 | a text that does not contain the query scores 50 if the query is scattered over it in order, and else nothing |
| CommandPalette.RankedKeepsMatches | apps/aidocs-dashboard/src/CommandPalette.tsx:105-123 | a command is kept if and only if the query is a subsequence of its label, subtitle or id; scores fall |
| CommandPalette.RankedIsPermutation | apps/aidocs-dashboard/src/CommandPalette.tsx:105-122 | for any kind filter the ranked list has each positively scored command of the kind as often as the list, and no other |
| CommandPalette.BestTextCounts | apps/aidocs-dashboard/src/CommandPalette.tsx:111-117 | a row scores the best of its label, seven tenths of its id and half of its subtitle |
| CommandPalette.BlankQueryKeepsTheList | apps/aidocs-dashboard/src/CommandPalette.tsx:106-109 | a blank query keeps the commands of the kind, all of them in their order |
| CommandPalette.RankedIsStable | apps/aidocs-dashboard/src/CommandPalette.tsx:121 | ranked commands of equal score stand in the order of the list |
| CommandPalette.ExactLabelsFirst | apps/aidocs-dashboard/src/CommandPalette.tsx:66-78 | labels equal to the query come before all others |
| CommandPalette.FillGroups | apps/aidocs-dashboard/src/CommandPalette.tsx:127-130 | each kind's list is the ranked list restricted to it, in order |
| CommandPalette.Grouped | apps/aidocs-dashboard/src/CommandPalette.tsx:126-135 | the groups hold exactly the ranked commands; each is non-empty, of one kind and in ranked order; actions, navigation and settings come in that order, once each |
| CommandPalette.GroupsPartition | apps/aidocs-dashboard/src/CommandPalette.tsx:127-134 | the kinds' lists together have every ranked command exactly as often |
| TomlLexer.KeywordMatches | apps/aidocs-dashboard/src/TomlCodeEditor.tsx:16-18 | when the keyword pattern matches, and that a match ends at a word boundary |
| TomlLexer.KeywordTakesMcp | apps/aidocs-dashboard/src/TomlCodeEditor.tsx:16 | the match takes " mcp" whenever that follows at a word's end, and nothing else beyond the keyword |
| TomlLexer.Spelling | apps/aidocs-dashboard/src/TomlCodeEditor.tsx:16 | the two words in either case, after at most one slash |
| TomlLexer.NumberMatches | apps/aidocs-dashboard/src/TomlCodeEditor.tsx:46-48 | when the number pattern matches, that it ends after a digit with no digit following, and takes a fraction |
| TomlLexer.NumberText | apps/aidocs-dashboard/src/TomlCodeEditor.tsx:46-48 | and is made of digits with at most one point that has digits around it |
| TomlLexer.PropertyMatches | apps/aidocs-dashboard/src/TomlCodeEditor.tsx:33-35 | when the property pattern matches and that it takes every name character |
| TomlLexer.HeadingMatches | apps/aidocs-dashboard/src/TomlCodeEditor.tsx:30-32 | when the heading pattern matches and that it ends with the first run of closing brackets |
| TomlLexer.StringStream.NextToken | apps/aidocs-dashboard/src/TomlCodeEditor.tsx:13-60 | one call moves the stream, gives the style and sets the string state as the first matching pattern says |
| TomlLexer.Next | apps/aidocs-dashboard/src/TomlCodeEditor.tsx:13-60 | every call makes progress and stays within the line |
| TomlLexer.StyleSays | apps/aidocs-dashboard/src/TomlCodeEditor.tsx:13-60 | for every style, exactly when a token gets it: in a string or not, first on the line or not, and what stands there |
| TomlLexer.StyleReaches | apps/aidocs-dashboard/src/TomlCodeEditor.tsx:13-60 | how far a token of each style reaches |
| TomlLexer.PiecesLoseNothing | apps/aidocs-dashboard/src/TomlCodeEditor.tsx:13-60 | the tokens concatenate to the line, none is empty, and there are at most as many as characters |
| TomlLexer.TokenReads | apps/aidocs-dashboard/src/TomlCodeEditor.tsx:13-60 | each token changes the string state as the quote automaton does on its characters, comments and headings at the start aside |
| TomlLexer.TokenizeLine | apps/aidocs-dashboard/src/TomlCodeEditor.tsx:13-60 | on any line from any state the loop ends, gives the line's tokens, and leaves the state of the quote automaton on the line after its skipped beginning |
| TomlLexer.UsuallyNothingIsSkipped | apps/aidocs-dashboard/src/TomlCodeEditor.tsx:26-32 | nothing is skipped if and only if the line does not start, outside a string, with a comment or heading |
| BashPolicy.BashPolicyPanel.Receive | apps/aidocs-dashboard/src/BashPolicyPanel.tsx:109-126 | the reconcile loop keeps exactly the overrides that differ from what it takes for the server's state |
| BashPolicy.BashPolicyPanel.HandleCellClick | apps/aidocs-dashboard/src/BashPolicyPanel.tsx:215-224 | an editable cell gets and saves the next state of what it shows |
| BashPolicy.BashPolicyPanel.HandleAddCommand | apps/aidocs-dashboard/src/BashPolicyPanel.tsx:156-177 | a valid new name becomes pending and allowed; blank, invalid and listed names change nothing |
| BashPolicy.KeyInjective | apps/aidocs-dashboard/src/BashPolicyPanel.tsx:129 | different cells have different overlay keys |
| BashPolicy.CellsSurviveIff | apps/aidocs-dashboard/src/BashPolicyPanel.tsx:109-132 | every cell of a command survives every reconciliation if and only if its name has no colon or no row field stands between the first colon and the next |
| BashPolicy.OverridesReconcileIff | apps/aidocs-dashboard/src/BashPolicyPanel.tsx:109-126 | every reconciliation keeps just the overrides of a command that disagree with its own row if and only if its name has no colon |
| BashPolicy.ReconcileIsInvisible | apps/aidocs-dashboard/src/BashPolicyPanel.tsx:109-132 | for names without a colon no displayed cell changes, and exactly the overrides stay that disagree with the policy's row or have none |
| BashPolicy.SnapshotStep | apps/aidocs-dashboard/src/BashPolicyPanel.tsx:109-126 | so a snapshot step leaves each such cell showing what it would over the new policy, with overrides only where they disagree |
| BashPolicy.MisreadLosesOverride | apps/aidocs-dashboard/src/BashPolicyPanel.tsx:114-116 | for every other name a policy and an override that is dropped, with the cell falling from allow to bubble |
| BashPolicy.ClicksCycle | apps/aidocs-dashboard/src/BashPolicyPanel.tsx:75-80 | n clicks show and save the three-cycle applied n times and move no other cell |
| BashPolicy.ThreeClicksComeBack | apps/aidocs-dashboard/src/BashPolicyPanel.tsx:75-80 | three clicks restore the displayed cell |
| BashPolicy.ClicksShow | apps/aidocs-dashboard/src/BashPolicyPanel.tsx:75-80 | n clicks on a cell move it n places along bubble, allow, deny |
| BashPolicy.PolicyIsShown | apps/aidocs-dashboard/src/BashPolicyPanel.tsx:128-132 | without overrides each cell shows its layer's state in the command's row |
| BashPolicy.UnknownShowsBubble | apps/aidocs-dashboard/src/BashPolicyPanel.tsx:128-132 | and bubble for a command without a row |
| BashPolicy.CommandsListed | apps/aidocs-dashboard/src/BashPolicyPanel.tsx:143-150 | the sorted list has every known or pending command once and no other |
| StringOrder.LessIff | apps/aidocs-dashboard/src/BashPolicyPanel.tsx:149 | the order of the list is by the first unit in which two names differ, shorter first |
| BashPolicy.ListedStep | apps/aidocs-dashboard/src/BashPolicyPanel.tsx:154-177 | every step keeps pending names distinct, valid and free of colons |
| BashPolicy.NoDuplicatesInAnyRun | apps/aidocs-dashboard/src/BashPolicyPanel.tsx:143-177 | over any run of adds, clicks and snapshots no command is listed twice |
| BashPolicy.AddedIff | apps/aidocs-dashboard/src/BashPolicyPanel.tsx:152-170 | a typed name is added exactly when it is new and spelled as the pattern asks; otherwise nothing changes |
| BashPolicy.AddedIsShown | apps/aidocs-dashboard/src/BashPolicyPanel.tsx:171-177 | an added command is listed at once and shows and saves allow |
| JudgeOverride.ByClass | apps/aidocs-dashboard/src/JudgeOverridePanel.tsx:72-79 | the map's lists are the rules of each class |
| JudgeOverride.JudgeOverridePanel.ToggleRule | apps/aidocs-dashboard/src/JudgeOverridePanel.tsx:93-121 | when the question is asked, when nothing is saved, and which list is saved |
| JudgeOverride.ToggleFlipsOneRule | apps/aidocs-dashboard/src/JudgeOverridePanel.tsx:111-120 | the saved list, echoed back, changes exactly the toggled rule |
| JudgeOverride.NoLockedRuleIsSaved | apps/aidocs-dashboard/src/JudgeOverridePanel.tsx:94-116 | a saved list names only unlocked rules of its family |
| JudgeOverride.SavedListIsSorted | apps/aidocs-dashboard/src/JudgeOverridePanel.tsx:120 | a saved list is sorted, names no rule twice and goes to the rule's family |
| JudgeOverride.ToggleTwiceRestores | apps/aidocs-dashboard/src/JudgeOverridePanel.tsx:112-120 | toggling a rule twice restores the list and every rule |
| JudgeOverride.AskedIff | apps/aidocs-dashboard/src/JudgeOverridePanel.tsx:95-110 | the question is asked if and only if the toggle would leave some class without its last active rule |
| JudgeOverride.StepFlipsIff | apps/aidocs-dashboard/src/JudgeOverridePanel.tsx:93-121 | an allowed click flips its rule unless some class would lose its last active rule and the answer is no; any other changes nothing |
| JudgeOverride.UnclassifiedCounts | apps/aidocs-dashboard/src/JudgeOverridePanel.tsx:75 | a rule without a class counts for the default one |
| JudgeOverride.NoClassIsLostWithoutYes | apps/aidocs-dashboard/src/JudgeOverridePanel.tsx:93-121 | over any run locked rules stay, and without a yes no class loses its last active rule |
| ChatLog.AppendMessages | apps/aidocs-dashboard/src/ConductorPage.tsx:310-328 | appending to the distillate of a stream gives the distillate of the longer stream, and a log free of repeats stays so |
| ChatLog.OnlyRepeatsAreDropped | apps/aidocs-dashboard/src/ConductorPage.tsx:315-319 | a message is dropped exactly when role and text are those of the last one |
| ChatLog.AppendBatches | apps/aidocs-dashboard/src/ConductorPage.tsx:310-328 | any batching gives the distillate of the whole stream |
| ChatLog.RepeatFreeStays | apps/aidocs-dashboard/src/ConductorPage.tsx:315-319 | a log free of adjacent repeats loses nothing |
| ChatLog.DistilledEnds | apps/aidocs-dashboard/src/ConductorPage.tsx:315-319 | a distillate is free of repeats and begins and ends as its stream |
| ChatLog.ConductorChat.GetOrCreate | apps/aidocs-dashboard/src/ConductorPage.tsx:257-270 | an existing scope is returned unchanged, a new one starts empty |
| ChatLog.ConductorChat.OnScopeChange | apps/aidocs-dashboard/src/ConductorPage.tsx:334-346 | the effect loads the log of the rendered scope, or none |
| ChatLog.ConductorChat.AppendFrom | apps/aidocs-dashboard/src/ConductorPage.tsx:310-328 | a render's appendMessages reads the log on screen and writes the result there and to the scope of its own render |
| ChatLog.ConductorChat.OnStarted | apps/aidocs-dashboard/src/ConductorPage.tsx:436-453 | a start replaces the log on screen and that of the scope of its own render |
| ChatLog.RightStepIff | apps/aidocs-dashboard/src/ConductorPage.tsx:310-346 | a step keeps every scope's log, and the one on screen, the distillate of what was written for that scope if and only if the write comes from the scope last loaded or makes no difference on screen and agrees with it |
| ChatLog.AnyAppendIsRightIff | apps/aidocs-dashboard/src/ConductorPage.tsx:310-328 | a render's appendMessages is safe for all messages if and only if its scope is the one last loaded |
| ChatLog.RightInRunsIff | apps/aidocs-dashboard/src/ConductorPage.tsx:310-453 | throughout a run all logs are right if and only if every write of the run fits in that sense |
| ChatLog.LateLinesMixLogs | apps/aidocs-dashboard/src/ConductorPage.tsx:404-413 | a poll that answers after a switch puts the other scope's log into its own and its lines on the other's screen |
| ChatLog.ScopeKeysMeetIff | apps/aidocs-dashboard/src/ConductorPage.tsx:252-255 | two scopes have equal keys if and only if they are equal, or one root continues the other across a separator and the session begins with the rest, or neither has a key |
| TaskRouting.SplitJoin | apps/aidocs-dashboard/src/ConductorPage.tsx:726-727 | joining the parts of a split text gives the text |
| TaskRouting.DecodeAtFirstSlash | apps/aidocs-dashboard/src/ConductorPage.tsx:726-727 | the host is what stands before the first slash, the model all after it |
| TaskRouting.DecodeEncodeIff | apps/aidocs-dashboard/src/ConductorPage.tsx:725-742 | a route comes back with think mode "medium" if and only if its host has no slash |
| TaskRouting.EncodeDecodeIff | apps/aidocs-dashboard/src/ConductorPage.tsx:725-742 | a stored text comes back unless it is a host and one trailing slash, and only then not |
| TaskRouting.EncodeAll | apps/aidocs-dashboard/src/ConductorPage.tsx:737-743 | the saved record has every task's encoded route and no other |
| TaskRouting.DecodeAll | apps/aidocs-dashboard/src/ConductorPage.tsx:724-729 | the loaded record has every task's decoded route and no other |
| TaskRouting.RoutingComesBackIff | apps/aidocs-dashboard/src/ConductorPage.tsx:714-747 | a whole routing table survives saving and loading if and only if no host has a slash |

## Left out

- AnchorAdminRuns.BusyInRunsIff: speaks of the states with no reset due, because until the reset the flag may still be on from the visit that ended; unmounting the panel is not modelled.
- AnchorAdmin.AnchorPanel.PressApply: the server's two-step confirmation inside one call is one request and one answer here.
- Installer.ContentIsKept: speaks of paths that are not themselves the backup of a visited file, because a backup is one slot (BackupIsOneSlot).
- Installer.CategoryInstaller.InstallCategory: file-system errors, subdirectories in the target and the wording of the status lines are not modelled.
- OutputGuard.GuardHostOutput: cyclic values are excluded, because the source does not terminate on them; prototypes and getters are not modelled.
- OutputGuard.CappedIsBounded: counts characters of Dafny strings, so a cut inside a surrogate pair is not modelled.
- HookState.Hooks.OnChatMessage: what buildPromptContext and the Python bridge compute is a parameter, and the text of the `/aidocs` notice is shortened.
- MemoryGraph.MemoryPage.ApplyVisibility: asks for distinct node ids, which the drawing library enforces; node ids that are names of built-in object properties are not modelled.
- MemoryGraph.AfterAnyRun: every load brings the same graph and explore mode stays on; a refresh that removes edges can leave revealed nodes unconnected.
- ChatLog.ConductorChat.AppendFrom: one mounted component; leaving the page and coming back, and what React does with updates of a component that is gone, are not modelled, nor the time stamps and running flags that polls save.
- CommandPalette.FuzzyScore: lower-casing happens before, and scores are real numbers.
- TomlLexer.TokenizeLine: CodeMirror's own stream handling beyond position and line is not modelled.
- JudgeOverride.ToggleFlipsOneRule: asks for distinct rule ids and a server that echoes the saved list for unlocked rules; the locale order in which a class lists its rules is not modelled.
- BashPolicy.BashPolicyPanel.HandleAddCommand: the name arrives lower-cased.
- The lane-message branch of the tool gate (core/plugins/aidocs.js:548-569): it calls a function the file never imports.
- The gate decisions made in Python, login verdicts, settings routing, polling and inbox loops: network plumbing or code that is not part of this model.
- React rendering, styling, graph layout and CodeMirror internals.
- Display helpers such as counters, filters and age strings: they would only add easy members.
