# QuickVote management front end — model of the agenda, run and settings logic

QuickVoteManage is the administrator's front end for a QuickVote election: a
multi-stage election whose stages are ballots run one after another, with
ad-hoc quick polls between stages. Almost all of it is view code. This Dafny
project models the three pieces of decision and state logic inside its tabs:

* **Agenda** (`src/tabs/Agenda.tsx`): edits of the election's ordered list of
  stages — which candidate source a stage uses (inline list, Yes/No, slate,
  alternates) and switching between them, the Yes/No guard on the number of
  winners, slate URL normalisation, the `"Column:Value"` voter filter, adding,
  removing and drag-reordering stages (`arrayMove`), the row predicates
  (current, midstage, read-only, removable) and saving.
* **Run** (`src/tabs/Run.tsx`): which of the four panels the tab shows for the
  election's position, when live ballot counts are polled, and the
  transitions (Begin, Close voting, Next round, start and close a quick poll),
  each a request followed by a reload of the whole election.
* **Settings** (`src/tabs/Settings.tsx`): the title and date, and the owner list
  (replace, remove, guarded add, save without the empty entries).

The data model follows `src/QVClient.ts:48-106` (module `QVClient`). The
numeric `stage` of an election is kept as `stageHalves`, twice its value:
-2 before the start, `2n` while stage `n` is open and `2n + 1` between stages
`n` and `n + 1`, so "whole versus half stage" is parity. Absent JavaScript
fields are `None`; a string is truthy when present and non-empty.

Layout: `wrappers.dfy` (Option), `splice.dfy` (the two `splice` forms used),
`qvclient.dfy` (data model), `agenda_sources.dfy` (stage-level edits),
`agenda_move.dfy` (`arrayMove`), `agenda.dfy` (the agenda tab class), `run.dfy`,
`settings.dfy`. Each tab is a class whose methods reassign `model` (the host
replaces its model wholesale on every `setModel`) and the tab's flags; requests
sent to the server are appended to a log field so that "sends X" and "sends
nothing" can be stated. A request and its answer are two methods.

Behaviour of the code worth knowing, which the model follows:

* Sources are probed Yes/No, inline, slate, alternates; there is no linked
  source, and Yes/No is the inline string `"Yes,No"`, not a list.
* At stage -1 the run tab shows "Not yet started" whatever the quick-poll
  message; there is no separate phase for a closed stage awaiting adjudication.
* Ballot counts are also fetched at stage -1 when the round number is positive
  (`-1 % 1 === 0`), and a count that arrives late is still shown.
* A transition whose request fails has no handler: the tab stays loading.
* `addStage` passes `save` as the `setModel` callback, but the host's
  `setModel` for this tab (`src/index.tsx:106`) ignores the callback, so adding
  a stage neither saves nor marks the form dirty; the model does the same.
* Typing `Yes,No` into an inline list makes the stage a Yes/No stage without
  setting its winners to one (lemma `InlineTextCanMakeYesNo`).

## Model

| member | source | states |
|---|---|---|
| `Splice.RemoveAt` | src/tabs/Settings.tsx:160 | `splice(i, 1)` removes exactly entry `i`: one shorter, entries before `i` in place, entries after shifted down by one; out of range, no change |
| `Splice.InsertAt` | src/tabs/Agenda.tsx:42 | `splice(i, 0, x)` puts `x` at `i` (at the end when `i` is past it), every old entry kept in order, one longer, multiset grows by `x` |
| `Splice.RemoveInserted` | src/tabs/Agenda.tsx:42 | removing at `i` what was inserted at `i` gives the array back |
| `AgendaSources.CalculateSourceValue` | src/tabs/Agenda.tsx:472-490 | the source shown is one whose field is set, the first in the order Yes/No, inline, slate, alternates; none exactly when no source field is set |
| `AgendaSources.ExclusiveClassification` | src/QVClient.ts:62-71 | on a stage whose source fields are exclusive, the classification is the one source that is set, regardless of probing order |
| `AgendaSources.WithSource` | src/tabs/Agenda.tsx:438-470 | round trip: after selecting source `k`, the stage classifies as `k` and exactly one source field is set; Yes/No sets one winner, other choices keep the winners; policy, title, undervote and filter untouched; an unknown value changes nothing |
| `AgendaSources.SourceSwitchForgetsPrevious` | src/tabs/Agenda.tsx:449-465 | switching source twice leaves only the second choice's fields: the first configuration is not kept |
| `AgendaSources.WithWinners` | src/tabs/Agenda.tsx:363-376 | the winners edit is refused exactly on a Yes/No stage; otherwise only `nWinners` changes |
| `AgendaSources.YesNoPinsOneWinner` | src/tabs/Agenda.tsx:442-447 | a stage switched to Yes/No has one winner and every later winners edit on it is refused |
| `AgendaSources.InlineTextCanMakeYesNo` | src/tabs/Agenda.tsx:399-406 | typing "Yes,No" as the inline list turns an inline stage into Yes/No with its winners unchanged, after which the winners edit is refused |
| `AgendaSources.WithSlate` | src/tabs/Agenda.tsx:408-412 | the slate box stores `""` for empty input and otherwise a reference starting with the slate base URL; nothing else changes |
| `AgendaSources.RemoveFirst` | src/tabs/Agenda.tsx:411 | `String.replace` with a string pattern and "" removes at most one occurrence: the result is the input or exactly one pattern shorter, and a leading occurrence is the one removed |
| `AgendaSources.RemoveFirstFirstOccurrence` | src/tabs/Agenda.tsx:411 | `replace` with a string pattern cuts out exactly its first occurrence and keeps the text before and after it |
| `AgendaSources.NormalizeSlate` | src/tabs/Agenda.tsx:411 | the stored reference always starts with the base URL and is at most the base URL longer than the text typed |
| `AgendaSources.SlateInput` | src/tabs/Agenda.tsx:702 | the box shows the stored reference or that reference one base URL shorter; a reference that starts with the base URL shows exactly its remainder |
| `AgendaSources.NormalizeSlateIdempotent` | src/tabs/Agenda.tsx:411 | normalising an already normalised slate URL returns it unchanged |
| `AgendaSources.SlateInputRoundTrip` | src/tabs/Agenda.tsx:702 | after typing a value the box shows it without the base URL; a bare slate id is stored as base URL + id and shown as typed |
| `AgendaSources.FullSlateUrlKept` | src/tabs/Agenda.tsx:411 | a full slate URL is stored as typed |
| `AgendaSources.SlateEditKeepsSource` | src/tabs/Agenda.tsx:697-705 | editing the slate box, shown only on a slate stage, keeps the source fields exclusive and the stage a slate stage |
| `AgendaSources.InlineEditKeepsSource` | src/tabs/Agenda.tsx:688-694 | editing the inline box, shown only on an inline stage, keeps the source fields exclusive; the stage is Yes/No afterwards exactly when the text is "Yes,No", otherwise inline |
| `AgendaSources.OtherEditsKeepSource` | src/QVClient.ts:62-71 | an edit that leaves the three source fields alone keeps exclusivity and the classification |
| `AgendaSources.ColumnPart` | src/tabs/Agenda.tsx:626 | `split(":")[0]` is the colon-free prefix before the first colon (the whole string without one) |
| `AgendaSources.ValuePart` | src/tabs/Agenda.tsx:645 | `split(":")[1]` is defined exactly when the filter has a colon; it is colon-free, follows the column and the first colon in the filter, and runs up to the second colon or the end |
| `AgendaSources.FilterJoinSplits` | src/tabs/Agenda.tsx:393 | joining a colon-free column and value with ":" splits back into that column and value |
| `AgendaSources.WithFilterColumn` | src/tabs/Agenda.tsx:378-387 | choosing a column sets a filter, "Everyone" clears it, a column without values throws (no change); only the filter changes |
| `AgendaSources.WithFilterValue` | src/tabs/Agenda.tsx:389-397 | changing the value throws without a filter (no change), clears the filter on empty input, and changes only the filter |
| `AgendaSources.FilterColumnReadsBack` | src/tabs/Agenda.tsx:381-383 | after choosing a column the filter reads back as that column and its first value |
| `AgendaSources.FilterValueReadsBack` | src/tabs/Agenda.tsx:392-393 | after choosing a value the filter keeps its column and reads back as that value |
| `AgendaMove.Padded` | src/tabs/Agenda.tsx:36-41 | the padding loop extends the array with undefined entries up to and including `newIndex`, keeping the original prefix |
| `AgendaMove.Moved` | src/tabs/Agenda.tsx:35-44 | the array `arrayMove` leaves: one element out and one in, so a move from inside the padded array keeps its length and a move from past its end adds one undefined entry |
| `AgendaMove.ArrayMove` | src/tabs/Agenda.tsx:35-44 | the loop-and-splice procedure computes exactly `Moved`, the array the lemmas below describe |
| `AgendaMove.MovedPlacesElement` | src/tabs/Agenda.tsx:42 | the original `arr[oldIndex]` (undefined if none) lands at `newIndex`; when `oldIndex` is inside the array, the length becomes max(length, newIndex + 1) |
| `AgendaMove.MovedIsPermutation` | src/tabs/Agenda.tsx:42 | a move between positions inside the array is a permutation |
| `AgendaMove.MovedKeepsOrderOfOthers` | src/tabs/Agenda.tsx:42 | without the moved element, the result is the padded array without it: every other element keeps its relative order |
| `AgendaMove.MovedShifts` | src/tabs/Agenda.tsx:42 | position by position: outside the two indices nothing moves, between them elements shift by one toward `oldIndex` |
| `AgendaMove.MovedStaysDefined` | src/tabs/Agenda.tsx:501 | moving within a list of stages introduces no undefined entry |
| `Agenda.NewStage` | src/tabs/Agenda.tsx:314-322 | the stage "Add stage" appends has one winner, exclusive source fields and classifies as inline |
| `Agenda.IsCurrentRow` | src/tabs/Agenda.tsx:557 | `stage === indx`: the current row is neither past nor removable |
| `Agenda.IsMidstageRow` | src/tabs/Agenda.tsx:558 | `stage === indx + 0.5`: a midstage row is a past row and not the current one |
| `Agenda.IsReadonlyRow` | src/tabs/Agenda.tsx:559 | `indx < stage`: a past row is not removable, exists only once the election has started, and every earlier row is past too |
| `Agenda.IsRemovableRow` | src/tabs/Agenda.tsx:745 | `indx > stage`: before the start every row shows its remove button |
| `Agenda.SortingAllowed` | src/tabs/Agenda.tsx:493 | a drop is accepted exactly at a position whose row is removable |
| `Agenda.RowStatusPartition` | src/tabs/Agenda.tsx:557-559 | each row is exactly one of past, current or removable; a midstage row is past; a drop is accepted exactly at removable positions |
| `Agenda.RemovingFutureStageKeepsStarted` | src/tabs/Agenda.tsx:745-748 | removing a removable row leaves every stage up to the current one in place |
| `Agenda.SortingKeepsStarted` | src/tabs/Agenda.tsx:492-505 | an accepted drag of a removable row leaves every stage up to the current one in place |
| `Agenda.AgendaTab.constructor` | src/tabs/Agenda.tsx:268-278 | the tab starts on the host's election, not dirty, not saving, with nothing posted |
| `Agenda.AgendaTab.AddStage` | src/tabs/Agenda.tsx:311-325 | callable only while not saving and the election is not done (the button's disabled guard, line 900); appends the default stage (one winner, inline candidates); no save starts and the dirty flag is unchanged |
| `Agenda.AgendaTab.RemoveStage` | src/tabs/Agenda.tsx:327-334 | deletes exactly stage `index`, rest in order; marks dirty |
| `Agenda.AgendaTab.HandleTitleChange` | src/tabs/Agenda.tsx:336-343 | only that stage's title changes; marks dirty; a missing stage changes nothing |
| `Agenda.AgendaTab.HandlePolicyChange` | src/tabs/Agenda.tsx:345-352 | only that stage's policy changes; marks dirty |
| `Agenda.AgendaTab.HandleForbidUndervoteChange` | src/tabs/Agenda.tsx:354-361 | only that stage's undervote flag changes, true exactly for "1"; marks dirty |
| `Agenda.AgendaTab.HandleNWinnersChange` | src/tabs/Agenda.tsx:363-376 | refused, with no change at all, exactly on a Yes/No stage; otherwise only that stage's winners change and the form is dirty |
| `Agenda.AgendaTab.HandleFilterUserChange1` | src/tabs/Agenda.tsx:378-387 | applies the column choice to that stage only; no change when the source would throw |
| `Agenda.AgendaTab.HandleFilterUserChange2` | src/tabs/Agenda.tsx:389-397 | applies the value choice to that stage only; no change when the stage has no filter |
| `Agenda.AgendaTab.HandleSInlineChange` | src/tabs/Agenda.tsx:399-406 | only that stage's inline list changes, stored as typed |
| `Agenda.AgendaTab.HandleSSlateChange` | src/tabs/Agenda.tsx:408-419 | only that stage's slate reference changes, normalised |
| `Agenda.AgendaTab.HandleSourceChange` | src/tabs/Agenda.tsx:438-470 | only that stage changes, by the source switch; other stages, title and the rest of the election untouched; for a missing stage nothing changes, except that a value outside the four options (which touches no stage and so does not throw) still marks the form dirty |
| `Agenda.AgendaTab.UpdateSorting` | src/tabs/Agenda.tsx:492-505 | callable only while not saving (the list takes no pointer input then, lines 88-93); refused with no change exactly when `newIndex <= stage`; otherwise the stages become the `arrayMove` of the old list and the form is dirty |
| `Agenda.AgendaTab.Save` | src/tabs/Agenda.tsx:507-510 | starts saving and posts the current election unchanged |
| `Agenda.AgendaTab.SaveSucceeded` | src/tabs/Agenda.tsx:511-514 | saving ends and the form is clean |
| `Agenda.AgendaTab.SaveFailed` | src/tabs/Agenda.tsx:515-519 | saving ends; edits stay unsaved |
| `Run.Shows` | src/tabs/Run.tsx:100-156 | the four render guards on the doubled stage: a branch shows only at a position the server reports, and at a half stage the quick-poll branch shows exactly when the message is truthy |
| `Run.FetchesResults` | src/tabs/Run.tsx:71-76 | counts are requested only for a positive round number; always at a whole stage, and at a half stage exactly when a quick-poll message is set |
| `Run.PhaseOf` | src/tabs/Run.tsx:100-176 | at most one of the four panels shows: not started at -1 whatever the message, voting open at a whole stage, in between or quick poll at a half stage by the message; one shows exactly for -1 and non-negative positions |
| `Run.FetchMatchesPhase` | src/tabs/Run.tsx:71-81 | counts are fetched iff the round number is positive and the election is not idle between stages |
| `Run.RunTab.constructor` | src/tabs/Run.tsx:85-87 | on mount, counts are requested once when the fetch condition holds |
| `Run.RunTab.FetchStageResults` | src/tabs/Run.tsx:70-83 | requests the counts of the given election's round when the condition holds, otherwise clears the shown counts |
| `Run.RunTab.Tick` | src/tabs/Run.tsx:89-91 | the timer applies the fetch to the election on display |
| `Run.RunTab.PollArrived` | src/tabs/Run.tsx:79 | an answer replaces the shown counts |
| `Run.RunTab.MoveToNextRound` | src/tabs/Run.tsx:33-36 | sets loading, clears counts, sends the given round; the model is not touched |
| `Run.RunTab.Begin` | src/tabs/Run.tsx:100-108 | before the start, sends the loaded round number unchanged |
| `Run.RunTab.CloseVoting` | src/tabs/Run.tsx:130-134 | while voting is open, sends the loaded round number unchanged |
| `Run.RunTab.NextRound` | src/tabs/Run.tsx:145-149 | between stages, sends the loaded round number unchanged |
| `Run.RunTab.StartQuickPoll` | src/tabs/Run.tsx:44-57 | an empty or cancelled message changes nothing and sends nothing; otherwise loading, counts cleared, the message sent |
| `Run.RunTab.CloseQuickPoll` | src/tabs/Run.tsx:59-62 | sets loading, clears counts, sends the close request; the model is not touched |
| `Run.RunTab.ReloadArrived` | src/tabs/Run.tsx:37-40 | the model is replaced wholesale by the reload, loading ends, and the fetch runs on the new election |
| `Settings.NonEmpty` | src/tabs/Settings.tsx:181 | no empty entry is left and every non-empty entry keeps its number of occurrences |
| `Settings.NonEmptyConcat` | src/tabs/Settings.tsx:181 | the filter keeps order: it distributes over concatenation |
| `Settings.NonEmptyIdempotent` | src/tabs/Settings.tsx:184 | filtering twice equals filtering once |
| `Settings.NonEmptyKeepsFilled` | src/tabs/Settings.tsx:181 | a list without empty entries is unchanged by the filter |
| `Settings.BlankOwnerVanishesOnSave` | src/tabs/Settings.tsx:170 | an added entry left empty disappears on save |
| `Settings.CanAddOwner` | src/tabs/Settings.tsx:167 | add is allowed only when the list has a last entry and it is filled in |
| `Settings.AddOwnerGuard` | src/tabs/Settings.tsx:167-169 | add is allowed iff the list is non-empty and its last entry is filled in; right after an add it is refused |
| `Settings.SettingsTab.constructor` | src/tabs/Settings.tsx:115-122 | the tab starts on the host's election, with neither the settings nor the owners dirty, not saving, and nothing posted |
| `Settings.SettingsTab.HandlePageTitleChange` | src/tabs/Settings.tsx:134-139 | only the title changes and the form is dirty; stages and owners untouched |
| `Settings.SettingsTab.HandlePageDateChange` | src/tabs/Settings.tsx:141-146 | only the target date changes and the form is dirty |
| `Settings.SettingsTab.HandleOwnerChange` | src/tabs/Settings.tsx:148-156 | only entry `index` is replaced; owners marked dirty |
| `Settings.SettingsTab.RemoveOwner` | src/tabs/Settings.tsx:158-163 | exactly entry `index` is deleted, rest in order |
| `Settings.SettingsTab.AddOwner` | src/tabs/Settings.tsx:165-173 | appends exactly one empty entry when the guard allows, otherwise nothing changes |
| `Settings.SettingsTab.SaveOwners` | src/tabs/Settings.tsx:179-184 | callable only while the owners are dirty (the button's disabled guard, line 278); the owner list loses its empty entries, order kept, and exactly that list is posted |
| `Settings.SettingsTab.OwnersSaved` | src/tabs/Settings.tsx:185-188 | the owner list is clean again |
| `Settings.SettingsTab.Save` | src/tabs/Settings.tsx:292-294 | starts saving and posts the election unchanged |
| `Settings.SettingsTab.SaveSucceeded` | src/tabs/Settings.tsx:295-298 | saving ends and the form is clean |
| `Settings.SettingsTab.SaveFailed` | src/tabs/Settings.tsx:299-303 | saving ends; edits stay unsaved |

## Left out

- HTTP transport: the `QVClient` and `SlateClient` methods and `QVContainer` are I/O; requests are logged as values (`posted`, `requests`, `pollRounds`, `postedOwners`) and answers arrive as method calls.
- `PostStartQuickPoll`, `PostCloseQuickPoll`, `PostUpdateOwners` and `GetMode` are called but not defined in `src/QVClient.ts`; they are treated as server requests, and the Agenda header's `GetMode` check (render only) is not modelled.
- Timing: the 8-second `useInterval`, promise ordering and overlapping requests; the timer is `Tick`, callable at any moment.
- Failed requests in the run tab and in `saveOwners`: the source has no handler, so the model has no failure step for them.
- `populateSlatesMap`, `GetSlates` and the slate preview cache (asynchronous lookups), the `beforeunload` warning.
- Percentages shown in the run tab (floating point `toFixed`).
- `Number(num)` parsing in `handleNWinnersChange`: the method receives the number.
- Stage positions other than whole and half numbers cannot be represented (`stageHalves` is an integer); the server sends no others.
- Negative indices for `splice` and `arrayMove`: indices are natural numbers, as the rows and the sortable list produce.
- `Agenda.AgendaTab.UpdateSorting` requires both positions inside the list, as the sortable list reports them; `arrayMove`'s padding is modelled in `AgendaMove.ArrayMove`.
- `Settings.SettingsTab.HandleOwnerChange` requires an existing index, as the rows pass; JavaScript would grow the array past its end.
- The CSS `pointer-events: none` on past, current and midstage rows that keeps them from being edited or dragged; the handlers themselves do not check, and the model follows them (`Agenda.SortingKeepsStarted` assumes the drag started at a removable row).
- The whole stage list also takes no pointer input while a save is in flight (`src/tabs/Agenda.tsx:88-93`); `Agenda.AgendaTab.UpdateSorting` and `Agenda.AgendaTab.AddStage` carry that guard as a `requires`, but the per-row edit handlers do not, since a focused input can still be typed into from the keyboard.
- In-place mutation of shared stage and owner objects: the host discards the old model at once, so the model updates values.
- `filterMetadata` keeps only each column's values (`countHint` dropped); `policyDetails`, `reportMetadata`, `credentialMetadata`, `stageResults` winners and `forbidUndervote` display are presentation.
- Views and routing: JSX markup, `src/index.tsx` tabs, `Credentials`, `Reports`, `Invites`, `ErrorBoundary`.
- Win/lose/runoff adjudication, quota and no-winner validation and linked sources: no code for them exists in this front end.
