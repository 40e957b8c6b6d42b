# Teams page: forest builder, page state and forms

This project models the front end of a small teams-and-employees directory.
The teams query turns a flat list of team records into a forest:
1. It copies every record into an id-keyed map, each copy with empty
   `children` and `employees`.
2. It pushes each copy onto its parent's `children`. A copy whose
   `parent_team_id` is null, empty or unknown goes onto the root list
   instead.

The teams page then attaches to every node, at every depth, the employees
whose `team_id` names it. The page also holds:
- a selection of employee ids for bulk deletion;
- an edit-mode flag;
- two mutually exclusive "add" panels.

Each node of the rendered forest keeps its own accordion and dialog state,
and shows count chips and date text. The team form and the employee form
have these parts:
- initial values derived from the record being edited;
- a validation schema;
- a payload mapping;
- a create-or-update dispatch;
- transient success and error banners, each cleared by a two-second timer.

Modules, one file each:
- `Types`: the records, and JavaScript truthiness.
- `Sequences`: a subsequence predicate that states "order is kept".
- `Forest`: the builder, as two loops over maps.
- `Attach`: the employee attachment, as a recursive function on values.
- `TeamsPage`: the page state, as a class.
- `TeamItem`: the state of one node, as a class, and its display helpers.
- `FormFeedback`: the dispatch and the banners with their timer queue,
  shared by both forms.
- `TeamForm` and `EmployeeForm`: the two forms, as classes.

A few modelling choices run through all the files:
- The builder's node objects are named by their map key. `children` maps
  a node's id to the ids pushed onto that node's list, in push order. Two
  records with the same id therefore share one copy, as they do in the
  map.
- `new Date(text)` is a parameter `parse: string -> Moment`. A `Moment` is
  a time value or the Invalid Date, and every comparison with the Invalid
  Date is false.
- `toLocaleDateString`, `toISOString` and the current time are parameters
  too.
- All timers have the same delay, so they fire in the order they were
  started. "A timer fires" is therefore an explicit step that takes the
  oldest pending timer.
- The outcomes of remote calls are parameters: whether a deletion
  succeeds, and whether a mutation settles successfully.

## Model

| member | source | states |
|---|---|---|
| Types.OrEmpty | web/src/components/teams/TeamAdd.tsx:58 | `a \|\| ""` is empty exactly when the value is null or empty, and is the value otherwise |
| Types.NonEmpty | web/src/components/teams/TeamAdd.tsx:65 | `s \|\| null` is null exactly for the empty string, and is the string otherwise |
| Forest.BuildForest | web/src/hooks/useTeams.ts:11-29 | the map holds one copy per id (the last record with an id wins), every id has a children list, the root list is `Roots`, and each node's children list is `ChildrenOf` that node |
| Forest.CopyPass | web/src/hooks/useTeams.ts:11-14 | after the first loop the map's keys are exactly the input's ids, each with a childless, employee-less copy of the last record with that id, and every children list is empty |
| Forest.LinkPass | web/src/hooks/useTeams.ts:16-27 | after the second loop the root list and every children list hold the ids that the placement rule sends there, in input order |
| Forest.PlacedSelects | web/src/hooks/useTeams.ts:17-27 | the ids pushed onto a slot are the ids of the records at the slot's index list, one for one |
| Forest.SlotIndicesIncrease | web/src/hooks/useTeams.ts:17-27 | the records pushed onto a slot appear in strictly increasing input order |
| Forest.SlotIndicesMembers | web/src/hooks/useTeams.ts:20-26 | a record is pushed onto a slot iff the placement rule sends it there |
| Forest.PlacedCount | web/src/hooks/useTeams.ts:17-27 | a record with a unique id is pushed exactly once onto its own slot and never onto another |
| Forest.PlacedExactlyOnce | web/src/hooks/useTeams.ts:17-27 | with distinct ids, every record is on exactly one list: on the root list iff its slot is the root, otherwise once on its parent's list |
| Forest.RootIff | web/src/hooks/useTeams.ts:20-26 | a team is a root iff its parent id is null, empty or names no team of the input; otherwise it is on its parent's children list and not a root |
| Forest.RootsHaveNoParentInInput | web/src/hooks/useTeams.ts:20-26 | every root id belongs to a record whose parent is null, empty or absent from the input |
| Forest.CycleMembersAreNotRoots | web/src/hooks/useTeams.ts:20-26 | teams on a cycle of parent references (including a self-parent) are never roots |
| Forest.OnSlotHasRecord | web/src/hooks/useTeams.ts:17-27 | every id on the root list or a children list was pushed there by a record with that id whose placement is that list |
| Forest.CycleMembersUnreachable | web/src/hooks/useTeams.ts:17-27 | no path from a root through children lists ends at a team on a cycle of parent references, so the rendered forest never contains one |
| Forest.EveryTeamReachable | web/src/hooks/useTeams.ts:17-27 | with distinct ids and no cycles (a ranking of ids that drops from each team to its parent), every input team is reached by a path from a root |
| Forest.PathsUnique | web/src/hooks/useTeams.ts:17-27 | with distinct ids, two paths from the roots that end at the same team are the same path, so each team is reached at most once |
| Forest.NodeMapLastWins | web/src/hooks/useTeams.ts:12-14 | the map's entry for an id is the copy of the last record with that id |
| Forest.NodeMapKeys | web/src/hooks/useTeams.ts:12-14 | the map's keys are exactly the input's ids |
| Forest.ScenarioDanglingParent | web/src/hooks/useTeams.ts:11-29 | A, B (parent A) and C (parent Z, absent) give roots [A, C], A's children [B], and no children for B and C |
| Attach.EmployeesOf | web/src/pages/teams.tsx:47-49 | the filter keeps exactly the employees whose `team_id` is the node's id, and is no longer than the input |
| Attach.EmployeesOfCount | web/src/pages/teams.tsx:47-49 | each matching employee is kept as many times as the input has it; others not at all |
| Attach.EmployeesOfKeepsOrder | web/src/pages/teams.tsx:47-49 | the filtered list is a subsequence of the employee list |
| Attach.AttachTeam | web/src/pages/teams.tsx:46-56 | attaching changes only `employees` lists, at every depth: ids, names, parents and child order are kept, and the node gets exactly the employees that name it |
| Attach.AttachAll | web/src/pages/teams.tsx:58 | one attached tree per top-level node, in order, each of the same shape as its input and carrying the filtered employees |
| Attach.PageForest | web/src/pages/teams.tsx:41-59 | the forest is empty until both queries have data; then it has one node per root, with the same ids, each carrying its filtered employees |
| Attach.AttachAtEveryDepth | web/src/pages/teams.tsx:46-56 | at every path of the forest, the attached forest has a node with the same id, name, parent id and number of children, carrying exactly the employees that name that id, and no node where the input has none |
| Attach.EmployeeListedOnce | web/src/pages/teams.tsx:46-56 | an input employee is listed at a node iff the node's id is its `team_id`; with distinct node ids it is listed at one node at most |
| TeamsPage.Without | web/src/pages/teams.tsx:71 | unchecking removes every occurrence of the id and keeps every other id as often as before |
| TeamsPage.WithoutKeepsOrder | web/src/pages/teams.tsx:71 | unchecking keeps the other selected ids in their order |
| TeamsPage.WithoutAppend | web/src/pages/teams.tsx:71 | the filter distributes over concatenation |
| TeamsPage.SelectionUpdate | web/src/pages/teams.tsx:67-73 | checking adds one more copy of the id to the selection; unchecking removes all of its copies and keeps every other id as often as before |
| TeamsPage.IsChecked | web/src/components/teams/TeamItem.tsx:205 | an employee's checkbox is ticked iff the selection holds the employee's id at least once |
| TeamsPage.CheckboxFollowsSelection | web/src/components/teams/TeamItem.tsx:203-208 | after a checkbox event the clicked employee's checkbox shows what the event asked for, and every other checkbox is unchanged |
| TeamsPage.CheckTwiceThenUncheck | web/src/pages/teams.tsx:67-73 | checking twice adds the id twice; one uncheck removes both, leaving what unchecking would have left before |
| TeamsPage.SpinnerWhileLoading | web/src/pages/teams.tsx:61-64 | the spinner shows exactly while the teams query or the employees query loads or a bulk delete is in flight; otherwise the panels and the team count decide |
| TeamsPage.ScreenOf | web/src/pages/teams.tsx:196-219 | the spinner wins over everything, then the team form, then the employee form, then the list when there are teams, else the empty notice |
| TeamsPage.ScreenFollowsPanels | web/src/pages/teams.tsx:104-117 | with the panels never open together, a loaded page shows the form of whichever panel is open, and the list or notice exactly when neither is |
| TeamsPage.Page.constructor | web/src/pages/teams.tsx:24-27 | nothing is selected, edit mode is off, and both panels are closed |
| TeamsPage.Page.SelectEmployee | web/src/pages/teams.tsx:67-73 | checking appends the id; unchecking removes every occurrence; nothing else changes |
| TeamsPage.Page.DeleteSelected | web/src/pages/teams.tsx:75-85 | with nothing selected no request is sent; otherwise the whole selection is sent, cleared only on success, and a failure is recorded for the alert |
| TeamsPage.Page.ToggleEditMode | web/src/pages/teams.tsx:100-102 | the edit-mode flag flips; nothing else changes |
| TeamsPage.Page.AddTeamClick | web/src/pages/teams.tsx:104-107 | the team panel opens and the employee panel closes |
| TeamsPage.Page.AddEmployeeClick | web/src/pages/teams.tsx:109-112 | the employee panel opens and the team panel closes |
| TeamsPage.Page.BackToList | web/src/pages/teams.tsx:114-117 | both panels close; the selection and edit mode stay |
| TeamItem.IsFormerEmployee | web/src/components/teams/TeamItem.tsx:64-68 | an employee is former iff the end date is set, reads as a date, and lies strictly before now; an unset or unreadable end date is never former |
| TeamItem.FormerStaysFormer | web/src/components/teams/TeamItem.tsx:64-68 | a former employee stays former as time advances; an end date equal to now is not yet former, and is one millisecond later |
| TeamItem.AutoExpand | web/src/components/teams/TeamItem.tsx:53 | the employee list opens by itself iff it has one, two or three entries, and so only when the employee chip is shown |
| TeamItem.FormatDate | web/src/components/teams/TeamItem.tsx:70-74 | null or empty gives "N/A", an unreadable date gives "Invalid Date", and any other date gives its local text |
| TeamItem.Decimal | web/src/components/teams/TeamItem.tsx:111 | a count renders as a non-empty string of decimal digits, with no leading zero |
| TeamItem.DecimalRoundTrip | web/src/components/teams/TeamItem.tsx:111 | the digits a chip shows read back as the count |
| TeamItem.ChipLabelReads | web/src/components/teams/TeamItem.tsx:111-120 | a chip label is the count, a space, and the singular noun exactly when the count is one |
| TeamItem.EmployeeChip | web/src/components/teams/TeamItem.tsx:109-116 | the employee chip appears iff there are employees, and says the count and "zamestnanec" for one, "zamestnanci" otherwise |
| TeamItem.SubteamChip | web/src/components/teams/TeamItem.tsx:117-125 | the subteam chip appears iff the node has children, and says the count and "tím" for one, "tímy" otherwise |
| TeamItem.ItemState.constructor | web/src/components/teams/TeamItem.tsx:41-45 | both accordions are collapsed, no employee is chosen, and both dialogs are closed |
| TeamItem.ItemState.Render | web/src/components/teams/TeamItem.tsx:52-54 | when the employee count differs from the last render's, the employee list opens iff the count is between one and three; otherwise the user's choice stays |
| TeamItem.ItemState.ToggleTeam | web/src/components/teams/TeamItem.tsx:56-58 | the team accordion flips; nothing else changes |
| TeamItem.ItemState.ToggleEmployees | web/src/components/teams/TeamItem.tsx:60-62 | the employee accordion flips; nothing else changes |
| TeamItem.ItemState.EditEmployee | web/src/components/teams/TeamItem.tsx:76-79 | the employee is chosen and the dialog opens, keeping the dialog-open-iff-chosen invariant |
| TeamItem.ItemState.CloseEditDialog | web/src/components/teams/TeamItem.tsx:81-84 | the dialog closes and the choice is cleared |
| TeamItem.ItemState.EditTeam | web/src/components/teams/TeamItem.tsx:86-89 | the team dialog opens; nothing else changes |
| TeamItem.ItemState.CloseTeamEditDialog | web/src/components/teams/TeamItem.tsx:91-93 | the team dialog closes; nothing else changes |
| TeamItem.AutoExpandScenario | web/src/components/teams/TeamItem.tsx:52-54 | a node with two employees opens its list on first render, and one with five does not |
| FormFeedback.Dispatch | web/src/components/teams/TeamAdd.tsx:68-109 | the request is an update of the initial record's id iff in edit mode with initial data, else a create, and it carries the payload unchanged |
| FormFeedback.PendingWatchesRequest | web/src/components/teams/TeamAdd.tsx:112-114 | with initial data, or in create mode, the button is disabled exactly while the mutation the request goes to is pending; in edit mode without initial data the request is a create while the button watches the update mutation |
| FormFeedback.Feedback.constructor | web/src/components/teams/TeamAdd.tsx:42-43 | both banners are down and nothing is pending |
| FormFeedback.Feedback.Begin | web/src/components/teams/TeamAdd.tsx:69 | the chosen mutation is pending; banners and timers are unchanged |
| FormFeedback.Feedback.Settle | web/src/components/teams/TeamAdd.tsx:75-107 | success raises the success banner and queues its timer, and asks for a reset only after a create; failure raises the error banner and queues its timer; with nothing pending nothing happens |
| FormFeedback.Feedback.TimerFires | web/src/components/teams/TeamAdd.tsx:80-87 | the oldest timer fires: a success timer lowers the success banner and calls `onSuccess` if given; an error timer lowers the error banner; a raised banner always has its timer queued |
| FormFeedback.Feedback.Banners | web/src/components/teams/TeamAdd.tsx:176-183 | one banner per raised flag: the error banner first while `formError` is up, the success banner last while `success` is up |
| TeamForm.InitialValues | web/src/components/teams/TeamAdd.tsx:56-59 | a new form is empty; an edit form holds the team's name and its parent id, or "" when there is none |
| TeamForm.IsValid | web/src/components/teams/TeamAdd.tsx:26-29 | the form passes exactly when the name is set, whatever the parent, so a valid form's payload always carries a name |
| TeamForm.PayloadOf | web/src/components/teams/TeamAdd.tsx:63-66 | the payload carries the name, and a null parent exactly when none is chosen |
| TeamForm.UntouchedEditResubmits | web/src/components/teams/TeamAdd.tsx:56-73 | submitting an untouched edit form sends the team's own name and parent back to its id, with an empty parent sent as null |
| TeamForm.ParentOptions | web/src/components/teams/TeamAdd.tsx:146 | the parent choices are exactly the teams other than the edited one, each kept exactly as often as the query lists it |
| TeamForm.ParentOptionsKeepOrder | web/src/components/teams/TeamAdd.tsx:146 | the parent choices keep the query's order |
| TeamForm.BannerTextsDiffer | web/src/components/teams/TeamAdd.tsx:176-183 | "Error adding team", "Error updating team", "Team Added" and "Team Updated" are four different texts, so a banner tells which request ran and how it ended |
| TeamForm.Form.constructor | web/src/components/teams/TeamAdd.tsx:42-60 | the fields are the initial values; banners are down and nothing is pending |
| TeamForm.Form.Edit | web/src/components/teams/TeamAdd.tsx:122-155 | the fields take the user's input |
| TeamForm.Form.Submit | web/src/components/teams/TeamAdd.tsx:62-110 | a request is sent iff the button is enabled and the name is set; it is the dispatch of the payload, and its mutation becomes pending; the other mutation's pending flag is unchanged |
| TeamForm.Form.Settle | web/src/components/teams/TeamAdd.tsx:75-107 | a successful create resets the fields to the initial values; an update keeps them; the banners and timers follow the shared feedback; the other mutation's pending flag is unchanged |
| TeamForm.AddTeamScenario | web/src/components/teams/TeamAdd.tsx:62-108 | adding a parentless team sends a create with a null parent, shows "Team Added" and clears the fields; the timer then calls `onSuccess` and the banner goes |
| EmployeeForm.DateValue | web/src/components/employees/EmployeeAdd.tsx:63-68 | a stored date is unset when null or empty, and is otherwise the parsed date |
| EmployeeForm.InitialValues | web/src/components/employees/EmployeeAdd.tsx:58-69 | a new form is empty; an edit form holds the employee's fields and parsed dates |
| EmployeeForm.EndWithoutStartRejectedAsWritten | web/src/components/employees/EmployeeAdd.tsx:30-32 | as written, an end date with no start date fails the end-date rule; the corrected rule accepts it |
| EmployeeForm.EndDateRuleAgreesWithStart | web/src/components/employees/EmployeeAdd.tsx:30-32 | whenever a start date is set, readable or not, the two rules agree: an unreadable start date fails the end date, an equal end date passes and an earlier one fails |
| EmployeeForm.FieldErrors | web/src/components/employees/EmployeeAdd.tsx:24-33 | name and surname are required; a date that does not read as a date is an error; an end date is an error when a start date is set and the end date precedes it or the start date does not read as a date; with no start date any end date passes |
| EmployeeForm.AcceptedFieldsHaveReadableDates | web/src/components/employees/EmployeeAdd.tsx:72-80 | fields that pass the schema hold readable dates, a name and a surname |
| EmployeeForm.DateText | web/src/components/employees/EmployeeAdd.tsx:78-79 | an unset date is sent as null and a set one as its ISO text |
| EmployeeForm.PayloadOf | web/src/components/employees/EmployeeAdd.tsx:73-80 | the payload carries name, surname and position, an absent team exactly when none is chosen, and the dates as ISO text or null |
| EmployeeForm.UntouchedEditResubmits | web/src/components/employees/EmployeeAdd.tsx:58-87 | an untouched edit form of a valid employee passes the schema (with the corrected end-date rule) and sends the employee's own fields back to its id; the rule as written lets an employee with an end date through only when it also has a start date |
| EmployeeForm.BannerTextsDiffer | web/src/components/employees/EmployeeAdd.tsx:259-270 | "Error adding employee", "Error updating employee", "Employee Added" and "Employee Updated" are four different texts |
| EmployeeForm.EndBeforeStartScenario | web/src/components/employees/EmployeeAdd.tsx:30-32 | an end date before the start date is the only error; equal dates pass |
| EmployeeForm.Form.constructor | web/src/components/employees/EmployeeAdd.tsx:44-70 | the fields are the initial values; banners are down and nothing is pending |
| EmployeeForm.Form.Edit | web/src/components/employees/EmployeeAdd.tsx:134-234 | the fields take the user's input |
| EmployeeForm.Form.Submit | web/src/components/employees/EmployeeAdd.tsx:72-126 | the field errors are reported; a request is sent iff the button is enabled and no field is rejected; it is the dispatch of the payload; the other mutation's pending flag is unchanged |
| EmployeeForm.Form.Settle | web/src/components/employees/EmployeeAdd.tsx:89-123 | a successful create resets the fields; an update keeps them; the banners and timers follow the shared feedback; the other mutation's pending flag is unchanged |
| EmployeeForm.UpdateFailsScenario | web/src/components/employees/EmployeeAdd.tsx:82-105 | a failed update of an undated employee shows "Error updating employee" until its timer fires, and does not call `onSuccess` |

Editing a team and choosing one of its own children as its parent creates a
cycle. The parent choices exclude only the edited team itself (`TeamForm.ParentOptions`).
`Forest.CycleMembersAreNotRoots` shows that the teams on such a cycle are
then on no root list, and `Forest.CycleMembersUnreachable` that no path from
a root reaches them, so the page no longer shows them.

## Left out

- The deep copy `JSON.parse(JSON.stringify(..))` of the builder's result is not modelled. With distinct ids it unfolds the part of the id graph reachable from the roots into nested team values (with a repeated id the builder can push a node under itself, and the copy then fails). The attachment pass works on nested values that are already given.
- The page's `error` alert is not modelled. It merges the teams-query error with the bulk-delete error. Only the delete outcome is kept, as `deleteFailed`.
- `handleDeleteTeam` is not modelled. It fires a remote deletion and a cache invalidation and changes no page state.
- Query caching, invalidation and refetching are not modelled. Neither are the mutation objects' internals beyond `isPending`, the HTTP client, or the back-end service under `api/`.
- The order in which an asynchronous state update captures the selection is not modelled. `DeleteSelected` sends the selection current at the call, and settles in the same step.
- `useGetEmployee` is not modelled. It loads the chosen employee for the edit dialog, so the dialog's form starts only once the data arrives; the model starts the form directly from the record.
- Rendering is not modelled: the JSX layout, styles, icons and headings, and the recursive rendering of child nodes. The list of nodes is unmounted whenever the spinner or an add panel replaces it, so a node's `ItemState` lives only while the list is shown: after a bulk delete, or after opening and closing an add panel, every node starts again from the constructor's state.
- The position field is optional in the model. Its `rules={{ required: true }}` is not applied, because a schema resolver takes the place of the field rules.
- The form's show-and-hide of field error messages is not modelled; `FieldErrors` gives which fields are rejected.
- Time is not modelled. `now`, date parsing, local date text and ISO text are parameters, and all timers are ordered by a queue.
- EmployeeForm.UntouchedEditResubmits: its first clause uses the corrected end-date rule. As written, the schema rejects the untouched form of an employee with an end date and no start date; a further clause states this.
- EmployeeForm.Form.Submit: decides "no field is rejected" with the corrected end-date rule, so a form with an end date and no start date is sent here, while the program as written sends nothing (see Findings).
- EmployeeForm.FieldErrors: implements the corrected end-date rule. As written, the schema also rejects an end date when no start date is set (see Findings).

## Findings

| source | as written | input that shows it | evidently intended | confidence | as-written member | corrected member |
|---|---|---|---|---|---|---|
| web/src/components/employees/EmployeeAdd.tsx:30-32 | `endDate: date().min(ref("startDate"))` compares the end date with an unset start date; a comparison with `undefined` is false, so the rule fails | start date unset, end date 2024-01-31: the form shows "End date can't be before start date" and sends nothing | an end date may not precede a start date that is set; with no start date, any end date is accepted | medium: rests on how the schema library resolves a missing reference; not executed | EmployeeForm.EndWithoutStartRejectedAsWritten | EmployeeForm.FieldErrors |
