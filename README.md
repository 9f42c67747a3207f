# Incident & operations log — a Dafny model

This project models the core of an incident-tracking system. The system has two parts: a Laravel backend and a React web client. In the backend:

- Reporters log incidents.
- Operators investigate the incidents assigned to them.
- Administrators assign incidents, manage accounts and export data.

Every incident moves along the fixed chain open → investigating → resolved → closed. Each change leaves an entry in an append-only activity log. Who may see or change what is decided by a handful of role predicates.

The model covers these parts of the backend:

- the status, priority, action-type and role enumerations;
- the incident and user models with their scopes and role checks;
- the incident and user access policies;
- the incident and activity-log repositories;
- the incident, status, authentication, user, notification, dashboard and export services;
- the three request gates (middleware);
- the decision logic of the incident, user and attachment controllers.

It also covers the web client's pure helpers:

- password strength;
- the email and phone validators;
- the storage-URL builder and the configuration defaults;
- the pagination window;
- the status choices, the timeline filter and sort, and the attachment-link fallback of the incident pages;
- the list page's page arithmetic and its status dialog.

Layout: one Dafny module per source file; small related modules share a `.dfy` file (the two policies in policies.dfy, the three small enums in priority_action_role.dfy).

- Database tables are sequences of records held by classes. The repositories, the activity log, the notification store and the user store are such classes, and their methods change the sequences in place.
- Queries are functions over those sequences. A query's contract states which rows it selects and in what order.
- Timestamps are whole seconds, and a calendar date is a day number.
- The password hash is a transparent wrapper.
- Environment values, clocks, the parse of a date string and the text of a formatted date are parameters.

## Model

| member | source | states |
|---|---|---|
| IncidentStatusEnum.Label | backend/app/Enums/IncidentStatus.php:12-20 | each status's label differs from its value only in the first letter |
| IncidentStatusEnum.Rank | backend/app/Enums/IncidentStatus.php:7-10 | each status has a position in the declared order of the four cases |
| IncidentStatusEnum.Values | backend/app/Enums/IncidentStatus.php:32-35 | the values are exactly open, investigating, resolved, closed, in that order |
| IncidentStatusEnum.FromValue | backend/app/Enums/IncidentStatus.php:32-35 | a string parses to a status iff it is one of the listed values, and then to the status with that value |
| IncidentStatusEnum.ValueRoundTrip | backend/app/Enums/IncidentStatus.php:32-35 | parsing a status's value gives back that status |
| IncidentStatusEnum.ValidTransitions | backend/app/Enums/IncidentStatus.php:40-48 | every status has at most one successor and never lists itself |
| IncidentStatusEnum.CanTransitionTo | backend/app/Enums/IncidentStatus.php:53-56 | a move is allowed iff the target is the next status in the chain |
| IncidentStatusEnum.ExactlyThreeTransitions | backend/app/Enums/IncidentStatus.php:40-56 | the only allowed moves are open→investigating, investigating→resolved and resolved→closed |
| IncidentStatusEnum.ClosedIsTerminal | backend/app/Enums/IncidentStatus.php:46 | closed has no successor and can move nowhere |
| IncidentStatusEnum.NoBackwardNoSkip | backend/app/Enums/IncidentStatus.php:40-56 | moving backwards, staying put or skipping a status is never allowed |
| IncidentStatusEnum.LabelInjective | backend/app/Enums/IncidentStatus.php:12-20 | different statuses have different labels |
| IncidentPriorityEnum.Label | backend/app/Enums/IncidentPriority.php:12-20 | each priority's label differs from its value only in the first letter |
| IncidentPriorityEnum.Color | backend/app/Enums/IncidentPriority.php:22-30 | every priority has a colour among green, yellow, orange, red |
| IncidentPriorityEnum.Weight | backend/app/Enums/IncidentPriority.php:32-40 | the weight is the 1-based position in declaration order (low 1 … urgent 4) |
| IncidentPriorityEnum.Values | backend/app/Enums/IncidentPriority.php:42-45 | the values are low, normal, high, urgent in declaration order |
| IncidentPriorityEnum.FromValue | backend/app/Enums/IncidentPriority.php:42-45 | a string parses to a priority iff it is a listed value, and then to that priority |
| IncidentPriorityEnum.WeightIncreasing | backend/app/Enums/IncidentPriority.php:32-40 | weights strictly increase along the declaration order |
| ActionTypeEnum.Values | backend/app/Enums/ActionType.php:38-41 | the six values equal the action_type column's allowed values in order |
| ActionTypeEnum.EveryCaseListed | backend/database/migrations/2026_01_18_100001_create_incident_updates_table.php:18-25 | every action type is among the six listed cases |
| ActionTypeEnum.LabelInjective | backend/app/Enums/ActionType.php:14-24 | different action types have different labels |
| ActionTypeEnum.IconInjective | backend/app/Enums/ActionType.php:26-36 | different action types have different icons |
| UserRoleEnum.Values | backend/app/Enums/UserRole.php:20-23 | the role values are exactly reporter, operator, admin |
| UserRoleEnum.FromValue | backend/app/Enums/UserRole.php:20-23 | a string parses to a role iff it is a listed value, and then to that role |
| UserRoleEnum.LabelInjective | backend/app/Enums/UserRole.php:11-18 | different roles have different labels |
| UserModel.HashMake | backend/app/Models/User.php:97 | a stored hash checks against the password it was made from |
| UserModel.HashCheckOnlyOriginal | backend/app/Models/User.php:97 | a stored hash checks against no other password |
| UserModel.CanManageIncidents | backend/app/Models/User.php:167-170 | incidents can be managed iff the role is not reporter |
| UserModel.ExactlyOneRole | backend/app/Models/User.php:143-162 | exactly one of admin, operator and reporter holds |
| UserModel.User.constructor | backend/app/Models/User.php:21-32 | a user object holds exactly the given column values |
| UserModel.User.AsActor | backend/app/Models/User.php:143-170 | the acting identity carries the user's id and role |
| UserModel.User.IncrementLoginAttempts | backend/app/Models/User.php:45-48 | the attempt counter rises by one and nothing else changes |
| UserModel.User.ResetLoginAttempts | backend/app/Models/User.php:53-56 | the attempt counter becomes 0 and nothing else changes |
| UserModel.User.Block | backend/app/Models/User.php:37-64 | the account becomes inactive, so blocked; the counter is kept |
| UserModel.User.Unblock | backend/app/Models/User.php:69-75 | the account becomes active with a zero counter, so not blocked |
| UserModel.User.IsBlocked | backend/app/Models/User.php:37-40 | blocked means not active |
| IncidentNumber.PadLeftZeros | backend/app/Models/Incident.php:307 | padding reaches the width, keeps the digits' value and never shortens |
| IncidentNumber.LeadingDigits | backend/app/Models/Incident.php:301 | the integer cast reads a run of digits at the start of the text, all of it when the text is all digits |
| IncidentNumber.LastFour | backend/app/Models/Incident.php:301 | the result is the last four characters, or the whole text when shorter |
| IncidentNumber.MaxLex | backend/app/Models/Incident.php:296-298 | the pick is a member that no other member sorts after as text |
| IncidentNumber.UnderPrefix | backend/app/Models/Incident.php:296 | keeps exactly the existing numbers that start with the day's prefix |
| IncidentNumber.Format | backend/app/Models/Incident.php:293-307 | the number is the prefix followed by at least four digits whose value is the sequence |
| IncidentNumber.GenerateIncidentNumber | backend/app/Models/Incident.php:291-308 | as written: prefix plus a padded sequence equal to the last four characters of the text-greatest number of the day plus one |
| IncidentNumber.FirstOfTheDay | backend/app/Models/Incident.php:303-305 | with no number under today's prefix, both generators give suffix 0001 |
| IncidentNumber.AsWrittenRepeatsANumber | backend/app/Models/Incident.php:296-302 | with ...-9999 and ...-10000 present, the generator as written returns ...-10000 again |
| IncidentNumber.MaxSequence | backend/app/Models/Incident.php:296-302 | corrected: no existing number of the day has a larger full sequence number |
| IncidentNumber.NextIncidentNumber | backend/app/Models/Incident.php:291-308 | corrected: prefix plus digits, never equal to an existing number |
| IncidentModel.UnresolvedIsComplement | backend/app/Models/Incident.php:125-128 | the Unresolved scope is exactly the complement of isResolved, i.e. open or investigating |
| IncidentModel.CanBeViewedBy | backend/app/Models/Incident.php:149-164 | defines viewing: admins all, operators what is assigned to or reported by them, reporters what they reported (stated role by role in IncidentPolicy.ViewByRole) |
| IncidentModel.Unresolved | backend/app/Models/Incident.php:222-228 | defines the Unresolved scope: status value not resolved or closed |
| IncidentModel.AssignedToScope | backend/app/Models/Incident.php:233-236 | defines the AssignedTo scope: assigned_to equals the user id |
| IncidentModel.ReportedByScope | backend/app/Models/Incident.php:241-244 | defines the ReportedBy scope: reported_by equals the user id |
| IncidentModel.SearchScope | backend/app/Models/Incident.php:249-256 | defines the Search scope: LIKE %term% on title, description or number, as substring search |
| IncidentModel.DateRangeScope | backend/app/Models/Incident.php:261-275 | defines the DateRange scope, case by case as IncidentModel.DateRangeCases states |
| IncidentModel.AtRiskScope | backend/app/Models/Incident.php:280-284 | defines the AtRisk scope: unresolved and last updated more than the given hours ago |
| IncidentModel.SearchFindsSubstring | backend/app/Models/Incident.php:249-256 | search matches iff the term occurs in the title, the description or the incident number |
| IncidentModel.DateRangeCases | backend/app/Models/Incident.php:261-275 | from alone matches that exact day; both give an inclusive range; to alone is an upper bound; neither matches all |
| IncidentModel.CreatingHook | backend/app/Models/Incident.php:61-68 | a supplied number is kept; an empty one is replaced by the corrected generator's number under today's prefix, which is not among the existing numbers |
| IncidentPolicy.View | backend/app/Policies/IncidentPolicy.php:22-36 | viewing is allowed exactly when the incident model's canBeViewedBy holds |
| IncidentPolicy.Create | backend/app/Policies/IncidentPolicy.php:41-45 | reporters and admins may create, operators may not |
| IncidentPolicy.Update | backend/app/Policies/IncidentPolicy.php:50-64 | admins, and operators assigned to the incident, may update; anyone allowed can manage incidents |
| IncidentPolicy.UpdateStatus | backend/app/Policies/IncidentPolicy.php:78-92 | the status permission is the same predicate as update |
| IncidentPolicy.AddInternalNote | backend/app/Policies/IncidentPolicy.php:115-119 | an internal note needs comment permission and a managing role |
| IncidentPolicy.ViewByRole | backend/app/Policies/IncidentPolicy.php:22-36 | admin sees all; an operator sees what it is assigned or reported; a reporter sees what it reported |
| IncidentPolicy.ReporterNeverUpdates | backend/app/Policies/IncidentPolicy.php:53-83 | a reporter can neither update nor change status, even on its own incident |
| IncidentPolicy.DeleteAndAssignAdminOnly | backend/app/Policies/IncidentPolicy.php:69-101 | delete and assign are allowed iff the actor is admin |
| IncidentPolicy.CommentAndUploadFollowView | backend/app/Policies/IncidentPolicy.php:106-128 | commenting and uploading are allowed exactly when viewing is |
| IncidentPolicy.AlwaysAllowed | backend/app/Policies/IncidentPolicy.php:13-137 | listing and exporting incidents are allowed for everyone |
| IncidentPolicy.ViewAny | backend/app/Policies/IncidentPolicy.php:13-16 | defines viewAny: everyone (IncidentPolicy.AlwaysAllowed) |
| IncidentPolicy.Delete | backend/app/Policies/IncidentPolicy.php:69-73 | defines delete: admins only (IncidentPolicy.DeleteAndAssignAdminOnly) |
| IncidentPolicy.Assign | backend/app/Policies/IncidentPolicy.php:97-101 | defines assign: admins only (IncidentPolicy.DeleteAndAssignAdminOnly) |
| IncidentPolicy.AddComment | backend/app/Policies/IncidentPolicy.php:106-110 | defines addComment: whoever may view (IncidentPolicy.CommentAndUploadFollowView) |
| IncidentPolicy.UploadAttachment | backend/app/Policies/IncidentPolicy.php:124-128 | defines uploadAttachment: whoever may view (IncidentPolicy.CommentAndUploadFollowView) |
| IncidentPolicy.Export | backend/app/Policies/IncidentPolicy.php:133-137 | defines export: everyone (IncidentPolicy.AlwaysAllowed) |
| UserPolicy.View | backend/app/Policies/UserPolicy.php:21-30 | a profile may be viewed by an admin or by its owner |
| UserPolicy.Update | backend/app/Policies/UserPolicy.php:44-53 | a profile may be updated by an admin or by its owner |
| UserPolicy.Delete | backend/app/Policies/UserPolicy.php:58-67 | deleting needs an admin acting on someone else |
| UserPolicy.ResetPassword | backend/app/Policies/UserPolicy.php:72-81 | resetting a password needs an admin acting on someone else |
| UserPolicy.ChangeRole | backend/app/Policies/UserPolicy.php:86-95 | changing a role needs an admin acting on someone else |
| UserPolicy.AdminOnlyActions | backend/app/Policies/UserPolicy.php:12-113 | listing, creating, exporting and listing operators are allowed iff admin |
| UserPolicy.NoSelfDestructiveActions | backend/app/Policies/UserPolicy.php:58-95 | nobody may delete, reset the password of or change the role of their own account |
| UserPolicy.ViewAny | backend/app/Policies/UserPolicy.php:12-16 | defines viewAny: admins only (UserPolicy.AdminOnlyActions) |
| UserPolicy.Create | backend/app/Policies/UserPolicy.php:35-39 | defines create: admins only (UserPolicy.AdminOnlyActions) |
| UserPolicy.Export | backend/app/Policies/UserPolicy.php:100-104 | defines export: admins only (UserPolicy.AdminOnlyActions) |
| UserPolicy.ViewOperators | backend/app/Policies/UserPolicy.php:109-113 | defines viewOperators: admins only (UserPolicy.AdminOnlyActions) |
| IncidentUpdateModel.AuthorName | backend/app/Models/IncidentUpdate.php:67 | a missing author is called "Someone", otherwise the author's name is used |
| IncidentUpdateModel.Description | backend/app/Models/IncidentUpdate.php:65-80 | every description starts with the author's name and a space |
| IncidentUpdateModel.StatusChangeText | backend/app/Models/IncidentUpdate.php:70 | a status change reads "<name> changed status from <prev> to <new>" |
| IncidentUpdateModel.AssignmentText | backend/app/Models/IncidentUpdate.php:72-74 | an assignment reads "assigned to <new>", or "removed assignment" when the new value is null |
| IncidentUpdateModel.FixedTemplates | backend/app/Models/IncidentUpdate.php:71-77 | comment, edit, priority and severity changes use their own fixed texts |
| IncidentUpdateModel.IsComment | backend/app/Models/IncidentUpdate.php:85-88 | a comment entry is one whose action type is COMMENT |
| IncidentUpdateModel.IsStatusChange | backend/app/Models/IncidentUpdate.php:93-96 | a status-change entry is one whose action type is STATUS_CHANGE |
| IncidentUpdateModel.PublicOnly | backend/app/Models/IncidentUpdate.php:120-123 | keeps exactly the entries that are not internal |
| IncidentUpdateModel.InternalOnly | backend/app/Models/IncidentUpdate.php:128-131 | keeps exactly the internal entries |
| IncidentUpdateModel.PublicInternalPartition | backend/app/Models/IncidentUpdate.php:120-131 | the public and internal scopes split the entries with nothing lost or repeated |
| IncidentUpdateModel.VisibleTo | backend/app/Models/IncidentUpdate.php:137-143 | managers see every entry; anyone else sees exactly the public ones |
| IncidentRepository.UserScope | backend/app/Repositories/Eloquent/IncidentRepository.php:227-237 | the listing scope admits exactly what the view policy allows |
| IncidentRepository.MatchesFilters | backend/app/Repositories/Eloquent/IncidentRepository.php:262-312 | the conjunction of the set filters of buildQuery (IncidentRepository.EachFilterIsAConjunct) |
| IncidentRepository.NoFiltersMatchEverything | backend/app/Repositories/Eloquent/IncidentRepository.php:266-304 | with no filter set, every incident matches |
| IncidentRepository.EachFilterIsAConjunct | backend/app/Repositories/Eloquent/IncidentRepository.php:266-304 | a matching incident satisfies every filter that is set |
| IncidentRepository.ListingKey | backend/app/Repositories/Eloquent/IncidentRepository.php:307-309 | with no sort requested, listings are ordered by creation time |
| IncidentRepository.ListForUser | backend/app/Repositories/Eloquent/IncidentRepository.php:37-56 | exactly the visible rows that match the filters, drawn from the table without duplication, sorted by the listing key descending |
| IncidentRepository.GetRecent | backend/app/Repositories/Eloquent/IncidentRepository.php:139-156 | the newest min(limit, visible) incidents the user may see, newest first: no visible incident left out is newer than one returned |
| IncidentRepository.GetAssignedTo | backend/app/Repositories/Eloquent/IncidentRepository.php:161-174 | the user's unresolved incidents, most urgent (in the priority enum's declaration order) then oldest first; with a truthy limit exactly the first min(limit, all) of them in that order, none left out ranking above one returned; otherwise all of them |
| IncidentRepository.GetAtRisk | backend/app/Repositories/Eloquent/IncidentRepository.php:242-249 | exactly the rows in the at-risk scope, each once, most severe first (in the severity enum's declaration order) and least recently updated first within a severity |
| IncidentRepository.CountKey | backend/app/Repositories/Eloquent/IncidentRepository.php:179-190 | a group count is positive iff some row has that key, and never exceeds the row count |
| IncidentRepository.CountBy | backend/app/Repositories/Eloquent/IncidentRepository.php:179-222 | the grouped map has a key iff some row has it, and a missing key counts 0 |
| IncidentRepository.CountByStatus | backend/app/Repositories/Eloquent/IncidentRepository.php:179-190 | the status counts of the rows in the optional user scope (summed in IncidentRepository.StatusCountsAddUp) |
| IncidentRepository.CountBySeverity | backend/app/Repositories/Eloquent/IncidentRepository.php:195-206 | the severity counts of the rows in the optional user scope |
| IncidentRepository.CountByCategory | backend/app/Repositories/Eloquent/IncidentRepository.php:211-222 | the category counts of the rows in the optional user scope |
| IncidentRepository.StatusCountsAddUp | backend/app/Repositories/Eloquent/IncidentRepository.php:179-190 | the four status counts add up to the number of rows |
| IncidentRepository.WithStatus | backend/app/Repositories/Eloquent/IncidentRepository.php:109-125 | resolving stamps resolved_at and stores non-empty notes; closing stamps closed_at only; open and investigating change only the status |
| IncidentRepository.Saved | backend/app/Repositories/Eloquent/IncidentRepository.php:92-96 | a save with no change leaves the row alone; otherwise updated_at is stamped |
| IncidentRepository.ApplyField | backend/app/Repositories/Eloquent/IncidentRepository.php:92-96 | writing one editable field leaves every other column unchanged |
| IncidentRepository.ApplyFieldsKeepsOthers | backend/app/Repositories/Eloquent/IncidentRepository.php:92-96 | an update touches only editable columns, and notes only when supplied |
| IncidentRepository.ApplyUpdateKeepsLifecycle | backend/app/Repositories/Eloquent/IncidentRepository.php:92-96 | an edit never changes status, reporter, assignee or timestamps |
| IncidentRepository.NumbersOf | backend/app/Repositories/Eloquent/IncidentRepository.php:79-87 | lists the incident numbers of the rows in order |
| IncidentRepository.IndexOfId | backend/app/Repositories/Eloquent/IncidentRepository.php:101-104 | finds the position of the row with an id, or reports that none has it |
| IncidentRepository.IncidentRepository.constructor | backend/app/Repositories/Eloquent/IncidentRepository.php:14 | a new store is empty |
| IncidentRepository.IncidentRepository.Create | backend/app/Repositories/Eloquent/IncidentRepository.php:79-87 | appends one open, unassigned incident with the next id; an empty number gets a new one from the corrected generator; a taken supplied number is refused with nothing written |
| IncidentRepository.IncidentRepository.UpdateStatus | backend/app/Repositories/Eloquent/IncidentRepository.php:109-125 | only that row changes, to its status-changed and saved form |
| IncidentRepository.IncidentRepository.Assign | backend/app/Repositories/Eloquent/IncidentRepository.php:130-134 | only that row's assignee changes, null meaning unassigned |
| IncidentRepository.IncidentRepository.Update | backend/app/Repositories/Eloquent/IncidentRepository.php:92-96 | only that row changes, by the supplied fields |
| IncidentRepository.IncidentRepository.Delete | backend/app/Repositories/Eloquent/IncidentRepository.php:101-104 | removes that row and keeps the others in order |
| IncidentUpdateRepository.GetForIncident | backend/app/Repositories/Eloquent/IncidentUpdateRepository.php:19-29 | the incident's entries, hiding internal ones only from a viewer who cannot manage, each as often as in the table, newest first |
| IncidentUpdateRepository.GetForIncidentByViewer | backend/app/Repositories/Eloquent/IncidentUpdateRepository.php:24-26 | a null viewer and managers see every entry; a reporter sees an entry iff it is public |
| IncidentUpdateRepository.GetRecentActivity | backend/app/Repositories/Eloquent/IncidentUpdateRepository.php:111-136 | the newest min(limit, visible) entries on incidents the user may see, none internal for non-managers, newest first: no visible entry left out is newer than one returned |
| IncidentUpdateRepository.IncidentUpdateRepository.constructor | backend/app/Repositories/Eloquent/IncidentUpdateRepository.php:14 | a new log is empty |
| IncidentUpdateRepository.IncidentUpdateRepository.Create | backend/app/Repositories/Eloquent/IncidentUpdateRepository.php:49-52 | appends exactly one entry and leaves earlier entries unchanged |
| IncidentUpdateRepository.IncidentUpdateRepository.CreateStatusChange | backend/app/Repositories/Eloquent/IncidentUpdateRepository.php:57-68 | appends one public status-change entry with the previous and new values |
| IncidentUpdateRepository.IncidentUpdateRepository.CreateAssignmentChange | backend/app/Repositories/Eloquent/IncidentUpdateRepository.php:73-84 | appends one public assignment entry whose names may be null |
| IncidentUpdateRepository.IncidentUpdateRepository.CreateComment | backend/app/Repositories/Eloquent/IncidentUpdateRepository.php:89-98 | appends one comment entry with the given internal flag |
| IncidentUpdateRepository.IncidentUpdateRepository.Delete | backend/app/Repositories/Eloquent/IncidentUpdateRepository.php:103-106 | removes that entry and keeps the others in order |
| IncidentUpdateRepository.IncidentUpdateRepository.DeleteForIncident | backend/database/migrations/2026_01_18_100001_create_incident_updates_table.php:16 | the `incident_id` cascade: removes exactly the entries of that incident, keeping the rest in order |
| IncidentStatusService.CheckStatusUpdate | backend/app/Services/IncidentStatusService.php:25-42 | succeeds iff the target is a legal next status and resolving has notes from the request or the record |
| IncidentStatusService.TransitionCheckedBeforeNotes | backend/app/Services/IncidentStatusService.php:31-42 | open→resolved fails as an illegal move whatever the notes |
| IncidentStatusService.ResolvingNeedsSomeNotes | backend/app/Services/IncidentStatusService.php:38-42 | resolving succeeds iff the new or the stored notes are non-empty |
| IncidentStatusService.GetValidTransitions | backend/app/Services/IncidentStatusService.php:65-75 | one value-label pair per allowed successor, in the same order |
| IncidentStatusService.CanTransition | backend/app/Services/IncidentStatusService.php:80-88 | false for an unknown value, otherwise the enum's transition check |
| IncidentStatusService.OfferedIffAllowed | backend/app/Services/IncidentStatusService.php:65-88 | a target is offered iff it is allowed |
| IncidentStatusService.IncidentStatusService.constructor | backend/app/Services/IncidentStatusService.php:15-18 | the service works on the given stores and has emitted no events |
| IncidentStatusService.IncidentStatusService.UpdateStatus | backend/app/Services/IncidentStatusService.php:25-60 | a refused update changes nothing; a success sets the status, appends one status-change entry and one event |
| IncidentService.CreateAttributes | backend/app/Services/IncidentService.php:60-70 | severity defaults to medium, priority to normal, category to other; the reporter is the creator |
| IncidentService.Collected | backend/app/Services/IncidentService.php:96-102 | keeps exactly the editable fields that were supplied, never resolution notes |
| IncidentService.UpdatePayload | backend/app/Services/IncidentService.php:91-141 | severity and priority are written only when they differ from the current values |
| IncidentService.ChangeLog | backend/app/Services/IncidentService.php:105-126 | one entry for a changed severity and one for a changed priority |
| IncidentService.UpdateLog | backend/app/Services/IncidentService.php:105-138 | at most three public entries, none iff nothing is written, ending in the edit entry |
| IncidentService.UpdateLogOrder | backend/app/Services/IncidentService.php:105-138 | severity comes before priority, and the edit entry comes last |
| IncidentService.EditAlwaysLoggedNotesIgnored | backend/app/Services/IncidentService.php:96-138 | any supplied field logs an edit, while notes and status are never changed by an edit |
| IncidentService.Stamp | backend/app/Repositories/Eloquent/IncidentUpdateRepository.php:49-52 | entries get consecutive ids and the same time, keeping their content |
| IncidentService.NameOf | backend/app/Services/IncidentService.php:156-160 | a name is found iff the id is given and known |
| IncidentService.IncidentService.constructor | backend/app/Services/IncidentService.php:18-21 | the service works on the given stores and has emitted no events |
| IncidentService.IncidentService.Create | backend/app/Services/IncidentService.php:58-86 | appends one open incident with a number from the corrected generator, not among the existing ones, one public "reported" comment, and one event |
| IncidentService.IncidentService.CollectFields | backend/app/Services/IncidentService.php:96-102 | the loop collects exactly the supplied editable fields |
| IncidentService.IncidentService.Update | backend/app/Services/IncidentService.php:91-141 | the log gains exactly the edit's log (severity change, priority change, then the EDIT entry, only for a non-empty payload) with consecutive ids; the row is saved with the payload applied only for a non-empty payload, and otherwise left as it was |
| IncidentService.IncidentService.EditPayload | backend/app/Services/IncidentService.php:95-118 | the payload is the collected columns plus a severity or priority only when it differs from the row's |
| IncidentService.IncidentService.SaveEdit | backend/app/Services/IncidentService.php:128-138 | for a non-empty payload the row at that position is saved with the payload applied and exactly one EDIT entry with the next id is appended; for an empty payload neither table changes |
| IncidentService.EditEntry | backend/app/Services/IncidentService.php:132-137 | the EDIT entry is public, carries the editor, the incident and the fixed comment |
| IncidentService.UpdateLogStamped | backend/app/Services/IncidentService.php:104-137 | the entries stored by an edit are exactly its log stamped with consecutive ids: nothing for an empty payload, else the changes then the EDIT entry |
| IncidentService.LogOfUpdate | backend/app/Services/IncidentService.php:104-137 | logging the changes and then, for a non-empty payload, the EDIT entry leaves the log extended by exactly the edit's stamped log |
| IncidentService.IncidentService.LogChanges | backend/app/Services/IncidentService.php:105-126 | appends exactly the change log, stamped with consecutive ids |
| IncidentService.IncidentService.Delete | backend/app/Services/IncidentService.php:146-149 | removes the incident row and keeps the others in order; the cascade removes exactly its log entries; no event |
| IncidentService.IncidentService.Assign | backend/app/Services/IncidentService.php:154-174 | sets the assignee, appends one assignment entry with both names, and emits an event only for a non-null operator |
| IncidentService.IncidentService.AddComment | backend/app/Services/IncidentService.php:211-214 | appends exactly one comment with the given internal flag |
| AuthService.LoginStep | backend/app/Services/AuthService.php:24-72 | blocked accounts fail untouched; a wrong password counts and blocks at three; a right one resets the counter |
| AuthService.LoginKeepsCounterBelowLimit | backend/app/Services/AuthService.php:41-55 | a login step preserves "an active account has fewer than three failed attempts"; re-activation through the user update does not (UserService.ReactivationKeepsStrikes) |
| AuthService.LoginTouchesOnlyLockoutColumns | backend/app/Services/AuthService.php:24-72 | a login attempt changes only the counter, the active flag and the last login time, and never reactivates |
| AuthService.ThreeStrikes | backend/app/Services/AuthService.php:41-55 | three wrong passwords block the account, after which even the right password fails |
| AuthService.Login | backend/app/Services/AuthService.php:24-72 | an unknown email fails; otherwise the outcome and new state are those of one login step |
| AuthService.ChangePassword | backend/app/Services/AuthService.php:151-163 | a wrong current password changes nothing; it succeeds iff the current password checks, storing the new password and clearing first login |
| AuthService.FirstLoginPasswordChange | backend/app/Services/AuthService.php:170-182 | refused unless first login; otherwise stores the password and clears the flag |
| AuthService.ProfileUpdated | backend/app/Services/AuthService.php:187-208 | only name, phone and avatar change, each only when supplied; email never changes |
| AuthService.UpdateProfile | backend/app/Services/AuthService.php:187-208 | the user's new state is the profile update of the old one |
| AuthService.SendPasswordResetLink | backend/app/Services/AuthService.php:95-111 | an unknown email succeeds silently; otherwise success iff the broker sent the link |
| UserService.NewUserState | backend/app/Services/UserService.php:46-67 | a new account is first-login, active unless told otherwise, with the given phone and a hash of the password |
| UserService.UserUpdated | backend/app/Services/UserService.php:72-101 | only supplied fields among name, email, role, phone, active and avatar change |
| UserService.ReactivationKeepsStrikes | backend/app/Services/UserService.php:92-94 | setting is_active on an account blocked by three failed logins makes it active with the counter still at three, so the next wrong password blocks it again without warning |
| UserService.Statistics | backend/app/Services/UserService.php:122-136 | each field is the number of accounts in its group (active, inactive, admins, operators, reporters); active plus inactive and the three role counts each add up to the total |
| UserService.ActivePartition | backend/app/Services/UserService.php:122-136 | every user is either active or inactive |
| UserService.RolesPartition | backend/app/Services/UserService.php:122-136 | every user has exactly one of the three roles |
| UserService.UserService.constructor | backend/app/Services/UserService.php:15-17 | a new user store is empty |
| UserService.UserService.States | backend/app/Services/UserService.php:122-136 | the store's rows, position by position |
| UserService.UserService.Create | backend/app/Services/UserService.php:46-67 | appends one new account and emits an event carrying the same password that was hashed |
| UserService.UserService.Update | backend/app/Services/UserService.php:72-101 | the account's new state is the update of the old one |
| UserService.UserService.Delete | backend/app/Services/UserService.php:106-109 | removes the account from the store for good |
| UserService.UserService.ResetPassword | backend/app/Services/UserService.php:141-154 | stores a hash of the new password, sets first login and mails that password |
| NotificationService.Batch | backend/app/Services/NotificationService.php:15-30 | one unread record per recipient, with consecutive ids |
| NotificationService.RecipientIds | backend/app/Services/NotificationService.php:35-52 | exactly the ids of users who receive the new-incident notice |
| NotificationService.CreatedRecipientsByRole | backend/app/Services/NotificationService.php:38-41 | all operators, active admins and no reporters are told of a new incident |
| NotificationService.InvolvedRecipients | backend/app/Services/NotificationService.php:57-82 | the reporter and the assignee, never the actor and nobody else |
| NotificationService.AssignmentRecipients | backend/app/Services/NotificationService.php:87-100 | nobody when someone assigns to themselves, otherwise the assignee |
| NotificationService.MarkRead | backend/app/Services/NotificationService.php:163-168 | only the record with that id gets a read time |
| NotificationService.MarkAllRead | backend/app/Services/NotificationService.php:173-179 | exactly that user's unread records get a read time |
| NotificationService.GetUnreadForUser | backend/app/Services/NotificationService.php:131-147 | exactly that user's unread records, each as often as stored, newest first |
| NotificationService.GetUnreadCount | backend/app/Services/NotificationService.php:184-190 | the number of that user's unread records, counted row by row, and the length of the unread list |
| NotificationService.MarkAllReadClearsOnlyTheUser | backend/app/Services/NotificationService.php:173-190 | afterwards the user has no unread records and others' records are untouched |
| NotificationService.MarkReadLowersCount | backend/app/Services/NotificationService.php:163-190 | marking one record read never raises anyone's unread count |
| NotificationService.NotificationService.constructor | backend/app/Services/NotificationService.php:10 | a new store is empty |
| NotificationService.NotificationService.NotifyUser | backend/app/Services/NotificationService.php:15-30 | appends exactly one unread record for that user |
| NotificationService.NotificationService.NotifyIncidentCreated | backend/app/Services/NotificationService.php:35-52 | appends one record per new-incident recipient |
| NotificationService.NotificationService.NotifyInvolved | backend/app/Services/NotificationService.php:57-82 | appends one record per involved user other than the actor |
| NotificationService.NotificationService.NotifyStatusChanged | backend/app/Services/NotificationService.php:57-82 | tells the reporter and the assignee of a status change, never the changer |
| NotificationService.NotificationService.NotifyAssignment | backend/app/Services/NotificationService.php:87-100 | tells the assignee unless they assigned themselves |
| NotificationService.NotificationService.NotifyComment | backend/app/Services/NotificationService.php:105-126 | tells the reporter and the assignee of a comment, never the commenter |
| NotificationService.NotificationService.MarkAsRead | backend/app/Services/NotificationService.php:163-168 | the store becomes its mark-one-read form |
| NotificationService.NotificationService.MarkAllAsRead | backend/app/Services/NotificationService.php:173-179 | the store becomes its mark-all-read form for that user |
| DashboardService.CalculateRiskLevel | backend/app/Services/DashboardService.php:273-286 | critical iff over 48 hours or weight at least 4 and over 8 hours; high iff not critical and over 24 hours or weight at least 3 and over 12 |
| DashboardService.RiskIsMonotonic | backend/app/Services/DashboardService.php:273-286 | more weight or more hours never lowers the risk |
| DashboardService.RiskByTimeAlone | backend/app/Services/DashboardService.php:277-285 | over 48 hours is critical, over 24 at least high, and light incidents within a day medium |
| DashboardService.FractionalHours | backend/app/Services/DashboardService.php:255 | `diffInHours` as Carbon 3 returns it: the signed, fractional hours from the update to now |
| DashboardService.TruncateToInt | backend/app/Services/DashboardService.php:273 | the `int` parameter's cast of a float: the integer part toward zero |
| DashboardService.HoursBetween | backend/app/Services/DashboardService.php:273 | the whole number of hours between two times |
| DashboardService.WholePartOfHours | backend/app/Services/DashboardService.php:255-273 | for a past update, the cast of the fractional hours is the whole number of hours |
| DashboardService.AlertFor | backend/app/Services/DashboardService.php:254-266 | an alert carries the incident's id, number, title, severity and status value, the assignee's name or "Unassigned", the fractional hours since its last update, and the risk of their whole part |
| DashboardService.AtRiskHours | backend/app/Services/DashboardService.php:250-268 | an at-risk incident's alert reports more than the threshold in hours, and at least the threshold in whole hours |
| DashboardService.GetEscalationAlerts | backend/app/Services/DashboardService.php:250-268 | one alert per at-risk incident, in order |
| DashboardService.AlertsPastThreshold | backend/app/Services/DashboardService.php:250-268 | every alert is for an at-risk incident idle more than the threshold |
| DashboardService.LongThresholdAllCritical | backend/app/Services/DashboardService.php:250-286 | with a threshold over 48 hours every alert is critical |
| DashboardService.StatusKeysKnown | backend/app/Repositories/Eloquent/IncidentRepository.php:179-190 | the status counts have no key outside the four statuses |
| DashboardService.UnscopedCountsAll | backend/app/Repositories/Eloquent/IncidentRepository.php:227-237 | with no user, the scope keeps every row |
| DashboardService.StatusCount | backend/app/Services/DashboardService.php:37-43 | the unscoped count for a status is the number of rows with it |
| DashboardService.SeverityCount | backend/app/Services/DashboardService.php:45-46 | the unscoped count for a severity is the number of rows with it |
| DashboardService.GetStats | backend/app/Services/DashboardService.php:25-63 | the total is the sum of the status counts; per-role figures appear only for their role |
| DashboardService.SeveritySlices | backend/app/Services/DashboardService.php:68-78 | four slices in fixed order, 0 for a missing key |
| DashboardService.GetSeverityBreakdown | backend/app/Services/DashboardService.php:68-78 | four slices whose values are the severity counts |
| DashboardService.StatusSlices | backend/app/Services/DashboardService.php:83-93 | four slices in fixed order, 0 for a missing key |
| DashboardService.GetStatusDistribution | backend/app/Services/DashboardService.php:83-93 | four slices whose values are the status counts |
| DashboardService.StatusSlicesCoverAll | backend/app/Services/DashboardService.php:83-93 | the status slices add up to the number of incidents |
| DashboardService.SeverityCountsAddUp | backend/app/Services/DashboardService.php:68-78 | with known severities only, the four severity counts add up to the rows |
| DashboardService.SeveritySlicesCoverAll | backend/app/Services/DashboardService.php:68-78 | with known severities only, the severity slices add up to the incidents |
| DashboardService.TrendCount | backend/app/Services/DashboardService.php:119-129 | the day's count in the query is positive iff some incident after the cutoff fell on that day |
| DashboardService.DayCount | backend/app/Services/DashboardService.php:119-138 | a day's count never exceeds the rows |
| DashboardService.WholeDayCounted | backend/app/Services/DashboardService.php:119-138 | a day inside the window is counted whole |
| DashboardService.TrendQuery | backend/app/Services/DashboardService.php:119-129 | the grouped query has a key iff that day had incidents after the cutoff |
| DashboardService.GetTrends | backend/app/Services/DashboardService.php:117-141 | exactly d consecutive days ending today, oldest first, each with its count and 0 when none |
| DashboardService.TrendDaysConsecutive | backend/app/Services/DashboardService.php:131-138 | the series steps one day at a time and ends today |
| ExportService.ExportAndListingFilters | backend/app/Services/ExportService.php:139-181 | export and listing filters agree except a lone from date, which means on or after for export but that exact day for listing |
| ExportService.ExportMatches | backend/app/Services/ExportService.php:139-181 | the conjunction of the set export filters, each date bound inclusive on its own |
| ExportService.UserExportMatches | backend/app/Services/ExportService.php:186-204 | role, active status and name-or-email search filters of the user export |
| ExportService.IncidentRow | backend/app/Services/ExportService.php:62-77 | fourteen fields; an absent assignee prints "Unassigned"; absent resolve and close times print "" |
| ExportService.ExportedIncidents | backend/app/Services/ExportService.php:44-59 | exactly the rows in the listings' visibility scope that pass the export filters, each as often as stored, newest first |
| ExportService.IncidentLines | backend/app/Services/ExportService.php:62-77 | one line per exported incident, in order |
| ExportService.ExportIncidents | backend/app/Services/ExportService.php:16-85 | the header of fourteen names followed by one line per exported incident |
| ExportService.ExportIncidentsComplete | backend/app/Services/ExportService.php:16-85 | every visible incident that passes the filters has its line in the export |
| ExportService.AnyOtherStatusMeansInactive | backend/app/Services/ExportService.php:192-195 | a status filter other than "active" selects the inactive users |
| ExportService.UserRow | backend/app/Services/ExportService.php:117-126 | the id as digits, Active or Inactive, "Never" for a missing last login, "" for a missing phone |
| ExportService.ExportedUsers | backend/app/Services/ExportService.php:186-204 | exactly the users that pass the filters, each as often as stored, newest first |
| ExportService.UserLines | backend/app/Services/ExportService.php:117-126 | one line per exported user, in order |
| ExportService.ExportUsers | backend/app/Services/ExportService.php:90-134 | the header of eight names followed by one line per exported user |
| ExportService.ExportUsersComplete | backend/app/Services/ExportService.php:90-134 | every user that passes the filters has its line in the export |
| Middleware.RoleGate | backend/app/Http/Middleware/RoleMiddleware.php:18-40 | no user gives 401; a role outside the list gives 403; otherwise the request passes |
| Middleware.EmptyAllowListRejectsAll | backend/app/Http/Middleware/RoleMiddleware.php:30-37 | an empty role list turns away every signed-in user with 403 |
| Middleware.RoleListsMatchRoles | backend/app/Http/Middleware/RoleMiddleware.php:30-39 | the admin list admits exactly admins; the admin-operator list admits exactly managers |
| Middleware.CheckFirstLogin | backend/app/Http/Middleware/CheckFirstLogin.php:29-46 | passes iff there is no user, it is not a first login, or the path starts with an excepted route; otherwise 403 asking for a password change |
| Middleware.Excepted | backend/app/Http/Middleware/CheckFirstLogin.php:14-37 | a path is excepted iff it starts with one of the three listed routes |
| Middleware.ExceptionIsAPrefixMatch | backend/app/Http/Middleware/CheckFirstLogin.php:14-37 | route exceptions match by prefix, not by equality |
| Middleware.AccessTokens.constructor | backend/app/Http/Middleware/EnsureUserIsActive.php:22 | the token store holds the given tokens |
| Middleware.AccessTokens.Revoke | backend/app/Http/Middleware/EnsureUserIsActive.php:22 | removes exactly the current token |
| Middleware.EnsureUserIsActive | backend/app/Http/Middleware/EnsureUserIsActive.php:20-30 | an inactive user loses the current token and gets 403; everyone else passes with tokens untouched |
| IncidentController.FindViewable | backend/app/Http/Controllers/Api/IncidentController.php:105-120 | 404 iff no incident has the id, 403 iff it exists but is not viewable; an existing viewable incident always gives its position |
| IncidentController.Show | backend/app/Http/Controllers/Api/IncidentController.php:103-126 | an existing, viewable incident is returned; 403 iff it exists but may not be viewed; otherwise 404 |
| IncidentController.ForbiddenRevealsExistence | backend/app/Http/Controllers/Api/IncidentController.php:105-120 | 404 means no such id; 403 means the incident exists |
| IncidentController.Updates | backend/app/Http/Controllers/Api/IncidentController.php:276-300 | fails as the lookup fails; otherwise exactly the repository's log for that viewer: the entries they may see, each as often as stored, newest first |
| IncidentController.ValidTransitionsReply | backend/app/Http/Controllers/Api/IncidentController.php:370-388 | 404 iff no such incident; otherwise the current status and exactly the allowed targets |
| IncidentController.EffectiveInternal | backend/app/Http/Controllers/Api/IncidentController.php:330-333 | a note is internal iff requested and the author can manage incidents |
| IncidentController.ReportersNeverWriteInternalNotes | backend/app/Http/Controllers/Api/IncidentController.php:330-333 | a reporter's note is never internal; operators and admins are treated alike |
| IncidentController.UpdateStatus | backend/app/Http/Controllers/Api/IncidentController.php:201-231 | non-managers get 403, an unknown status 422, an unknown id 404, a refused move 422, each with nothing changed; success saves the row, appends one public STATUS_CHANGE entry with both values and raises one IncidentStatusChanged event |
| IncidentController.Destroy | backend/app/Http/Controllers/Api/IncidentController.php:166-190 | non-admins get 403 before any lookup; an admin gets 404 for a missing id; success removes the row and, by the cascade, its log entries; a failure changes nothing |
| IncidentController.AssignMessage | backend/app/Http/Controllers/Api/IncidentController.php:258-260 | says "assigned" iff an operator id is given and truthy, "unassigned" otherwise |
| IncidentController.Assign | backend/app/Http/Controllers/Api/IncidentController.php:241-267 | non-admins get 403, an unknown operator 422, an unknown id 404, each with nothing changed; success sets the assignee, appends one public ASSIGNMENT entry with both names, raises IncidentAssigned only for a truthy operator id, and reports the matching message |
| IncidentController.AddComment | backend/app/Http/Controllers/Api/IncidentController.php:311-346 | fails as the lookup fails, changing nothing; otherwise appends one comment with the effective internal flag |
| UserController.Toggled | backend/app/Http/Controllers/Api/UserController.php:232-238 | an active user is blocked; an inactive one is unblocked with a zero counter |
| UserController.ToggleTwice | backend/app/Http/Controllers/Api/UserController.php:232-238 | toggling twice restores the active flag but leaves the counter at 0 |
| UserController.ToggleStatus | backend/app/Http/Controllers/Api/UserController.php:218-245 | a missing user gives 404; oneself gives 403 unchanged; anyone else is toggled |
| AttachmentController.AttachmentIndex | backend/app/Http/Controllers/Api/AttachmentController.php:111-118 | finds the attachment with an id, or reports that none has it |
| AttachmentController.Index | backend/app/Http/Controllers/Api/AttachmentController.php:27-51 | 404 iff no incident; 403 iff not viewable; succeeds iff the incident exists and is viewable, with exactly that incident's attachments, each as often as stored |
| AttachmentController.CheckUpload | backend/app/Http/Controllers/Api/AttachmentController.php:63-65 | an upload passes iff a file is present and at most 10240 KB |
| AttachmentController.DownloadCheck | backend/app/Http/Controllers/Api/AttachmentController.php:154-159 | a download is allowed iff the attachment's incident is viewable |
| AttachmentController.Download | backend/app/Http/Controllers/Api/AttachmentController.php:143-165 | 404 iff no attachment; otherwise success iff the attachment's incident is viewable, returning its stored path and name |
| AttachmentController.AttachmentTable.constructor | backend/database/migrations/2026_01_18_100002_create_incident_attachments_table.php:16 | a new attachment table is empty |
| AttachmentController.AttachmentTable.Store | backend/app/Http/Controllers/Api/AttachmentController.php:61-100 | refuses a bad file, a missing or unviewable incident; succeeds iff none of these applies, appending one row by the actor for that incident |
| AttachmentController.AttachmentTable.Destroy | backend/app/Http/Controllers/Api/AttachmentController.php:109-134 | 404 for no attachment; removal iff the actor uploaded it or is admin |
| PasswordStrength.Flags | frontend/src/utils/password.ts:2-8 | the five rule results in order |
| PasswordStrength.TrueCount | frontend/src/utils/password.ts:10 | the number of true flags, at most their count |
| PasswordStrength.RulesMet | frontend/src/utils/password.ts:10 | the number of satisfied rules, at most five |
| PasswordStrength.GetPasswordStrength | frontend/src/utils/password.ts:1-14 | the length rule holds iff the password has at least 8 UTF-16 code units; each class rule iff some character is in its class; the score counts the rules met; strong iff the score is at least 4 |
| PasswordStrength.CountTrueFlags | frontend/src/utils/password.ts:10 | counting the flags equals counting satisfied rules |
| PasswordStrength.EmptyPasswordScoresZero | frontend/src/utils/password.ts:2-11 | the empty password scores 0 and is not strong |
| PasswordStrength.ShortPasswordCanBeStrong | frontend/src/utils/password.ts:3-11 | a password of seven code units with every other kind of character is strong |
| PasswordStrength.Utf16Length | frontend/src/utils/password.ts:3 | `length` counts UTF-16 code units: between one and two per character |
| PasswordStrength.AstralCharactersCountTwice | frontend/src/utils/password.ts:3 | four emoji meet the length rule although they are only four characters |
| PasswordStrength.StrongFailsAtMostOneRule | frontend/src/utils/password.ts:10-11 | a strong password breaks at most one rule |
| PasswordStrength.AppendingNeverWeakens | frontend/src/utils/password.ts:2-11 | adding characters never lowers the score |
| Validators.IsValidPhoneNumber | frontend/src/utils/validators.ts:5-10 | "" is valid; otherwise valid iff "0" or "+255" followed by nine digits, hence 10 or 13 characters |
| Validators.CountryCodeNeedsPlus | frontend/src/utils/validators.ts:7-9 | the country code without "+" is refused |
| Validators.Occurrences | frontend/src/utils/validators.ts:2 | counts the '@' signs in a text |
| Validators.IndexOf | frontend/src/utils/validators.ts:2 | finds the first position of a character, or reports that it is absent |
| Validators.ChecklistMatchesRegex | frontend/src/utils/validators.ts:2 | a string passing the checklist splits into local part, '@', domain name, '.', suffix |
| Validators.RegexMatchesChecklist | frontend/src/utils/validators.ts:2 | any such split passes the checklist |
| Validators.EmailChecklistIsRegex | frontend/src/utils/validators.ts:1-3 | an email is valid iff it has exactly one '@', no white space anywhere, a non-empty local part, and a domain with a '.' that has text on both sides |
| Validators.EmailExamples | frontend/src/utils/validators.ts:1-3 | "" and "a@b" and "a@@b.c" are invalid, "a@b.c" is valid |
| Validators.IsValidEmail | frontend/src/utils/validators.ts:1-3 | the checklist form of the email regex, equal to it by Validators.EmailChecklistIsRegex |
| AppConfig.Load | frontend/src/utils/appConfig.ts:7-11 | a set variable is used even when empty; the application name and the `/api` base have their own defaults, the Sanctum base defaults to the local server, and storage to the Sanctum base plus "/storage" |
| AppConfig.ApiBaseIndependent | frontend/src/utils/appConfig.ts:4-11 | setting the `/api` base changes neither the Sanctum base nor the storage base |
| AppConfig.DefaultsAreAbsolute | frontend/src/utils/appConfig.ts:7-11 | with nothing set, the `/api`, Sanctum and storage bases all start with "http" |
| Urls.StripLeadingSlashes | frontend/src/utils/urls.ts:8 | removes exactly the leading '/' characters |
| Urls.GetFileUrl | frontend/src/utils/urls.ts:3-10 | no URL for a missing or empty path; absolute paths unchanged; otherwise storage base, '/', and the path without leading slashes |
| Urls.UnderStorage | frontend/src/utils/urls.ts:8-9 | the URL is the storage base and one '/', followed by the path with only its leading slashes removed |
| Urls.LeadingSlashIgnored | frontend/src/utils/urls.ts:8 | a leading '/' does not change the URL of a relative path |
| Urls.GetFileUrlIdempotent | frontend/src/utils/urls.ts:5-9 | with an absolute storage base, building a URL from a built URL returns it unchanged |
| Pagination.Run | frontend/src/components/common/Pagination.tsx:30-32 | the consecutive pages from lo to hi |
| Pagination.PageNumbers | frontend/src/components/common/Pagination.tsx:23-36 | the page window: every page up to seven, otherwise first, ellipsis, three around the current page, ellipsis, last |
| Pagination.GetPageNumbers | frontend/src/components/common/Pagination.tsx:23-36 | the loops build exactly the page window |
| Pagination.Numbers | frontend/src/components/common/Pagination.tsx:23-36 | the page numbers of a pager, skipping ellipses |
| Pagination.FewPagesAllShown | frontend/src/components/common/Pagination.tsx:25-27 | up to seven pages, every page is listed |
| Pagination.ManyPagesShape | frontend/src/components/common/Pagination.tsx:28-34 | with more than seven pages: first 1, last the total, and the window in between |
| Pagination.EllipsisPlacement | frontend/src/components/common/Pagination.tsx:29-33 | a leading ellipsis iff the page is past 3; a trailing one iff it is more than two from the end |
| Pagination.PagerIsBounded | frontend/src/components/common/Pagination.tsx:23-36 | at most seven items; numbers strictly increase and lie in range |
| Pagination.EllipsisHidesAPage | frontend/src/components/common/Pagination.tsx:29-33 | an ellipsis always stands for at least one page |
| Pagination.PrevTarget | frontend/src/components/common/Pagination.tsx:46-47 | the previous page, or nothing when disabled |
| Pagination.NextTarget | frontend/src/components/common/Pagination.tsx:74-75 | the next page, or nothing when disabled |
| StatusOptions.NextStatuses | frontend/src/pages/incidents/IncidentDetailPage.tsx:40-51 | nothing for an unknown status; otherwise the backend's successors as value-label pairs |
| StatusOptions.OfferedIsAllowed | frontend/src/pages/incidents/IncidentListPage.tsx:43-54 | every offered target is an allowed backend move |
| StatusOptions.AllowedIsOffered | frontend/src/pages/incidents/IncidentListPage.tsx:43-54 | every allowed backend move is offered |
| StatusOptions.ClosedOffersNothing | frontend/src/pages/incidents/IncidentDetailPage.tsx:40-51 | closed offers no next status |
| IncidentListPage.TotalPages | frontend/src/pages/incidents/IncidentListPage.tsx:116 | at least one page, enough pages for every item, and no empty last page |
| IncidentListPage.ShowingRangeIsAPage | frontend/src/pages/incidents/IncidentListPage.tsx:143-144 | for a page in range, the shown range is non-empty, within the total and at most a page |
| IncidentListPage.PagesAreContiguous | frontend/src/pages/incidents/IncidentListPage.tsx:143-144 | each page starts right after the previous one ends |
| IncidentListPage.PagerStaysInRange | frontend/src/pages/incidents/IncidentListPage.tsx:548-549 | next and previous are enabled exactly when they stay within the pages |
| IncidentListPage.StatusDialog.constructor | frontend/src/pages/incidents/IncidentListPage.tsx:92-97 | the dialog starts closed and blank |
| IncidentListPage.StatusDialog.Open | frontend/src/pages/incidents/IncidentListPage.tsx:174-180 | selects the first next status or "" and clears the texts |
| IncidentListPage.StatusDialog.Edit | frontend/src/pages/incidents/IncidentListPage.tsx:95-97 | sets the three edited fields and keeps the target |
| IncidentListPage.StatusDialog.Submit | frontend/src/pages/incidents/IncidentListPage.tsx:182-199 | refuses without a target, a status or a comment that `trim()` leaves non-empty (Unicode white space included), or without such notes when resolving or closing; succeeds iff none of these refusals applies, with the request |
| IncidentListPage.StatusDialog.Close | frontend/src/pages/incidents/IncidentListPage.tsx:199 | the dialog has no target, and the typed fields stay as they were |
| IncidentListPage.OpenedDialogPreselectsLegalStep | frontend/src/pages/incidents/IncidentListPage.tsx:174-180 | a freshly opened dialog selects an allowed move, or nothing for closed |
| IncidentDetailPage.SubmitStatus | frontend/src/pages/incidents/IncidentDetailPage.tsx:204-214 | refuses a note that `trim()` empties (Unicode white space included), or such notes when resolving or closing; sends the request iff the route has an id and neither refusal applies |
| IncidentDetailPage.Shown | frontend/src/pages/incidents/IncidentDetailPage.tsx:266-269 | keeps the entries the viewer may see |
| IncidentDetailPage.VisibleUpdates | frontend/src/pages/incidents/IncidentDetailPage.tsx:266-281 | a permutation of the shown entries, newest first then highest id; no internal entries for non-managers |
| IncidentDetailPage.TimelineIsAPermutation | frontend/src/pages/incidents/IncidentDetailPage.tsx:270-280 | the timeline has the same entries as the shown list, each equally often |
| IncidentDetailPage.LastSegment | frontend/src/pages/incidents/IncidentDetailPage.tsx:355-357 | the text after the last '/' |
| IncidentDetailPage.AttachmentViewUrl | frontend/src/pages/incidents/IncidentDetailPage.tsx:343-360 | an absolute url as is; a relative one prefixed with the base; then the file name chain; otherwise the download URL |
| IncidentDetailPage.FallbackOrder | frontend/src/pages/incidents/IncidentDetailPage.tsx:355-359 | with no url and no usable name the download URL is used |
| IncidentDetailPage.TrailingSlashPathDownloads | frontend/src/pages/incidents/IncidentDetailPage.tsx:355-359 | a stored path ending in '/' alone gives the download URL |

## Left out

- Hashing, Sanctum tokens, the password broker and random strings are foreign primitives. The hash is a transparent wrapper, the broker's answer is a parameter, and generated passwords are inputs.
- Clocks and calendars become parameters: `now` is whole seconds, a date is a day number, and the formatted date text of an incident number is an input. `Date.parse` in the detail page is a parameter function, and date formatting in exports is a parameter.
- The `IncidentSeverity` enum is not part of this model. Severity is stored as text; the at-risk listing ranks it low < medium < high < critical, and its weight in the risk level is a parameter function.
- IncidentRepository.GetAtRisk orders severity by the declaration order of the `severity` ENUM column, which is how MySQL sorts an ENUM. On SQLite or PostgreSQL the column is text and `ORDER BY severity DESC` sorts it alphabetically (medium, low, high, critical); the model does not cover that order.
- IncidentRepository.GetAssignedTo orders priority by the declaration order of the `priority` ENUM column (MySQL). On SQLite or PostgreSQL `ORDER BY priority DESC` is alphabetical (urgent, normal, low, high); the model does not cover that order.
- DashboardService.GetEscalationAlerts inherits the MySQL ENUM order of `GetAtRisk`.
- Concurrency is left out: the model is sequential, so the read-then-write races in number generation and in the login counter do not arise. Rate limiting is left out for the same reason.
- Events, listeners, mail and broadcast are left out. An emitted event is recorded in an `events` sequence; listeners and mail bodies are not modelled.
- Notification payloads are reduced to the kind, the message, the incident id and the read time. The extra data array is not modelled.
- File storage, CSV streaming, chunked reads and `fputcsv` quoting are I/O. Exports are modelled as sequences of rows of fields, and an upload is reduced to its size and stored path.
- Pagination of `paginateForUser`, `getForUser` and the activity log is a storage detail. The model returns the full ordered result; the client's page arithmetic is modelled separately.
- LIKE matching is modelled as substring search, and GROUP BY aggregates as counts over the sequence.
- Listing sort columns other than `created_at` and `updated_at` are not modelled.
- FormRequest rule arrays are framework validation. Only what the controllers rely on is modelled: the status value check, the operator id lookup and the `authorize()` role checks.
- `AuthService::resetPassword` with a broker token is not modelled: its outcome is decided entirely by the broker.
- DashboardService.AlertFor takes `hours_since_update` to be Carbon 3's fractional `diffInHours`, the version the Laravel 11 application skeleton ships with; under Carbon 2 the field would be the whole hours of `HoursBetween`. Hours are exact reals over whole seconds; sub-second times and float rounding are not modelled.
- `getMTTR`, `getOperatorPerformance` and `getCategoryBreakdown` are left out. They use floating-point averages and rounding, and `ucfirst` on free-text categories.
- `IncidentService.IncidentService.Assign` names assignees through a given id-to-name map instead of loading users.
- Users' `updated_at` column is not modelled.
- IncidentModel.CreatingHook numbers new incidents with the corrected generator `IncidentNumber.NextIncidentNumber` of the Findings row, not with `generateIncidentNumber` as written. So the model never repeats a generated number. As written, the program can repeat ...-10000 on a day that already has ...-9999 and ...-10000, and the unique index then makes the insert fail (`IncidentNumber.AsWrittenRepeatsANumber`).
- IncidentRepository.IncidentRepository.Create inherits that: its "an empty number always succeeds" holds for the corrected generator only. As written, a generated number can clash and the insert fails.
- IncidentService.IncidentService.Create inherits it too: its "a number not among the existing ones" holds for the corrected generator only.
- AttachmentController.Download requires `ForeignKeysHold`: every attachment points at an existing incident. The database's `incident_id` cascade keeps this true, but the model's deletes do not maintain it; it is an assumption, and the server error for an orphan is not modelled.
- IncidentRepository.IncidentRepository.Delete removes the incident row only. The cascades on `incident_updates` and `incident_attachments` are not part of the repository; the log cascade is modelled one level up, in `IncidentService.IncidentService.Delete`.
- IncidentService.IncidentService.Delete cascades to the incident's log entries but not to its attachments: the attachment table is a separate store in this model.
- IncidentController.Destroy inherits that: the incident's attachment rows and stored files are not removed in the model.
- UserService.UserService.Delete removes the account only. The database's cascades, which delete the incidents the user reported (and their log entries and attachments), the user's own log entries and uploads, and null `assigned_to` on incidents assigned to them, are not modelled.
- `IncidentListPage.TotalPages` requires a positive page size. The server always reports one.
- React rendering, navigation, toasts and the API clients are UI and network plumbing.
- The environment variables of the web client are an `Env` parameter.
- The JSON resources and the response envelopes are reduced to a status code and a message.

## Findings

| source | as written | input that shows it | evidently intended | confidence | as-written member | corrected member |
|---|---|---|---|---|---|---|
| backend/app/Models/Incident.php:296-307 | the next number is one past the last four characters of the text-greatest number of the day | the day already has ...-9999 and ...-10000; "9999" sorts after "10000" as text, so ...-10000 is generated again and clashes with the unique column | one past the greatest sequence number of the day, compared as numbers | not executed | IncidentNumber.AsWrittenRepeatsANumber | IncidentNumber.NextIncidentNumber |
