# eConsent dashboard core, modelled in Dafny

This project models the data logic of the HCO-side controllers of a clinical-trial eConsent dashboard. It does not model their navigation or messaging glue. Service and repository results (econsents, participant records, devices, assignments, sites, trials) become plain parameters. The model covers five pieces.

- **Consent-action index and participant status** (`TrialParticipants.dfy`).
  - Econsents, their versions and their actions are flattened into a dictionary from participant DID (`tpDid`) to an ordered list of entries. The imperative build is `BuildIndex`; its specification is `Group(Traversal(econsents))`.
  - The trial's participants are then joined with their repository records. Each one is labelled with the "action needed" text of the last entry in its list.
- **Paginated table source** (`DataSourceFactory.dfy`). The class `TableDataSource` holds the rows, the configured page size, the column count, and the page size and record count that every page request updates. Page windows follow JavaScript `Array.prototype.slice`, including negative indices and clamping.
- **Version history of an econsent** (`EconsentVersions.dfy`). Each version is copied with the default columns `"-"`. Its actions then overwrite the columns one by one, and a version signed by the HCO takes the econsent-level HCO date.
- **Device assignment page** (`TrialParticipantDevices.dfy`). The class `DevicesListModel` finds the participant's assigned devices. It also removes assigned devices from the trial's devices in place with `findIndex` + `splice`, and builds the option list of the assignment page.
- **Trial details page** (`TrialDetails.dfy`). It covers:
  - the trial lookup;
  - participant counts by status;
  - econsent versions tagged with their econsent uid;
  - the site-status toggle;
  - the choice of the trial's site.

`Records.dfy` holds the records shared by all of them. A JavaScript value that may be `undefined` is an `Option`. `null` is not modelled. For example, the index build tests `versions` and `actions` only against `undefined` (code/scripts/controllers/econsent/TrialParticipantsController.js:144,148), so a `null` list would throw at line 147 or 151. The model has no such input. An operation that throws is a `Result` with a `Failure` case.
- Most failing operations leave the state as it was.
- The participant status step is the exception. Writes made before the throw stay in place (`WriteBack`, `WriteBackStops`).

Three behaviours of the code are worth noting:

- The status step throws a `TypeError` when a trial participant has no repository record. `tpsMappedByDID[tp.did]` is then `undefined`, and its `name` is read (code/scripts/controllers/econsent/TrialParticipantsController.js:96-97).
- The status step writes `name`, `birthdate` and `enrolledDate` into the HCO DSU's participant objects before copying them into the rows (code/scripts/controllers/econsent/TrialParticipantsController.js:97-99).
- `initTrialAndConsent` is modelled even though its call in the controller's constructor is commented out (code/scripts/controllers/econsent/EconsentVersionsController.js:31).

## Model

| member | source | states |
|---|---|---|
| Records.OfTrial | code/scripts/controllers/econsent/TrialParticipantsController.js:93-94 | keeps exactly the participants whose trial number equals the trial id, with undefined equal to undefined, and never more than the input |
| Records.OfTrialKeepsEveryOccurrence | code/scripts/controllers/econsent/TrialParticipantsController.js:93-94 | every participant of the trial occurs in the result as often as in the input; no other occurs |
| Records.OfTrialAppend | code/scripts/controllers/econsent/TrialParticipantsController.js:93-94 | the filter works element by element and keeps the order: filtering a concatenation concatenates the filtered parts, and one participant is kept exactly when it belongs to the trial |
| TrialParticipants.IndexActions | code/scripts/controllers/econsent/TrialParticipantsController.js:151-168 | the loop over one version's actions leaves the dictionary as pushing each action's entry in list order, creating a DID's list on its first entry |
| TrialParticipants.IndexVersions | code/scripts/controllers/econsent/TrialParticipantsController.js:147-170 | the loop over one econsent's versions pushes their entries in version order; a version with undefined actions adds nothing |
| TrialParticipants.BuildIndex | code/scripts/controllers/econsent/TrialParticipantsController.js:140-173 | the dictionary built by the nested loops is the grouping by `tpDid` of all entries in traversal order: econsents, then versions, then actions |
| TrialParticipants.EntriesFor | code/scripts/controllers/econsent/TrialParticipantsController.js:152-155 | the reference list for one DID holds exactly the traversed entries whose action carries that DID |
| TrialParticipants.GroupIsFilter | code/scripts/controllers/econsent/TrialParticipantsController.js:152-155 | a DID is a key exactly when some action carries it; its list is the traversal's entries for that DID, in order, and is never empty |
| TrialParticipants.FirstSeenKeys | code/scripts/controllers/econsent/TrialParticipantsController.js:152-153 | the keys in order of list creation are distinct and are exactly the dictionary's keys |
| TrialParticipants.GroupLosesNothing | code/scripts/controllers/econsent/TrialParticipantsController.js:152-168 | the lengths of all lists add up to the number of entries pushed: nothing is lost or duplicated |
| TrialParticipants.VersionsTraversalCount | code/scripts/controllers/econsent/TrialParticipantsController.js:147-170 | the versions of one econsent contribute one entry per action; undefined action lists contribute none |
| TrialParticipants.TraversalCount | code/scripts/controllers/econsent/TrialParticipantsController.js:143-170 | the traversal yields one entry per action of every version of every econsent; undefined versions contribute none |
| TrialParticipants.IndexProperties | code/scripts/controllers/econsent/TrialParticipantsController.js:141-172 | no econsents give an empty dictionary; the total entry count equals the total action count; keys and lists are as above |
| TrialParticipants.Classify | code/scripts/controllers/econsent/TrialParticipantsController.js:109-132 | the label table in both directions: `withdraw`, `withdraw-intention`, `sign`/`hco` and `sign`/`tp` each give their label; every other name or sign type gives "No action required" |
| TrialParticipants.LastEntryDecides | code/scripts/controllers/econsent/TrialParticipantsController.js:101-111 | whatever the earlier entries, the label is the classification of the last one |
| TrialParticipants.LabelFromLastTraversedAction | code/scripts/controllers/econsent/TrialParticipantsController.js:101-132 | a participant's label is "No action required" without actions, else the classification of its last action in traversal order |
| TrialParticipants.ByDidLastWins | code/scripts/controllers/econsent/TrialParticipantsController.js:90 | the DID map has a key exactly for the DIDs of the records, and holds the last record with that DID |
| TrialParticipants.MapByDid | code/scripts/controllers/econsent/TrialParticipantsController.js:90 | the `forEach` that fills the DID map computes that map |
| TrialParticipants.AnnotateAllMeaning | code/scripts/controllers/econsent/TrialParticipantsController.js:93-137 | the mapping fails exactly when a participant has no record, naming the first such DID; otherwise there is one row per participant, in order, with the record's fields copied in and the label of its actions |
| TrialParticipants.WriteBack | code/scripts/controllers/econsent/TrialParticipantsController.js:93-99 | the writes into the HCO DSU's participants keep their number, DIDs, trial numbers and statuses, and never touch a participant of another trial |
| TrialParticipants.WriteBackStops | code/scripts/controllers/econsent/TrialParticipantsController.js:93-99 | a trial participant gets its record's fields when it and every trial participant before it has a record; from the first trial participant without a record on, every participant keeps what it had |
| TrialParticipants.RowsCopyWrittenBack | code/scripts/controllers/econsent/TrialParticipantsController.js:95-136 | the participants of the returned rows are the trial's participants after the write-back |
| TrialParticipants.MapWithActionRequired | code/scripts/controllers/econsent/TrialParticipantsController.js:83-138 | no repository records give `[]` and touch nothing; otherwise the rows and the written-back participants are the ones specified above |
| TrialParticipants.RowsForTrial | code/scripts/controllers/econsent/TrialParticipantsController.js:86-137 | with records, the step fails exactly when a trial participant has no record with its DID; on success each row keeps the participant's DID and order, takes the last matching record's fields and carries its label |
| Records.RelativeIndex | code/scripts/services/DataSourceFactory.js:29 | the `slice` index rule: a negative index counts from the end, and every index is clamped to the length |
| DataSourceFactory.PageIsRun | code/scripts/services/DataSourceFactory.js:26-35 | for any offset and length, a page is a contiguous, in-order run of the rows and no longer than them |
| DataSourceFactory.PositiveLengthPage | code/scripts/services/DataSourceFactory.js:28-29 | a positive length from a non-negative offset gives rows `start .. min(start + len, n)`, and nothing from `n` on |
| DataSourceFactory.NonPositiveLengthPage | code/scripts/services/DataSourceFactory.js:31-32 | a zero or negative length gives the first `min(start - len, n)` rows |
| DataSourceFactory.PagesRebuildData | code/scripts/services/DataSourceFactory.js:29 | with a fixed positive length, the pages at offsets `0, len, 2·len, …` concatenated give the rows back |
| DataSourceFactory.TableDataSource.constructor | code/scripts/services/DataSourceFactory.js:4-7 | the rows are stored as given |
| DataSourceFactory.TableDataSource.SetNumberOfColumns | code/scripts/services/DataSourceFactory.js:9-11 | stores and returns the column count |
| DataSourceFactory.TableDataSource.SetDataSourcePageSize | code/scripts/services/DataSourceFactory.js:13-16 | stores the configured page size and makes it the page size |
| DataSourceFactory.TableDataSource.GetPageData | code/scripts/services/DataSourceFactory.js:18-36 | the rows and configured size stay unchanged; the page size becomes the row count when it fits in the request and the configured size otherwise; the record count is the row count; the page is the requested window |
| DataSourceFactory.CreateDataSource | code/scripts/services/DataSourceFactory.js:41-46 | a fresh source holding the rows, with the page size configured and the column count stored |
| EconsentVersions.Defaults | code/scripts/controllers/econsent/EconsentVersionsController.js:84-90 | the copy keeps every field of the version and starts the three approval columns at `"-"` |
| EconsentVersions.Apply | code/scripts/controllers/econsent/EconsentVersionsController.js:92-111 | one action writes exactly the columns of its name's row in the table (only the exact name `Declined` touches `tsDeclined`) and keeps all else |
| EconsentVersions.ApplyAllKeepsOriginal | code/scripts/controllers/econsent/EconsentVersionsController.js:84-112 | the action loop never changes the version's own fields |
| EconsentVersions.UntouchedColumnKept | code/scripts/controllers/econsent/EconsentVersionsController.js:91-112 | a column no action writes keeps its value through the loop |
| EconsentVersions.LastWriterWins | code/scripts/controllers/econsent/EconsentVersionsController.js:91-112 | after the loop a column holds the value of the last action that writes it |
| EconsentVersions.AnnotationMeaning | code/scripts/controllers/econsent/EconsentVersionsController.js:84-115 | one version's annotation fails exactly when it has an HCO signature and the econsent has none; otherwise the fields are kept, the econsent's HCO date overrides `hcpApproval`, and every other column comes from its last writer or its default |
| EconsentVersions.AnnotateVersion | code/scripts/controllers/econsent/EconsentVersionsController.js:84-115 | the field-by-field loop computes that annotation |
| EconsentVersions.AnnotateEach | code/scripts/controllers/econsent/EconsentVersionsController.js:83-116 | annotating a version list fails exactly when one version needs the missing econsent HCO date; otherwise it gives one annotation per version, in order |
| EconsentVersions.AnnotateAll | code/scripts/controllers/econsent/EconsentVersionsController.js:83-116 | the intended `versions`: undefined for undefined versions, else the per-version annotations in order; it fails exactly as above |
| EconsentVersions.VersionsAsWritten | code/scripts/controllers/econsent/EconsentVersionsController.js:83-116 | the stored `versions` fail as above, but on success have one entry per version and every entry is undefined |
| EconsentVersions.SignedVersionIsDropped | code/scripts/controllers/econsent/EconsentVersionsController.js:83-116 | a version with one `sign` action annotates to its approval date and "Required", yet is stored as undefined |
| TrialParticipantDevices.FindIndexBySk | code/scripts/controllers/econsent/TrialParticipantDevicesListController.js:77 | `findIndex` gives the first device with the id, or -1 exactly when there is none |
| TrialParticipantDevices.MatchingAssignments | code/scripts/controllers/econsent/TrialParticipantDevicesListController.js:51 | keeps exactly the assignments of the participant |
| TrialParticipantDevices.MatchingAssignmentsKeepsEveryOccurrence | code/scripts/controllers/econsent/TrialParticipantDevicesListController.js:51 | every assignment of the participant occurs as often as in the input; no other occurs |
| TrialParticipantDevices.MatchingAssignmentsAppend | code/scripts/controllers/econsent/TrialParticipantDevicesListController.js:51 | the filter keeps the order: filtering a concatenation concatenates the filtered parts, and one assignment is kept exactly when it is the participant's |
| TrialParticipantDevices.DevicesOfTrial | code/scripts/controllers/econsent/TrialParticipantDevicesListController.js:74 | keeps exactly the devices of the trial |
| TrialParticipantDevices.DevicesOfTrialKeepsEveryOccurrence | code/scripts/controllers/econsent/TrialParticipantDevicesListController.js:74 | every device of the trial occurs as often as in the input; no other occurs |
| TrialParticipantDevices.DevicesOfTrialAppend | code/scripts/controllers/econsent/TrialParticipantDevicesListController.js:74 | the filter keeps the order: filtering a concatenation concatenates the filtered parts, and one device is kept exactly when it belongs to the trial |
| TrialParticipantDevices.SpliceOne | code/scripts/controllers/econsent/TrialParticipantDevicesListController.js:77 | `splice(i, 1)` removes position `i`; with -1 it removes the last element; past the end it removes nothing |
| TrialParticipantDevices.RemoveFirstOrLast | code/scripts/controllers/econsent/TrialParticipantDevicesListController.js:77 | one removal step drops the first device with the id, or the last device when none has it, and only removes elements |
| TrialParticipantDevices.RemoveAssignedSize | code/scripts/controllers/econsent/TrialParticipantDevicesListController.js:76-78 | after `k` ids, `max(0, n - k)` devices are left, all of them from the list |
| TrialParticipantDevices.RemoveEach | code/scripts/controllers/econsent/TrialParticipantDevicesListController.js:76-78 | the `forEach` of `splice` calls leaves the list after one removal step per id, in id order |
| TrialParticipantDevices.BuildOptions | code/scripts/controllers/econsent/TrialParticipantDevicesListController.js:104-110 | one option `{value: sk, label: deviceName}` per device, in order |
| TrialParticipantDevices.DevicesListModel.constructor | code/scripts/controllers/econsent/TrialParticipantDevicesListController.js:23-26 | the lists start empty and the availability flag false |
| TrialParticipantDevices.DevicesListModel.GetDeviceFullInfo | code/scripts/controllers/econsent/TrialParticipantDevicesListController.js:33-43 | stores the device list and appends the first device with the id, or undefined |
| TrialParticipantDevices.DevicesListModel.LookUpAssigned | code/scripts/controllers/econsent/TrialParticipantDevicesListController.js:54-57 | appends each found assignment's device id, and its device lookup, in assignment order |
| TrialParticipantDevices.DevicesListModel.FindAssignedDevices | code/scripts/controllers/econsent/TrialParticipantDevicesListController.js:45-71 | the found assignments are the participant's; the flag is set exactly when there is one; ids and lookups are appended in order; the device list is stored |
| TrialParticipantDevices.DevicesListModel.FindAvailableDevicesToMatch | code/scripts/controllers/econsent/TrialParticipantDevicesListController.js:73-79 | the registered and the available lists are one list: the trial's devices after one removal step per assigned id |
| TrialParticipantDevices.DevicesListModel.AssignDevice | code/scripts/controllers/econsent/TrialParticipantDevicesListController.js:90-121 | redirects exactly when no device is available; otherwise passes one option per available device, in order, with the participant's details |
| TrialDetails.FindTrial | code/scripts/controllers/econsent/TrialDetailsController.js:64-67 | the first trial with the uid, or the empty record when none has it |
| TrialDetails.WithStatus | code/scripts/controllers/econsent/TrialDetailsController.js:70-73 | keeps exactly the participants with the status |
| TrialDetails.WithStatusKeepsEveryOccurrence | code/scripts/controllers/econsent/TrialDetailsController.js:70-73 | every participant with the status occurs as often as in the input and no other occurs, so each count is the number of participants with that status |
| TrialDetails.WithStatusAppend | code/scripts/controllers/econsent/TrialDetailsController.js:70-73 | the filter keeps the order: filtering a concatenation concatenates the filtered parts, and one participant is kept exactly when it has the status |
| TrialDetails.SubjectCountsWithinPlanned | code/scripts/controllers/econsent/TrialDetailsController.js:69-73 | each status count is at most the planned count; with distinct status constants the four together are too |
| TrialDetails.TagVersions | code/scripts/controllers/econsent/TrialDetailsController.js:83-89 | every version is kept, in order, and tagged with the econsent uid |
| TrialDetails.TagEconsents | code/scripts/controllers/econsent/TrialDetailsController.js:80-91 | fails exactly when an econsent has undefined versions, naming the first; otherwise one record per econsent, in order, with as many versions, all tagged with its uid |
| TrialDetails.TaggingKeepsFields | code/scripts/controllers/econsent/TrialDetailsController.js:80-91 | removing the tags gives back every econsent and version field |
| TrialDetails.ToggledStatus | code/scripts/controllers/econsent/TrialDetailsController.js:114 | the new site status is "Active" exactly when `model.status` is "On Hold", and "On Hold" otherwise |
| TrialDetails.UnassignedStatusHolds | code/scripts/controllers/econsent/TrialDetailsController.js:114 | while `model.status` is unassigned, the toggle always writes "On Hold" |
| TrialDetails.FirstSiteFor | code/scripts/controllers/econsent/TrialDetailsController.js:186-187 | the first site of the trial, or undefined exactly when no site belongs to it |
| TrialDetails.TrialDetailsModel.constructor | code/scripts/controllers/econsent/TrialDetailsController.js:21-36 | the page starts with an empty trial, no participants, blank counts and no econsents |
| TrialDetails.TrialDetailsModel.InitTrial | code/scripts/controllers/econsent/TrialDetailsController.js:63-73 | the trial is looked up; the participants are the records of its id; the counts are taken over them |
| TrialDetails.TrialDetailsModel.ReceiveEconsents | code/scripts/controllers/econsent/TrialDetailsController.js:76-93 | on success the tagged econsents and their number are stored; when the mapping throws neither changes |
| TrialDetails.TrialDetailsModel.ChangeStatus | code/scripts/controllers/econsent/TrialDetailsController.js:105-127 | a click on an undefined site fails, whatever the answer, because the modal's question reads the site's status, and it changes nothing; a confirmed toggle on a defined site writes the toggled status; a refusal changes nothing |
| TrialDetails.TrialDetailsModel.GetSite | code/scripts/controllers/econsent/TrialDetailsController.js:180-190 | a missing or empty site list leaves the site alone; otherwise the site becomes the trial's first site, or undefined |

## Left out

- Service, repository and DSU calls (trial, HCO, site, device and device-assignment services; the participant repository) are I/O. Their results are parameters, and their error callbacks (log and return) are not modelled.
- Messaging, navigation, modals, breadcrumbs, feedback toasts and event wiring are UI and network glue. They are not modelled, nor is the site update sent after a status change.
- Dates and floating point are not modelled: `versionDateAsString`, the recruitment-period check and its editing, and the subjects' `percentage` computed with `toFixed`.
- `AddTrialParticipantController.js` is not part of this model. Its age check depends on the clock, and its submit handler only copies form values.
- The mock version rows of the versions page are display data and are not modelled.
- The WebCardinal data-source base class is a foreign library: its page size and record count are plain fields.
- Asynchronous completion order is not modelled: each service callback runs to completion as one synchronous step, in call order. In particular the device lookups of `findAssignedDevices` are taken to complete in assignment order.
- DataSourceFactory.TableDataSource.constructor: the fields the source leaves undefined until configured start at 0. These are the configured page size (`elements`), the page size, the column count and the record count.
- The windows of `getPageDataAsync` go through `Object.entries`. This is modelled as plain `slice` on the rows, which agrees for arrays without holes.
- TrialParticipants.WriteBack: its own contract states only what the write-back keeps. These are the count, DIDs, trial numbers and statuses, and every participant of another trial. The copied fields and the stopping point are stated by WriteBackStops, RowsCopyWrittenBack and RowsForTrial.
- Object identity and aliasing between the HCO DSU's participant objects and the returned rows are not modelled. The write-back is a new sequence.
- TrialDetails.TrialDetailsModel.InitTrial: the participant status constants come from a shared library outside this model, so they are a parameter.
- TrialDetails.TrialDetailsModel.GetSite: a missing site list and a `null` one are both modelled as `None`.
- DIDs are taken not to be names of `Object.prototype` properties such as `constructor`, `toString`, `valueOf` or `__proto__`. With such a DID, `actions[tpDid] === undefined` is false (code/scripts/controllers/econsent/TrialParticipantsController.js:152), so the `push` at line 155 throws. In the status step such a DID always finds an inherited value, so a missing record is not detected at line 96. The participant then takes the inherited member's fields instead of failing at line 97. Its label is the default for `toString` and `valueOf`, whose `length` is 0 (line 103). For `constructor` and `__proto__`, lines 109-111 read `action` of `undefined` and throw.
- TrialParticipantDevices.DevicesListModel.LookUpAssigned: every device search is taken to return the same device list. The model passes one `devices` list to every lookup, while each `getDeviceFullInfo` runs its own `searchDevice` (code/scripts/controllers/econsent/TrialParticipantDevicesListController.js:34-35).
- TrialParticipantDevices.DevicesListModel.constructor: the page's incoming state (participant and trial identifiers) is constructor parameters, and the breadcrumb is left out. The source sets only `assigned_devices`, `alldevices`, `deviceListAvailable` and `assignedDevicesIDsOnly`. The fields it leaves to the incoming state (`foundAssignedDevices`, `deviceInfo`, `allRegisteredDevices`, `availableDevices`) start empty or undefined.

## Findings

| source | as written | input that shows it | evidently intended | confidence | as-written member | corrected member |
|---|---|---|---|---|---|---|
| code/scripts/controllers/econsent/EconsentVersionsController.js:83-116 | the `map` callback builds each annotated version but has no `return`, so `model.versions` holds one `undefined` per version | an econsent with one version carrying one `sign` action dated "12/03/2022" | `model.versions` holds the annotated versions (approval date "12/03/2022", HCP approval "Required") | high, not executed | EconsentVersions.VersionsAsWritten | EconsentVersions.AnnotateAll |
