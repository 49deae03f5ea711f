# Preventa core, modelled in Dafny

Preventa is a personal health-record web application. This project models its core logic:

- **The signaling relay** behind the emergency video and audio calls. It keeps a registry of live connections and named rooms. It handles `join-room`, `signal`, `disconnect` and `ambulance-book`, and forwards opaque payloads.
- **The emergency page's client side**:
  - the doctor directory and `showDoctors`;
  - the mapping from a doctor's name to the call's room and back to the name shown in the call window;
  - the table of peer connections that `startCall`'s socket handlers maintain, and `endCall`.
- **The weekly diet generator.** It picks one of four meal templates from the family's condition names and rotates its two-meal pools over seven days.
- **The family-history list operations**:
  - add or delete a member, a condition or a document;
  - the required-field checks of the two forms;
  - the follow-up appointments derived from every recorded condition.
- **The family-tree view's queries**: condition filter, distinct condition names, generation groups, severity and per-name counts, and the colour and icon look-ups.
- **The diet dashboard's CSV export**: a header, then three quoted rows per day.
- **The dashboard's profile-completion percentage** and the "profile complete" flag.

The modules, in dependency order:

| module | file | what it holds |
|---|---|---|
| `Wrappers` | wrappers.dfy | `Option` |
| `JsText` | jstext.dfy | JavaScript string behaviour the code relies on: the `\s` class, `toLowerCase`, `includes`, `join`, `split`, three forms of `replace`, `parseInt` |
| `JsArray` | jsarray.dfy | `Array.prototype.filter` and its algebra |
| `Records` | records.dfy | family members, conditions and documents; the (member, condition) pairs in iteration order |
| `Signaling` | signaling.dfy | the relay, as pure step functions over a `RelayState` and as the class `Relay` whose handlers update its fields |
| `Emergency` | emergency.dfy | the directory, room names, and the class `EmergencyPage` holding the call state |
| `Diet` | diet.dfy | `generateWeeklyDietPlan` |
| `FamilyHistory` | family_history.dfy | the form's list updates and `computeAppointments` (a method with nested loops) |
| `FamilyTree` | family_tree.dfy | the tree view's queries; `getAllConditions` is a method with nested loops |
| `DietCsv` | diet_csv.dfy | `handleDownloadCSV`'s text, built by a method with nested loops |
| `Profile` | profile.dfy | `computeProfilePercent` (a method with a loop) and `isProfileComplete` |

The socket library's own rules are written into the relay model as assumptions:

- every connection is put in a room named by its own id;
- a disconnecting connection leaves all its rooms;
- a room left empty is removed;
- `io.to(x)` reaches the members of the room named `x`.

A `signal` therefore reaches the connection with id `to` through that connection's own room. It also reaches anyone who joined a room of that name.

Time, randomness and the browser are parameters:

- `Date.now()` ids are passed in;
- the day number of "today" is passed in;
- the stream `getUserMedia` gives is passed in;
- the text of an offer or answer is passed in.

Where the code and the design intent differ, the model follows the code:

- A departing connection is announced to every live connection, not only to its rooms' members (`DisconnectBroadcastsGlobally`).
- Joining a room twice announces the joiner twice (`RepeatedJoinRenotifies`).
- The client has no glare tie-break, no buffering of early candidates and no negotiation timeout.
  - A candidate is added the moment it arrives, after the description carried by the same message (`ReceivedEffects`).
- A `user-connected` for an id that already has a connection replaces the entry without closing the old connection.
  - `OnUserConnected` leaves `closed` unchanged.
- A call whose socket is missing keeps the acquired stream (`StartCall`).
- `endCall` leaves the socket handlers installed (`EndCall`).
- An ambulance booking is stamped with `Date.now()`, with no separate booking id.

## Model

| member | source | states |
|---|---|---|
| JsText.LowerChar | src/components/health/FamilyTreeVisualization.tsx:142 | a capital A-Z becomes the small letter 32 code points above it; every other character is left alone |
| JsText.ToLowerIdempotent | src/components/health/FamilyTreeVisualization.tsx:142 | lower-casing twice is lower-casing once |
| JsText.ToLowerNoCapitals | src/components/health/FamilyTreeVisualization.tsx:142 | a lower-cased text holds no capital A-Z |
| JsText.ToLowerEqualIff | src/components/health/FamilyTreeVisualization.tsx:142 | two texts lower-case to the same text exactly when they have the same length and differ only in the case of ASCII letters |
| JsText.ReplaceWhitespaceRuns | src/app/emergency/page.tsx:209 | the result is never longer, and it holds no whitespace when the replacement is not whitespace |
| JsText.ReplaceRunsPlain | src/app/emergency/page.tsx:209 | a text without whitespace comes back unchanged |
| JsText.ReplaceRunsSplit | src/app/emergency/page.tsx:209 | a maximal whitespace run between a and b becomes one replacement: the result is the result on a, the replacement, then the result on b |
| JsText.SplitJoin | src/components/health/DietPlanDashboard.tsx:65 | splitting a join on its one-character separator gives the parts back when no part holds the separator |
| JsText.ParseDecimalText | src/components/health/FamilyHistoryForm.tsx:91 | `parseInt` of the decimal text of n, with or without a leading minus, is n or -n |
| Records.PairsCount | src/components/health/FamilyHistoryForm.tsx:177-178 | there is one (member, condition) pair per recorded condition |
| Records.PairsOrder | src/components/health/FamilyHistoryForm.tsx:177-178 | condition c of member m is pair number (conditions of the members before m) + c: member by member, in history order |
| Signaling.StepValid | server/signaling-server.js:17-45 | every handler keeps the registry invariant: live connections have an outbox and sit in their own room, and rooms hold live connections only |
| Signaling.JoinRoomNotifiesOthers | server/signaling-server.js:20-25 | after `join-room` the sender is a member; each other member gets exactly one `user-connected(sender)`; the sender and non-members get nothing |
| Signaling.RepeatedJoinRenotifies | server/signaling-server.js:20-25 | joining the same room twice sends each other member two `user-connected` messages |
| Signaling.SignalReachesTarget | server/signaling-server.js:27-32 | a live target gets the payload unchanged, stamped with the sender; if nobody else joined a room named like the target, nobody else gets anything; rooms and liveness are unchanged |
| Signaling.SignalWithoutTargetIsNoop | server/signaling-server.js:29 | a `signal` without a body or with an empty target changes nothing |
| Signaling.DisconnectBroadcastsGlobally | server/signaling-server.js:34-38 | after a disconnect the connection is not live and is in no room; every other live connection gets one `user-disconnected`; no one else gets anything |
| Signaling.AmbulanceReachesEveryone | server/signaling-server.js:40-44 | every live connection, the sender included, gets the booking unchanged with its stamp; others get nothing |
| Signaling.StepAppendsOnly | server/signaling-server.js:17-45 | a handler appends at most its one message to each outbox and changes nothing already there |
| Signaling.RunAppendsOnly | server/signaling-server.js:17-45 | over any sequence of events each outbox only grows at its end (messages arrive in handler order), and the invariant holds throughout |
| Signaling.RunConcat | server/signaling-server.js:17-45 | running two event sequences one after the other is running their concatenation |
| Signaling.Relay.Connect | server/signaling-server.js:17 | the library's attach step: the new id is live, has an empty outbox and is in its own room; the new state is `ConnectStep` of the old |
| Signaling.Relay.OnJoinRoom | server/signaling-server.js:20-25 | the `join-room` handler updates the fields as `JoinRoomStep` does: the room gains the sender and exactly its other members are notified |
| Signaling.Relay.OnSignal | server/signaling-server.js:27-32 | the `signal` handler: no change without a target; otherwise exactly the members of the target's room get the payload |
| Signaling.Relay.OnDisconnect | server/signaling-server.js:34-38 | the `disconnect` handler: the connection leaves every room and stops being live; every remaining live connection is told |
| Signaling.Relay.OnAmbulanceBook | server/signaling-server.js:40-44 | the `ambulance-book` handler: every live connection gets the booking |
| Emergency.AllDoctorsShown | src/app/emergency/page.tsx:77-78 | every directory doctor is available, so `showDoctors` lists all three of the kind, in order |
| Emergency.RoomName | src/app/emergency/page.tsx:209 | the room is `doctor-` followed by text with no whitespace |
| Emergency.RoomNameOfPlainName | src/app/emergency/page.tsx:209 | a name without whitespace gives the room `doctor-` followed by the name itself |
| Emergency.RoomNameCollapsesRun | src/app/emergency/page.tsx:209 | a maximal whitespace run in a name becomes one `-` in the room name |
| Emergency.RunLengthIrrelevant | src/app/emergency/page.tsx:108-209 | a name with a longer run or a tab in place of a single space gets the same room, and the window shows the same name |
| Emergency.DisplayName | src/app/emergency/page.tsx:108 | the shown name never contains `-`; for a room starting with `doctor-` it is the rest of the room with each `-` turned into a space; a room without `doctor-` is shown whole, with the same change |
| Emergency.DisplayNameRoundTrip | src/app/emergency/page.tsx:108-211 | for a name with single spaces as its only whitespace and no `-`, the call window shows the name the room was made from |
| Emergency.HyphenatedNameNotRecovered | src/app/emergency/page.tsx:108-211 | a name with a `-` never comes back from its room |
| Emergency.DirectoryNamesRoundTrip | src/app/emergency/page.tsx:32-43 | every directory doctor's name comes back from its room unchanged |
| Emergency.ReceivedEffects | src/app/emergency/page.tsx:179-191 | a signal's sdp becomes the remote description; only an offer is answered, exactly once, back to its sender; a candidate is appended after the description; identity and tracks stay |
| Emergency.RemoveKeepsTable | src/app/emergency/page.tsx:194-199 | closing and removing one stored connection closes no other stored connection |
| Emergency.CloseAll | src/app/emergency/page.tsx:214 | `endCall`'s first loop closes the handle of every stored connection and nothing else |
| Emergency.StopAll | src/app/emergency/page.tsx:220-221 | `endCall`'s second loop stops every track of the stream and nothing else |
| Emergency.EmergencyPage.constructor | src/app/emergency/page.tsx:15-25 | the initial page state: no call, status "Connecting…", no stream, no handlers, no peers |
| Emergency.EmergencyPage.ShowDoctors | src/app/emergency/page.tsx:77-81 | lists the available doctors of the kind, shows the list and hides the ambulances; the call state is untouched |
| Emergency.EmergencyPage.StartCall | src/app/emergency/page.tsx:105-206 | opens the window with the room's display name. Failed media: "Failed to connect", no emit, no handlers. No socket: same, but the stream is kept. Otherwise: exactly one `join-room(roomName)`, handlers over the stream, "Connected ✅" |
| Emergency.EmergencyPage.ConnectDoctor | src/app/emergency/page.tsx:208-211 | a call in the doctor's room; the window shows the doctor's name when it is single-spaced |
| Emergency.EmergencyPage.CreatePeer | src/app/emergency/page.tsx:160-163 | a fresh connection with every local track, stored under the id, replacing any entry there |
| Emergency.EmergencyPage.OnUserConnected | src/app/emergency/page.tsx:133-155 | with handlers installed: a fresh open connection for the user carrying the local tracks and its offer, replacing any entry without closing it, and exactly one offer emitted to the user; without handlers: nothing |
| Emergency.EmergencyPage.ProcessSignal | src/app/emergency/page.tsx:179-191 | the stored connection changes as `Received` says and the replies are emitted; nothing else changes |
| Emergency.EmergencyPage.OnSignal | src/app/emergency/page.tsx:157-192 | the message is processed on the stored connection, or a fresh one made first with the local tracks; only the sender's entry changes; a message without a signal object stops after that |
| Emergency.EmergencyPage.OnIceCandidate | src/app/emergency/page.tsx:148-150 | a found candidate is emitted to the remote id; the end of gathering emits nothing |
| Emergency.EmergencyPage.OnUserDisconnected | src/app/emergency/page.tsx:194-199 | a stored entry is closed and removed and nothing else changes; an absent id changes nothing |
| Emergency.EmergencyPage.EndCall | src/app/emergency/page.tsx:213-226 | every stored connection is closed, the table is empty, every local track is stopped, the stream is dropped, the window closes; handlers and emits stay |
| Diet.GenerateWeeklyDietPlan | src/lib/diet.ts:96-104 | seven days, Monday to Sunday in order, for any member list, missing or empty included |
| Diet.MealsFromPools | src/lib/diet.ts:94-102 | every meal is taken from the matching pool of the chosen template |
| Diet.MealsRotate | src/lib/diet.ts:99-103 | day i has the meals at position i mod 2 of each pool |
| Diet.MealsRepeatEveryTwoDays | src/lib/diet.ts:99-103 | a day and the day two later have the same meals |
| Diet.RiskIgnored | src/lib/diet.ts:25-104 | the risk argument does not affect the plan |
| Diet.ChooseTemplatePriority | src/lib/diet.ts:89-92 | each template is chosen exactly when its keywords occur and no higher-priority keyword does: diabetes, then heart or hypertension, then cancer, else default |
| Diet.ConditionNameSource | src/lib/diet.ts:26 | a name is in the scanned list exactly when some member has a condition that lower-cases to it |
| Diet.MentionsListed | src/lib/diet.ts:26-92 | scanning the list finds a keyword exactly when some member's lower-cased condition contains it |
| Diet.ChosenTemplatePriority | src/lib/diet.ts:26-92 | stated on the members themselves: each template is chosen exactly when some member's condition mentions its keyword in any case and none mentions a keyword of higher priority |
| Diet.DiabetesWins | src/lib/diet.ts:26-90 | a condition that mentions "diabetes" in any case selects the diabetes template, whatever the others are |
| Diet.DiabetesTypeTwoMatches | src/lib/diet.ts:26-90 | "Diabetes Type 2" selects the diabetes template |
| Diet.NoMembersDefault | src/lib/diet.ts:26-92 | a missing or empty member list selects the default template |
| FamilyHistory.AddFamilyMember | src/components/health/FamilyHistoryForm.tsx:81-99 | with a required field empty: alert, and list and form unchanged. Otherwise one member appended (parsed age, no conditions, no documents), existing members kept in order, form reset and closed |
| FamilyHistory.DeleteFamilyMember | src/components/health/FamilyHistoryForm.tsx:102-104 | no remaining member has the id |
| FamilyHistory.DeleteFamilyMemberExactly | src/components/health/FamilyHistoryForm.tsx:102-104 | a member remains iff it was there with another id, and the rest keep their order |
| FamilyHistory.AddThenDeleteMember | src/components/health/FamilyHistoryForm.tsx:81-104 | deleting a member just added under a fresh id gives the list back |
| FamilyHistory.AddMedicalCondition | src/components/health/FamilyHistoryForm.tsx:106-117 | the list keeps its length; only histories change; a matching member's history gains the condition at its end; others are unchanged |
| FamilyHistory.DeleteMedicalCondition | src/components/health/FamilyHistoryForm.tsx:119-130 | only the matching members' histories change: they lose exactly the conditions with that id |
| FamilyHistory.AddThenDeleteCondition | src/components/health/FamilyHistoryForm.tsx:106-130 | deleting a condition just added under a fresh id gives the list back |
| FamilyHistory.DocumentFor | src/components/health/FamilyHistoryForm.tsx:136-142 | a document keeps the file's id and name; an empty type becomes "Unknown" |
| FamilyHistory.FileUpload | src/components/health/FamilyHistoryForm.tsx:132-154 | no file list: nothing changes. Otherwise only the matching members' documents change, gaining the files' documents in file order after the existing ones |
| FamilyHistory.DeleteDocument | src/components/health/FamilyHistoryForm.tsx:156-167 | only the matching members' documents change: they lose exactly the documents with that id |
| FamilyHistory.UploadThenDeleteDocument | src/components/health/FamilyHistoryForm.tsx:132-167 | deleting a freshly uploaded document gives the list back |
| FamilyHistory.SubmitCondition | src/components/health/FamilyHistoryForm.tsx:339-353 | a condition is handed on exactly when its name and diagnosis date are filled; after a submit the form is reset to its defaults and closed, otherwise it is unchanged |
| FamilyHistory.DaysAhead | src/components/health/FamilyHistoryForm.tsx:179-182 | the follow-up interval is 7, 14 or 30 days |
| FamilyHistory.ComputeAppointments | src/components/health/FamilyHistoryForm.tsx:174-198 | the loops produce one appointment per (member, condition) pair, in member-then-condition order; there are as many as recorded conditions |
| FamilyHistory.AppointmentRule | src/components/health/FamilyHistoryForm.tsx:179-193 | each appointment names its member and condition. Severe: 7 days, "Urgent Care / Specialist". Moderate: 14 days, "Primary Care Clinic". Anything else: 30 days, "Primary Care Clinic" |
| FamilyTree.SeverityColor | src/components/health/FamilyTreeVisualization.tsx:122-129 | one colour per known severity, and the grey default exactly for the other values |
| FamilyTree.GenderIcon | src/components/health/FamilyTreeVisualization.tsx:131-137 | man for "male", woman for "female", and the person icon exactly for anything else |
| FamilyTree.FilteredMembers | src/components/health/FamilyTreeVisualization.tsx:139-144 | the filter "all" keeps everyone; every kept member comes from the list |
| FamilyTree.FilteredMembersExactly | src/components/health/FamilyTreeVisualization.tsx:139-144 | any other filter keeps exactly the members with a condition containing the text, case-insensitively, in order |
| FamilyTree.DedupSpec | src/components/health/FamilyTreeVisualization.tsx:146-154 | the distinct list holds each value once, loses none, in order of first occurrence |
| FamilyTree.GetAllConditions | src/components/health/FamilyTreeVisualization.tsx:146-154 | the loops return the condition names, each once, in order of first occurrence |
| FamilyTree.AllConditionsOccur | src/components/health/FamilyTreeVisualization.tsx:146-154 | a name is listed iff some member's history has a condition with that name |
| FamilyTree.GroupsCover | src/components/health/FamilyTreeVisualization.tsx:273-293 | "Other" holds exactly the members in neither of the first two groups, so every member is shown at least once |
| FamilyTree.GrandparentOnlyGrand | src/components/health/FamilyTreeVisualization.tsx:273-283 | the match is case-sensitive: "Grandparent" is in the grandparents group and not in the parents group |
| FamilyTree.SeverityTotals | src/components/health/FamilyTreeVisualization.tsx:321-339 | the three severity totals add up to the number of conditions with a known severity, at most all conditions |
| FamilyTree.ConditionCountOccurrences | src/components/health/FamilyTreeVisualization.tsx:348-351 | the count next to a name is its number of occurrences over all histories, and at least 1 for each listed name |
| DietCsv.RowIsQuotedFields | src/components/health/DietPlanDashboard.tsx:62 | a data row is its five fields, each in double quotes, joined by commas |
| DietCsv.RowSplitsIntoFields | src/components/health/DietPlanDashboard.tsx:62 | with no comma inside a field, splitting a row on commas gives the quoted fields back |
| DietCsv.DayRows | src/components/health/DietPlanDashboard.tsx:59-63 | a day gives three rows: breakfast, lunch, dinner, each with the day and its meal |
| DietCsv.CsvRows | src/components/health/DietPlanDashboard.tsx:57-64 | the header comes first, then three rows per day |
| DietCsv.CsvRowAt | src/components/health/DietPlanDashboard.tsx:57-64 | row 1 + 3i + k is meal k of day i |
| DietCsv.DownloadCsv | src/components/health/DietPlanDashboard.tsx:55-65 | no plan: no text. Otherwise the loops build exactly the rows joined by newlines |
| DietCsv.SplitCsvLines | src/components/health/DietPlanDashboard.tsx:65 | with no newline inside a field, splitting the text on newlines gives the rows back |
| DietCsv.WeeklyPlanRows | src/components/health/DietPlanDashboard.tsx:57-64 | a generated weekly plan exports as a header and 21 rows |
| Profile.Filled | src/components/health/Dashboard.tsx:74-82 | at most 8 items are counted as filled |
| Profile.RoundHalfUp | src/components/health/Dashboard.tsx:83 | the result is the nearest integer with halves rounded up |
| Profile.ComputeProfilePercent | src/components/health/Dashboard.tsx:73-85 | the loop's result is filled/8 as a rounded percentage, equal to (25·filled + 1)/2 and within 0..100 |
| Profile.PercentClosedForm | src/components/health/Dashboard.tsx:83 | rounding filled/8·100 gives (25·filled + 1)/2, within 0..100 |
| Profile.PercentMonotone | src/components/health/Dashboard.tsx:73-85 | more filled items never give a lower percentage |
| Profile.NothingFilledIsZero | src/components/health/Dashboard.tsx:73-85 | no user and no family members: 0 percent |
| Profile.EverythingFilledIsHundred | src/components/health/Dashboard.tsx:73-85 | every field truthy and a family member recorded: 100 percent |
| Profile.CompletenessIgnoresOptionalFields | src/components/health/Dashboard.tsx:89 | blood type and ethnicity do not affect completeness |
| Profile.CompleteProfileAtLeast63 | src/components/health/Dashboard.tsx:73-89 | a complete profile has at least five items filled, so at least 63 percent |

## Left out

- Transport, CORS, the HTTP route and the server's logging: message delivery is modelled as appending to a per-connection outbox.
- The socket library's internals: the rules listed above are assumptions, not a model of the library.
- Asynchrony on the page. Each handler runs to completion as one step. Interleavings at `await` points, and failures of `createOffer`, `setLocalDescription` or `addIceCandidate`, are outside the model.
- Media and WebRTC internals: remote tracks, the `ontrack` video elements, and the ICE and DTLS transport.
- Repeated `startCall`s: the page registers another set of socket handlers each time. The model keeps only the latest set (`handlers`).
- The map, the ambulance list and `bookAmbulance`: Leaflet, geolocation and alerts are browser services.
- The socket's creation and clean-up on mount and unmount: `socketReady` is fixed when the page is constructed.
- `Date` arithmetic: an appointment's date is the day number of today plus the interval, not an ISO date string.
- Generated ids (`Date.now()`, `Math.random()`) and the upload date are parameters and inputs, not computed.
- A document's `size` text (`toFixed`) is taken as given.
- JsText.ToLower: only ASCII letters are lower-cased. JavaScript's full Unicode case mapping is not modelled.
- JsText.ParseInt: numbers are unbounded integers. Precision loss above 2^53 is not modelled.
- Numbers in general: JavaScript numbers are modelled as `int`, and as `real` in `Profile`'s values.
- The member card's own `getSeverityColor`, a rendering look-up like `FamilyTree.SeverityColor`, is not modelled separately.
- Rendering, fetching, local storage and the JSON download are UI and I/O.
- The API routes are outside the core.
- Signaling.Invariant: the invariant does not include "no room is empty", although `LeaveAll` removes emptied rooms as the library does.
