# Intrachat client — verified model of the component logic

Intrachat is a departmental chat client written in React. This project models
the logic of eight components in Dafny and proves properties of that model:

- **AudioCallModal** and **VideoCallModal**: the call dialogs. This covers their
  call status, the action buttons, the mute and camera toggles, the reject and
  accept paths, and the dispatch of signalling-server messages.
- **GroupSidebar**: selecting group members (at most 50) and creating the group.
- **ChatList**: the conversation list. It covers the self-exclusion on load, the
  tab and name search, and mark-read, delete and archive. It also covers the mute
  table and the groups created from the sidebar.
- **StoryList**: the story list. It covers the hourly expiry pass, the removal pass,
  the tab and search, delete, archive, uploading a story, and the ordering that
  shows uploaded stories first.
- **ContactList**: the contact list. It covers the presence filter and name search,
  and the call buttons that open the audio or video dialog.
- **RightSideBar**: sorting a conversation's messages into shared images, videos,
  files and links.
- **SignUpLogin**: field validation in sign-up and login mode, field edits and the
  mode switch.

The shape of the model follows each component:

- A component whose handlers update state is a `class`. Its fields are the state
  variables, and each handler is a method whose `ensures` give the whole new state.
  That new state is given in terms of pure functions, and the lemmas are about those
  functions.
- Filters and maps over arrays are functions on sequences.
  - `Seqs.Filter` models `Array.prototype.filter`.
  - A sequence comprehension models `.map`.
- The loops of the source are `while` loops with invariants:
  - `getSharedMedia`'s `forEach` over the messages;
  - the video dialog's `forEach` that flips the audio tracks in place.
  They work on an `array` where the source mutates objects in place.
- Parent callbacks that a dialog invokes are recorded, in order, in a `fired`
  sequence. Messages written to the signalling socket are recorded in `sent`.

JavaScript's semantics are spelled out where they matter:

- A field that may be `undefined` is an `Option`. A template literal renders
  `None` as `"undefined"`.
- `===` on `undefined` is true.
- Truthiness is stated per use: an empty string counts as missing.
- `toLowerCase` and `includes` become `Text.ToLower` and `Text.Contains`.
- `trim` removes exactly the whitespace set of ECMAScript.
- Time is integer milliseconds. The source divides and compares in hours or
  minutes; the model compares the millisecond difference with 86,400,000 and
  1,800,000 instead.
- An uncaught `TypeError` inside a handler becomes an `ok == false` result. State
  updates queued before the throw still take effect.

Two behaviours of the code are modelled as written and stated as lemmas. Neither
is listed as a finding, because the intent is unclear:

- The removal pass measures its 30 minutes from creation, not from expiry. So every
  story the expiry pass marks is dropped at the next removal pass
  (`StoryList.ExpiredByTimerAreRemoved`).
- Opening one call dialog does not close the other. Closing one dialog clears the
  shared selected contact and so hides both (`ContactList.AudioFlagOutlivesVideoClose`).

## Model

| member | source | states |
|---|---|---|
| AudioCall.InitialStatus | src/components/AudioCallModal.jsx:27-29 | the dialog opens "incoming" exactly when `isIncomingCall`, otherwise "calling" |
| AudioCall.Action | src/components/AudioCallModal.jsx:39-53 | one press fires exactly one call callback. Only an ongoing call fires end-call then close and keeps its status. "incoming" fires answer-call only and is the one status that moves to "ringing". "ringing" and "calling" fire start-call only and reach "ongoing". The mic callback is never fired |
| AudioCall.OneCallCallbackPerPress | src/components/AudioCallModal.jsx:39-53 | n presses in a row fire exactly n call callbacks, whatever the starting status |
| AudioCall.OngoingIsAbsorbing | src/components/AudioCallModal.jsx:40-44 | from "ongoing", every press keeps the status and fires end-call followed by close |
| AudioCall.OngoingAfterTwoPresses | src/components/AudioCallModal.jsx:27-29 | from either initial status, two or more presses leave the call ongoing |
| AudioCall.LabelsDistinct | src/components/AudioCallModal.jsx:96-102 | the four statuses show four different labels |
| AudioCall.AddUserOnlyWhileOngoing | src/components/AudioCallModal.jsx:120-128 | the add-user button is shown exactly when a press would end the call |
| AudioCall.HangUpIconStartsWhileCalling | src/components/AudioCallModal.jsx:133-144 | while "calling" the button shows the hang-up icon, yet a press starts the call |
| AudioCall.AudioCallModal.constructor | src/components/AudioCallModal.jsx:27-30 | initial status from `isIncomingCall`, unmuted, nothing fired |
| AudioCall.AudioCallModal.HandleMicToggle | src/components/AudioCallModal.jsx:33-36 | negates the mute flag and fires the mic callback once; the status is unchanged |
| AudioCall.AudioCallModal.HandleCallAction | src/components/AudioCallModal.jsx:39-53 | the new status and the callbacks fired are those of `Action` for the status before the press |
| VideoCall.InitialStatus | src/components/VideoCallModal.jsx:36-38 | "incoming" exactly when `isIncomingCall`, otherwise "calling" |
| VideoCall.RouteOf | src/components/VideoCallModal.jsx:56-64 | a socket message is acted on exactly when its type is offer, answer, candidate or call-rejected |
| VideoCall.RouteRoundTrip | src/components/VideoCallModal.jsx:56-64 | the four handled types and their routes are in one-to-one correspondence |
| VideoCall.MicToggled | src/components/VideoCallModal.jsx:140-144 | every audio track's `enabled` flips; every other track and the order are unchanged |
| VideoCall.MicToggleTwiceIsIdentity | src/components/VideoCallModal.jsx:138-145 | toggling the mic twice restores every track |
| VideoCall.IfProvided | src/components/VideoCallModal.jsx:150 | an optional callback fires at most once, exactly when the parent passed it, and no other callback fires in its place |
| VideoCall.CallAction | src/components/VideoCallModal.jsx:147-156 | "calling" moves to "ringing" and fires at most start-call, exactly when passed. Any other status moves to "ended" and fires end-call if passed, then close, with nothing else and close exactly once, last. Nothing is sent |
| VideoCall.RejectEffects | src/components/VideoCallModal.jsx:164-172 | one call-rejected message is sent. The callbacks fired are the reject callback, exactly when passed, followed by close, and nothing else |
| VideoCall.IncomingAction | src/components/VideoCallModal.jsx:174-181 | "accept" moves to "ongoing", sends nothing and fires at most answer-call, exactly when passed. Any other action keeps the status and has exactly the reject effects |
| VideoCall.EndedReadsAsOngoing | src/components/VideoCallModal.jsx:275-281 | the "ended" status is labelled "Ongoing Call" |
| VideoCall.StartButtonOnlyStarts | src/components/VideoCallModal.jsx:317-328 | the Start Call button is shown exactly in the status whose action starts ringing, so its click never takes the ending branch |
| VideoCall.AnswerButtonsFromIncoming | src/components/VideoCallModal.jsx:330-334 | the Accept/Reject buttons are shown only while incoming; accepting enters the ongoing call and rejecting keeps "incoming" |
| VideoCall.VideoCallModal.constructor | src/components/VideoCallModal.jsx:36-44 | initial status, local video on, remote video off, unmuted, no stream, no peer connection |
| VideoCall.VideoCallModal.StartLocalStream | src/components/VideoCallModal.jsx:74-84 | a granted `getUserMedia` stores a fresh track array; a refusal leaves the stream as it was. Status, flags, peer connection, callbacks and messages are unchanged |
| VideoCall.VideoCallModal.HandleMicToggle | src/components/VideoCallModal.jsx:138-145 | negates the mute flag. With a stream, its tracks in place become `MicToggled` of the old tracks. Without one it throws |
| VideoCall.VideoCallModal.ToggleLocalVideo | src/components/VideoCallModal.jsx:134-136 | negates the local-video flag and nothing else |
| VideoCall.VideoCallModal.HandleCallAction | src/components/VideoCallModal.jsx:147-156 | status and callbacks as `CallAction`; nothing is sent, and the peer connection, stream and media flags are unchanged |
| VideoCall.VideoCallModal.HandleEndCall | src/components/VideoCallModal.jsx:158-162 | as written: with no peer connection it throws before any callback fires. Otherwise it closes the connection, fires end-call if passed, then closes the dialog. Status, stream and media flags are unchanged |
| VideoCall.VideoCallModal.HandleEndCallGuarded | src/components/VideoCallModal.jsx:158-162 | corrected: always fires end-call if passed and closes the dialog, closing the connection only if there is one. Status, stream and media flags are unchanged |
| VideoCall.VideoCallModal.HandleRejectCall | src/components/VideoCallModal.jsx:164-172 | appends the reject effects; status, peer connection, stream and media flags are unchanged |
| VideoCall.VideoCallModal.HandleIncomingCallAction | src/components/VideoCallModal.jsx:174-181 | status, callbacks and messages as `IncomingAction`; peer connection, stream and media flags are unchanged |
| VideoCall.VideoCallModal.OnMessage | src/components/VideoCallModal.jsx:54-65 | as written: an offer opens a peer connection and throws on the stream captured at mount (null), so no answer is sent. Answer and candidate throw without a connection. call-rejected fires the reject callback, throwing when none was passed. Other types are ignored. Only the offer changes the peer connection; status, stream and media flags never change |
| VideoCall.VideoCallModal.HandleOffer | src/components/VideoCallModal.jsx:86-121 | opens a peer connection and sends one answer exactly when the stream it is given is non-null; callbacks, status, stream and media flags are unchanged |
| VideoCall.VideoCallModal.OnMessageCurrentStream | src/components/VideoCallModal.jsx:54-65 | corrected: an offer opens a peer connection and is answered, once, exactly when the current local stream exists; without it nothing is sent. Every other type behaves as in `OnMessage`, with the same callbacks, messages and peer connection |
| VideoCall.EndCallWhileCalling | src/components/VideoCallModal.jsx:158-162 | a caller clicking end-call before any offer arrives gets a throw: the click fires no callback and does not close the dialog |
| VideoCall.EndCallWhileCallingGuarded | src/components/VideoCallModal.jsx:158-162 | with the guard the dialog closes, and end-call fires exactly when passed |
| VideoCall.OfferAfterStreamIsNeverAnswered | src/components/VideoCallModal.jsx:54-90 | as written: even after the camera stream has started, an offer throws and no answer is sent |
| VideoCall.OfferAfterStreamAnswered | src/components/VideoCallModal.jsx:54-90 | reading the current stream, the same offer is answered exactly once |
| GroupSidebar.Without | src/components/GroupSidebar.jsx:23-25 | removes the id, keeps every other selected id, in order |
| GroupSidebar.Toggle | src/components/GroupSidebar.jsx:21-31 | a selected id is removed. An unselected id is appended while fewer than 50 are selected. Otherwise the selection is unchanged |
| GroupSidebar.WithoutAbsent | src/components/GroupSidebar.jsx:23-25 | removing an id that is not selected changes nothing |
| GroupSidebar.WithoutUnique | src/components/GroupSidebar.jsx:23-25 | in a selection without duplicates, removing the k-th id deletes exactly position k |
| GroupSidebar.ToggleKeepsWellFormed | src/components/GroupSidebar.jsx:19-31 | the selection stays duplicate-free and at most 50 long |
| GroupSidebar.ToggleTwiceRestores | src/components/GroupSidebar.jsx:21-31 | selecting then deselecting a new id under the cap restores the selection |
| GroupSidebar.CanCreateIffNamed | src/components/GroupSidebar.jsx:34 | a group can be created exactly when at least two users are selected and the name is not all whitespace |
| GroupSidebar.ButtonLabel | src/components/GroupSidebar.jsx:151-155 | "Create Group" for none, "... 1 User" for one, "... n Users" with n in decimal otherwise |
| GroupSidebar.ButtonLabelInjective | src/components/GroupSidebar.jsx:151-155 | different counts give different labels |
| GroupSidebar.GroupSidebarPanel.constructor | src/components/GroupSidebar.jsx:17-18 | empty selection and name |
| GroupSidebar.GroupSidebarPanel.SetGroupName | src/components/GroupSidebar.jsx:17-18 | sets the name only |
| GroupSidebar.GroupSidebarPanel.HandleSelectUser | src/components/GroupSidebar.jsx:21-31 | the selection becomes `Toggle` of the old one. The alert is raised exactly when the cap refuses an id |
| GroupSidebar.GroupSidebarPanel.HandleCreateGroup | src/components/GroupSidebar.jsx:33-41 | exactly when creation is allowed, `onGroupCreate` is called with the name and selection, then `onClose`, and both are reset. Otherwise no callback is called and nothing changes |
| ChatList.LoadUsers | src/components/ChatList.jsx:52-54 | the loaded list is the fetched list without the signed-in user's entries, in order |
| ChatList.FilteredUsers | src/components/ChatList.jsx:70-87 | the rows shown are an order-preserving sublist holding exactly the rows that pass both the tab and the case-insensitive name search |
| ChatList.AllTabEmptySearchShowsAll | src/components/ChatList.jsx:70-87 | the "All" tab with an empty search shows every row |
| ChatList.GroupsMatchUndefined | src/components/ChatList.jsx:83-87 | a created group is found by the search "undefined" |
| ChatList.MarkedRead | src/components/ChatList.jsx:101-109 | the matching rows lose `isNew`, the others are unchanged, and the length is kept |
| ChatList.MarkReadLeavesNewTab | src/components/ChatList.jsx:101-109 | a row marked read is gone from the "New" tab, and marking twice is marking once |
| ChatList.Deleted | src/components/ChatList.jsx:112-116 | exactly the matching rows removed, the rest kept in order |
| ChatList.Archived | src/components/ChatList.jsx:119-127 | the matching rows archived, the others unchanged |
| ChatList.ArchivedRowsInArchivedTab | src/components/ChatList.jsx:119-127 | an archived row that matches the search is shown in the "Archived" tab |
| ChatList.FirstMute | src/components/ChatList.jsx:181 | `find`: the first mute row for the key, or none when there is none |
| ChatList.IsMuted | src/components/ChatList.jsx:180-183 | muted exactly when the first row for the key has a deadline after now |
| ChatList.MuteTakesEffect | src/components/ChatList.jsx:153-157 | muting an unmuted key for m minutes mutes it until now + 60,000·m ms |
| ChatList.MuteAgainIsIgnored | src/components/ChatList.jsx:153-157 | a second mute of a key has no effect, because `find` stops at the first row |
| ChatList.Unmuted | src/components/ChatList.jsx:137-141 | all rows for the key removed, the rest kept in order |
| ChatList.UnmuteClears | src/components/ChatList.jsx:137-141 | after unmuting, the key is muted at no time |
| ChatList.UnmuteKeepsDeadline | src/components/ChatList.jsx:137-141 | unmuting one key keeps every other key's effective deadline |
| ChatList.UnmuteKeepsOthers | src/components/ChatList.jsx:137-141 | unmuting one key leaves whether any other key is muted unchanged |
| ChatList.GroupPrepended | src/components/ChatList.jsx:186-199 | the new group shows in the "New" tab. In every view that shows it, it heads the rows that view showed before; every other view is unchanged |
| ChatList.GroupSurvivesDelete | src/components/ChatList.jsx:112-116 | as written: deleting a created group by the key its row passes leaves it in the list |
| ChatList.DeletedByKey | src/components/ChatList.jsx:112-116 | corrected: removes exactly the rows whose own key equals the key passed |
| ChatList.DeleteByKeyRemovesRow | src/components/ChatList.jsx:112-116 | corrected: the row a delete was chosen from is removed, groups included |
| ChatList.ChatListPanel.constructor | src/components/ChatList.jsx:35-43 | empty lists, loading, no error |
| ChatList.ChatListPanel.Load | src/components/ChatList.jsx:47-64 | as written: a user list is stored without the signed-in user. A failed request, or a list of fewer than two users (the debug log throws), shows the failed-fetch message. Loading ends |
| ChatList.ChatListPanel.LoadWithoutLog | src/components/ChatList.jsx:47-64 | corrected: only a failed request shows the failed-fetch message |
| ChatList.ChatListPanel.MarkAsRead | src/components/ChatList.jsx:101-109 | rows become `MarkedRead` of the old rows |
| ChatList.ChatListPanel.Delete | src/components/ChatList.jsx:112-116 | rows become `Deleted` of the old rows |
| ChatList.ChatListPanel.DeleteRow | src/components/ChatList.jsx:112-116 | corrected: rows become `DeletedByKey` of the old rows |
| ChatList.ChatListPanel.Archive | src/components/ChatList.jsx:119-127 | rows become `Archived` of the old rows |
| ChatList.ChatListPanel.MuteUser | src/components/ChatList.jsx:153-157 | one mute row, with deadline now + 60,000·m ms, appended at the end |
| ChatList.ChatListPanel.Unmute | src/components/ChatList.jsx:137-141 | the mute table becomes `Unmuted` of the old one |
| ChatList.ChatListPanel.GroupCreate | src/components/ChatList.jsx:186-199 | the new group prepended |
| ChatList.SingleUserFetchReportsFailure | src/components/ChatList.jsx:51-62 | as written: fetching a single account shows it together with "Failed to fetch users." |
| ChatList.SingleUserFetchWithoutLog | src/components/ChatList.jsx:51-62 | corrected: the same fetch shows the account and no error |
| StoryList.ExpireStories | src/components/StoryList.jsx:65-78 | stories at least 24 h old and not yet expired become "Expired"; all others are unchanged |
| StoryList.ExpireIdempotent | src/components/StoryList.jsx:65-78 | a second expiry pass at the same time changes nothing |
| StoryList.ExpiredAfterPass | src/components/StoryList.jsx:65-78 | after a pass, every story at least 24 h old reads "Expired" |
| StoryList.RemoveExpiredStories | src/components/StoryList.jsx:88-101 | keeps, in order, exactly the stories that are not expired or are under 30 min old |
| StoryList.ExpiredByTimerAreRemoved | src/components/StoryList.jsx:65-101 | a story marked by the expiry pass is dropped by any later removal pass |
| StoryList.FilteredStories | src/components/StoryList.jsx:109-126 | an order-preserving sublist holding exactly the stories that pass the status tab and the name search |
| StoryList.UploadedFirst | src/components/StoryList.jsx:318-321 | a permutation of the stories with every uploaded story before every other |
| StoryList.PartitionIsPermutation | src/components/StoryList.jsx:318-321 | uploaded stories followed by the others hold the same stories as the input |
| StoryList.UploadedFirstIsStable | src/components/StoryList.jsx:318-321 | the sort is stable: filtering the display order by either group gives exactly that group's rows of the list, in the list's order |
| StoryList.Archived | src/components/StoryList.jsx:149-157 | the story with the id becomes "Archived", the others unchanged |
| StoryList.Deleted | src/components/StoryList.jsx:139-147 | stories with the id removed, the rest kept in order |
| StoryList.UploadInto | src/components/StoryList.jsx:176-189 | the signed-in user's row gets the media URL, the media type, the description, the uploaded flag and "Active", and keeps its id, names and creation time; the other rows are unchanged |
| StoryList.UploadShowsFirst | src/components/StoryList.jsx:176-189 | after upload the story is shown in the "Active" tab and sorts among the uploaded |
| StoryList.TopLevelType | src/components/StoryList.jsx:167 | the part of the MIME type before the first "/" |
| StoryList.StoryListPanel.constructor | src/components/StoryList.jsx:32-38 | empty list, dialog closed, no media, empty type and description |
| StoryList.StoryListPanel.Load | src/components/StoryList.jsx:44-61 | a fetched list replaces the stories; otherwise they are kept |
| StoryList.StoryListPanel.Expire | src/components/StoryList.jsx:65-78 | the stories become `ExpireStories` of the old ones |
| StoryList.StoryListPanel.RemoveExpired | src/components/StoryList.jsx:88-101 | the stories become `RemoveExpiredStories` of the old ones |
| StoryList.StoryListPanel.Delete | src/components/StoryList.jsx:139-147 | only a confirmed delete removes the story |
| StoryList.StoryListPanel.Archive | src/components/StoryList.jsx:149-157 | the stories become `Archived` of the old ones |
| StoryList.StoryListPanel.ImportStory | src/components/StoryList.jsx:160-162 | opens the upload dialog only |
| StoryList.StoryListPanel.MediaUpload | src/components/StoryList.jsx:164-171 | a chosen file is stored with its top-level type; no file changes nothing |
| StoryList.StoryListPanel.SetDescription | src/components/StoryList.jsx:38 | sets the description only |
| StoryList.StoryListPanel.UploadConfirm | src/components/StoryList.jsx:173-200 | uploads exactly when a file and a non-empty description are present. It then closes the dialog and resets the media state. Otherwise nothing changes |
| StoryList.StoryListPanel.UploadCancel | src/components/StoryList.jsx:202-206 | closes the dialog and clears file and description, leaving the media type |
| ContactList.FilteredContacts | src/components/ContactList.jsx:48-65 | an order-preserving sublist holding exactly the contacts that pass the presence filter and the name search |
| ContactList.AllFilterEmptySearchShowsAll | src/components/ContactList.jsx:48-65 | "All" with an empty search shows every contact |
| ContactList.UnknownFilterIsAll | src/components/ContactList.jsx:50-59 | a filter value other than "Online" and "Offline" shows what "All" shows |
| ContactList.OnlineOfflineDisjoint | src/components/ContactList.jsx:53-56 | no contact is in both the "Online" and the "Offline" view |
| ContactList.ContactListPanel.constructor | src/components/ContactList.jsx:21-27 | empty list, "All", no contact selected, both dialogs closed |
| ContactList.ContactListPanel.Load | src/components/ContactList.jsx:30-46 | a response with users replaces the list and loading ends either way. After a failed request the list area shows "Failed to fetch users." instead of the rows; after a successful one with no earlier error it shows the filtered contacts |
| ContactList.ContactListPanel.Displayed | src/components/ContactList.jsx:176-183 | the list area shows the loader exactly while loading, otherwise the error text exactly when there is an error, otherwise the filtered contacts |
| ContactList.ContactListPanel.SetSearchTerm | src/components/ContactList.jsx:21 | sets the search term only |
| ContactList.ContactListPanel.SetFilter | src/components/ContactList.jsx:22 | sets the filter only |
| ContactList.ContactListPanel.AudioCallClick | src/components/ContactList.jsx:67-70 | selects the contact and opens the audio dialog; the video flag is untouched |
| ContactList.ContactListPanel.VideoCallClick | src/components/ContactList.jsx:72-75 | selects the contact and opens the video dialog; the audio flag is untouched |
| ContactList.ContactListPanel.CloseAudioCallModal | src/components/ContactList.jsx:77-80 | clears the audio flag and the contact, so neither dialog is shown |
| ContactList.ContactListPanel.CloseVideoCallModal | src/components/ContactList.jsx:82-85 | clears the video flag and the contact, so neither dialog is shown |
| ContactList.AudioThenVideoShowsBoth | src/components/ContactList.jsx:255-270 | an audio click then a video click shows both dialogs for the last contact |
| ContactList.AudioFlagOutlivesVideoClose | src/components/ContactList.jsx:255-270 | after closing the video dialog the audio dialog is hidden, yet it returns with the next video click |
| RightSideBar.Media | src/components/RightSideBar.jsx:27-50 | no result when some message throws. Otherwise each list is an order-preserving sublist holding exactly the messages of its kind, each with as many copies as the conversation has |
| RightSideBar.KindsAreExclusive | src/components/RightSideBar.jsx:33-47 | a message is of at most one kind |
| RightSideBar.BucketSizesBounded | src/components/RightSideBar.jsx:33-47 | the four lists together are no longer than the conversation |
| RightSideBar.DocumentsAreDropped | src/components/RightSideBar.jsx:34-42 | a PDF with a preview lands in no list |
| RightSideBar.GetSharedMedia | src/components/RightSideBar.jsx:27-50 | the loop's result equals `Media` of the messages |
| RightSideBar.Panel | src/components/RightSideBar.jsx:24-52 | nothing is rendered exactly when closed. An open panel crashes exactly when a message throws, and otherwise shows `Media` |
| SignUpLogin.Errors | src/components/SignUpLogin.jsx:44-58 | email and password are reported when missing, in both modes. The five sign-up fields are reported when missing, only in sign-up mode. A confirmation different from the password is reported only in sign-up mode. Every reported field carries its own message |
| SignUpLogin.ValidIff | src/components/SignUpLogin.jsx:44-60 | the error map is empty exactly when the mode's required fields are filled and, in sign-up mode, the passwords agree |
| SignUpLogin.LoginReportsOnlyCredentials | src/components/SignUpLogin.jsx:46-48 | in login mode only email and password can be reported |
| SignUpLogin.SignUpValidIsLoginValid | src/components/SignUpLogin.jsx:44-60 | a form that passes sign-up also passes login |
| SignUpLogin.InitialSignUpErrors | src/components/SignUpLogin.jsx:11-20 | `validateForm` on the untouched form in sign-up mode reports the seven empty fields and no mismatch |
| SignUpLogin.FillingFieldClearsItsError | src/components/SignUpLogin.jsx:36-54 | filling a field silences its error and leaves every other error as it was, the password confirmation included, unless the field filled is the password |
| SignUpLogin.CollectErrors | src/components/SignUpLogin.jsx:45-58 | filling the error object check by check yields `Errors` |
| SignUpLogin.SignUpLoginForm.constructor | src/components/SignUpLogin.jsx:10-23 | sign-up mode, all fields empty, no errors |
| SignUpLogin.SignUpLoginForm.HandleChange | src/components/SignUpLogin.jsx:36-42 | exactly the named field takes the value |
| SignUpLogin.SignUpLoginForm.ValidateForm | src/components/SignUpLogin.jsx:44-61 | stores `Errors` of the form and returns whether it is empty |
| SignUpLogin.SignUpLoginForm.HandleSubmit | src/components/SignUpLogin.jsx:63-163 | once the submit event reaches `handleSubmit`: posts nothing unless valid. A valid form goes to the endpoint of the current mode, and a success disables the button |
| SignUpLogin.SignUpLoginForm.ToggleMode | src/components/SignUpLogin.jsx:392 | negates the mode and keeps the form data |
| SignUpLogin.LoginWithEmptyForm | src/components/SignUpLogin.jsx:44-76 | `handleSubmit` called on an empty login form posts nothing, and `validateForm` reports exactly email and password |
| Text.ToLower | src/components/ChatList.jsx:85-86 | same length, every ASCII capital becomes its small letter, every other character is unchanged, and no capital is left |
| Text.Contains | src/components/ChatList.jsx:86 | `includes`: true exactly when the term occurs at some position |
| Text.TrimEmptyIffBlank | src/components/GroupSidebar.jsx:34 | a name trims to empty exactly when it is all whitespace |
| Text.SearchIgnoresTermCase | src/components/ChatList.jsx:83-87 | the search gives the same answer for a term and its lower-case form |
| Text.SameUpToCaseLowersAlike | src/components/ChatList.jsx:85-86 | two strings that differ only in the case of ASCII letters lower-case to the same string |
| Text.SearchIgnoresCase | src/components/ChatList.jsx:83-87 | changing the case of ASCII letters in the name or in the search term does not change whether the search matches |
| Text.ParseDecimalOfDecimal | src/components/GroupSidebar.jsx:153-154 | the decimal rendering of a count reads back as the count |

## Left out

- Network I/O: the axios REST calls, the WebSocket connection and `localStorage`. Their results are inputs: the fetched lists, the signed-in user id, and the server's acceptance of a submitted form. The bodies posted by `handleSubmit` are not modelled, only the endpoint chosen.
- JSON parsing of socket messages: the model receives the message type.
- WebRTC and media internals. Tracks are `{kind, enabled}` records. `getUserMedia` is an input that grants a track list or refuses.
- Remote media: `ontrack`, the remote stream and `isRemoteVideoOn`, the ICE candidates sent and applied, and the session descriptions exchanged.
- Timers and intervals: each pass of the expiry and removal timers is a method taking the current time. Likewise the toasts, the alerts (`HandleSelectUser` reports the alert as a boolean) and `window.confirm` (a boolean input).
- ExpireStories, RemoveExpiredStories: each pass reads a single `now` for all stories, while the source reads the clock once per story. The model therefore fixes one cut-off per pass.
- HandleSubmit, LoginWithEmptyForm, InitialSignUpErrors: validation is modelled as if the submit event reached `handleSubmit`. The inputs carry the HTML `required` attribute and the form has no `noValidate`, so a browser blocks the submit of a form with an empty required field and shows its own prompt; that gate is not modelled.
- The debounce on the story search: the model filters with the debounced term directly.
- Text: case folding and string length are modelled on scalar values with ASCII-only lowercasing. JavaScript lowercases all of Unicode and measures UTF-16 code units.
- Dates: `new Date(...)` parsing and NaN timestamps. Creation times are integer milliseconds.
- ChatList mute durations are integers: the number field's value, which is still a string, and its coercion by `*` are not modelled.
- The menu anchor and selected-row state (`anchorEl`, `selectedUserId`, `selectedStoryId`) and the dropdown open/close handlers. The model passes the row's key to each action directly.
- Rendering, layout and styling. Only the visibility tests and labels that carry logic are modelled.
- The add-user button's `onAddUser` callback is only wired to a button and has no logic. AudioCallModal invokes its callbacks unguarded, and its callers pass none; the model records the calls as fired.
- The call design with session ids, candidate queuing, auto-reject of a second invite and end reasons is not part of this code. Nothing of it is modelled.
- ChatField.jsx, ProfilePage.jsx, StoryDetail.jsx and the purely presentational components are not part of this model.

## Findings

| source | as written | input that shows it | evidently intended | confidence | as-written member | corrected member |
|---|---|---|---|---|---|---|
| src/components/VideoCallModal.jsx:54-90 | the socket handler is installed once at mount, so `handleOffer` reads the `localStream` of the first render, which is null | the camera stream starts, then an "offer" arrives | the offer is answered with the current stream | not executed | VideoCall.VideoCallModal.OnMessage, VideoCall.OfferAfterStreamIsNeverAnswered | VideoCall.VideoCallModal.OnMessageCurrentStream, VideoCall.OfferAfterStreamAnswered |
| src/components/VideoCallModal.jsx:158-162 | `handleEndCall` calls `close()` on the peer connection, which only an incoming offer creates | the caller hangs up while "calling" | the end-call callback runs and the dialog closes | not executed | VideoCall.VideoCallModal.HandleEndCall, VideoCall.EndCallWhileCalling | VideoCall.VideoCallModal.HandleEndCallGuarded, VideoCall.EndCallWhileCallingGuarded |
| src/components/ChatList.jsx:112-116 | rows pass `user._id \|\| user.id` to the handlers, which compare it with `user._id`; a created group has no `_id` | create a group, then delete it from its menu | the group is deleted | not executed | ChatList.GroupSurvivesDelete | ChatList.DeletedByKey, ChatList.DeleteByKeyRemovesRow, ChatList.ChatListPanel.DeleteRow |
| src/components/ChatList.jsx:51-62 | after storing the list, a debug log reads `response.data.users[1]._id`, which throws for fewer than two users, and the catch reports a failed fetch | the server returns a single account | the list is shown without an error | not executed | ChatList.ChatListPanel.Load, ChatList.SingleUserFetchReportsFailure | ChatList.ChatListPanel.LoadWithoutLog, ChatList.SingleUserFetchWithoutLog |
