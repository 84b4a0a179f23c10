# parking-share, modelled in Dafny

parking-share is a Next.js front end for sharing parking spaces. Owners register lots. Renters request bookings. Users befriend each other and form "lucky groups". All data lives in a hosted Supabase database. This project models the logic the pages and the shared parking store run around their database calls:

- **The parking store** (`ParkingProvider`). It is a class holding the `parkingLots` and `bookings` lists and the `loading` flag. It covers:
  - appending a stored lot;
  - the guarded partial update of a lot and its column payload;
  - flipping availability;
  - lookups by id and the owner filter;
  - booking requests with their duration and price;
  - status writes, with the confirm, decline and pay aliases.
- **The lucky-friends page** (`LuckyFriends`):
  - keep-first de-duplication of the friend and group lists;
  - member formatting;
  - the rows written when a group is created;
  - the invitation decision table;
  - leaving a group, removing a member and removing a friend;
  - `isFriendInGroup` and the creator-only buttons.
  The group membership and friendship tables are fields of the page class, so every write is visible as a state change.
- **The friend search page** (`FriendSearch`):
  - the friendship status map, built by a loop;
  - users with their status;
  - the first ten default results;
  - the local update after an invitation;
  - the button text.
- **The two lot registration forms** (`ListingForm`, `RegisterPage`, `OwnerRegisterPage`):
  - the shared `validateForm`, filled one check at a time (the city is checked only on the owner page);
  - amenity parsing;
  - image acceptance and the storage upload path;
  - the submit flows into the store.
- **The address autocomplete box** (`LocationSearch`). A loop over the address components in which the last match wins for each field, the default country, and the trimmed street address.
- **The owner dashboard** (`OwnerDashboard`): the sign-in and owner gate, the pending-request list, the end time shown, and the per-id loading flags around each store call.
- **The create-group modal** (`CreateGroupModal`) and **the select box** (`Select`): the modal's submit flow, and the selected-option and label computation.

Every database round trip is a parameter: `Outcome` (`Pass` or `Fail(message)`) for writes, and `Result` (`Ok(value)` or `Err(message)`) for calls that return server-assigned data. `parseFloat` is a parameter `parse: string -> Option<real>`, where `None` stands for `NaN`. Money, coordinates and durations are `real`. Timestamps are integer milliseconds. JavaScript's `trim`, `split`, `join`, `startsWith` and the array idioms (`map` with a ternary, `filter`, `find`, `findIndex`, `some`) are defined once in `Text` and `Seqs`, with their own contracts.

Notes on what the code does (the unused Mongoose schema in app/models/Booking.ts describes a different booking model):

- There is no booking state machine. `updateBookingStatus` writes any status over any status. "Decline" writes `'cancelled'` (app/providers/ParkingProvider.tsx:678-680).
- The bookings table uses five statuses (app/providers/ParkingProvider.tsx:48), not the six-value enum with `'declined'` of the unused Mongoose schema.
- `requestBooking` checks neither the lot's availability nor the times. A zero or negative span is priced as written.
- `requestBooking` reads the new booking's owner id from a joined owner record that selects only the name, so the id is `undefined`. The model records both versions. The store uses the lot's owner, as `getMyBookings` does (see "## Findings").

## Model

| member | source | states |
|---|---|---|
| ParkingProvider.Truthy | app/providers/ParkingProvider.tsx:186-191 | `x \|\| null` on an optional string: the empty string becomes absent, anything else is kept |
| ParkingProvider.UpdateData | app/providers/ParkingProvider.tsx:271-293 | an address column is sent exactly when the address was provided and that string is non-empty; latitude and longitude are sent together, exactly when coordinates were provided; every other column is sent exactly when provided, with the provided value |
| ParkingProvider.Store.BuildUpdateData | app/providers/ParkingProvider.tsx:271-293 | assembling the payload one column at a time yields `UpdateData(patch)` |
| ParkingProvider.Store.AddLotColumns | app/providers/ParkingProvider.tsx:287-293 | the non-address assignments set exactly the provided columns of an empty payload |
| ParkingProvider.Store.AddAddressColumns | app/providers/ParkingProvider.tsx:275-285 | the address assignments give the address part of `UpdateData` |
| ParkingProvider.UpdateKeepsUnsentFields | app/providers/ParkingProvider.tsx:296-349 | applying an update keeps the lot's id and owner; the address, price, availability, amenities and instructions stay as they were when not provided; a provided price is taken |
| ParkingProvider.BookingRequest | app/providers/ParkingProvider.tsx:401-416 | the inserted booking is pending; its duration times 3,600,000 equals the span in milliseconds; its price is rate times duration |
| ParkingProvider.StatusUpdateTouchesOnlyTarget | app/providers/ParkingProvider.tsx:651-657 | the status rewrite keeps length and order; bookings with that id get the new status and keep every other field; all other bookings are unchanged |
| ParkingProvider.AvailabilityTouchesOnlyTarget | app/providers/ParkingProvider.tsx:374-378 | the availability rewrite keeps length and order; only `isAvailable` of the lots with that id changes |
| ParkingProvider.Store.constructor | app/providers/ParkingProvider.tsx:87-89 | the store starts with no lots, no bookings and not loading |
| ParkingProvider.Store.GetParkingLotById | app/providers/ParkingProvider.tsx:388-390 | null exactly when no lot has that id; otherwise a lot of the list with that id (the first) |
| ParkingProvider.Store.GetBookingById | app/providers/ParkingProvider.tsx:577-579 | null exactly when no booking has that id; otherwise a booking of the list with that id (the first) |
| ParkingProvider.Store.MyParkingLots | app/providers/ParkingProvider.tsx:669 | exactly the lots owned by the signed-in user, each as often as in the list and in its order; nothing without a user |
| ParkingProvider.Store.AddParkingLot | app/providers/ParkingProvider.tsx:158-246 | without a user nothing is sent and nothing changes; otherwise the row sent has the user as owner; on a database error the result is null and the list is unchanged; on success the stored lot, carrying the draft's address, price, availability, amenities and (truthy) photo, is appended at the end; bookings are untouched and loading ends false |
| ParkingProvider.Store.UpdateParkingLot | app/providers/ParkingProvider.tsx:248-358 | with no user, an unknown id or another owner nothing is sent and nothing changes; otherwise the payload is `UpdateData(patch)`; on success only the lot with that id is replaced by the updated lot; on error nothing changes |
| ParkingProvider.Store.UpdateParkingLotAvailability | app/providers/ParkingProvider.tsx:360-386 | returns true exactly on success; then only the availability of that id is rewritten, otherwise the lots are unchanged |
| ParkingProvider.Store.RequestBooking | app/providers/ParkingProvider.tsx:392-457 | an unknown lot gives null with nothing sent; otherwise the insert is `BookingRequest` at the lot's rate; a stored booking is appended with the sent fields, the joined address and names, and the booked lot's owner as its owner; an error leaves the bookings unchanged |
| ParkingProvider.RequestedBookingAsWritten | app/providers/ParkingProvider.tsx:435-446 | the booking as the code builds it has no owner id, so the owner filter `booking.ownerId === user?.id` drops it for every signed-in user, the lot's owner included |
| ParkingProvider.RequestedBooking | app/providers/ParkingProvider.tsx:435-446 | with the lot's owner recorded, the owner filter keeps the booking for exactly that owner signed in, and for nobody else |
| ParkingProvider.Store.UpdateBookingStatus | app/providers/ParkingProvider.tsx:640-663 | on success the status of that id is rewritten whatever it was; on error the bookings are unchanged; the lots are untouched |
| ParkingProvider.Store.ConfirmBooking | app/providers/ParkingProvider.tsx:678 | the status write with `'confirmed'` |
| ParkingProvider.Store.DeclineBooking | app/providers/ParkingProvider.tsx:679 | the status write with `'cancelled'` |
| ParkingProvider.Store.PayBooking | app/providers/ParkingProvider.tsx:680 | the status write with `'paid'`, with no check of the current status |
| LuckyFriends.FriendsOf | app/lucky-friends/page.tsx:153-170 | the friends are exactly the joined users that are present, and there are no more of them than rows |
| LuckyFriends.UniqueFriendsListed | app/lucky-friends/page.tsx:174-180 | the merged list (sent, then received) has no duplicate ids, lists only input friends, lists every input id, each listed entry is the first one with its id, and the ids come in the order of their first occurrence |
| LuckyFriends.SentFriendWins | app/lucky-friends/page.tsx:174-180 | a friend reachable both ways is listed with the data of the first sent request naming them |
| LuckyFriends.UserOf | app/lucky-friends/page.tsx:252 | the user object itself, or element 0 of a non-empty array; none otherwise |
| LuckyFriends.FormatMember | app/lucky-friends/page.tsx:244-266 | a member is kept exactly when its user exists and has an id, a name and an email; a kept member carries the row id, that user and the status |
| LuckyFriends.FormatMembers | app/lucky-friends/page.tsx:243-269 | the kept members are exactly the formatted members that survive, never more than the rows |
| LuckyFriends.FormatMembersCount | app/lucky-friends/page.tsx:243-269 | the number of kept members equals the number of rows whose formatting survives |
| LuckyFriends.FormatGroup | app/lucky-friends/page.tsx:271-278 | id, name and creator are copied; the members are the kept members; `memberCount` equals their number |
| LuckyFriends.FormatGroups | app/lucky-friends/page.tsx:242-279 | every group is formatted in place: same length, same order |
| LuckyFriends.UniqueGroupsListed | app/lucky-friends/page.tsx:236-279 | the group list has no duplicate ids, lists every owned or joined group's id, each entry is the formatting of the first response with its id, and the ids come in the order of their first occurrence |
| LuckyFriends.CreateGroupRows | app/lucky-friends/page.tsx:306-323 | one row more than the selection; the creator first, then each selected friend in order; all accepted, all sent by the creator, all in the new group |
| LuckyFriends.CreatedGroupMembers | app/lucky-friends/page.tsx:306-323 | the users of the created rows are exactly the creator and the selected friends |
| LuckyFriends.StoredRows | app/lucky-friends/page.tsx:306-323 | each insert is stored with the next numeric id, in order |
| LuckyFriends.InviteDecision | app/lucky-friends/page.tsx:432-458 | no record means a new invitation; a pending record refuses as "already sent"; an accepted record refuses as "already in group"; a rejected record is reopened by its id; each of these holds both ways |
| LuckyFriends.AlertText | app/lucky-friends/page.tsx:464 | the alert is never empty: the error message, or the generic failure text when the message is empty |
| LuckyFriends.Single | app/lucky-friends/page.tsx:421-430 | `.single()` yields a matching row exactly when exactly one row matches; none or several read as "no record" |
| LuckyFriends.IsFriendInGroup | app/lucky-friends/page.tsx:476-479 | false without a selected group or member list; otherwise true exactly when some member's user id is the friend's |
| LuckyFriends.CreatorOnlyButtons | app/lucky-friends/page.tsx:617-680 | the leave button shows exactly when the invite button does not; the remove button shows only to the creator and never on the viewer's own row |
| LuckyFriends.LuckyFriendsPage.constructor | app/lucky-friends/page.tsx:87 | the page starts from the given tables with nothing selected, the invite modal closed, no invitation in flight and no alert |
| LuckyFriends.LuckyFriendsPage.HandleOpenInviteModal | app/lucky-friends/page.tsx:470-474 | the group becomes the invite target and the invite modal is open |
| LuckyFriends.LuckyFriendsPage.CloseInviteModal | app/lucky-friends/page.tsx:696-701 | closing the invite modal clears the target, after which `HandleInviteMember` changes nothing |
| LuckyFriends.LuckyFriendsPage.HandleCreateGroup | app/lucky-friends/page.tsx:289-332 | without a user or on a group-insert error nothing changes; otherwise the group row is added; on a member-insert success the `CreateGroupRows` are stored, on failure no member row is |
| LuckyFriends.LuckyFriendsPage.HandleInviteMember | app/lucky-friends/page.tsx:415-468 | without a user or selected group nothing changes; a failed lookup alerts; otherwise `InviteDecision` on the unique matching row: refusals alert with their message and change no row, reopening rewrites only that row's status, a new invitation appends a pending row sent by the viewer, and failed writes alert; the in-flight marker ends cleared, so a friend's button is then disabled exactly when they are in the group |
| LuckyFriends.InviteButtonRule | app/lucky-friends/page.tsx:726 | a member of the target group always has a disabled button, as does the friend whose invitation is in flight; with nothing in flight a button is disabled exactly when the friend is in the group, and with no target group too it is enabled |
| LuckyFriends.LuckyFriendsPage.HandleLeaveGroup | app/lucky-friends/page.tsx:334-354 | on success the viewer's rows in that group are deleted; otherwise nothing changes |
| LuckyFriends.LuckyFriendsPage.HandleRemoveMember | app/lucky-friends/page.tsx:378-407 | the member row's user is looked up by `.single()`; on success that user's rows in the group are deleted; with no user, no unique row or an error nothing changes |
| LuckyFriends.LuckyFriendsPage.HandleRemoveFriend | app/lucky-friends/page.tsx:356-376 | on success the friendship rows between the two users are deleted; otherwise nothing changes |
| LuckyFriends.RemoveFriendDeletesBothDirections | app/lucky-friends/page.tsx:362-365 | no row between the two users survives in either direction, and every other row is kept as often as before |
| LuckyFriends.LeaveDeletesOnlyThatMembership | app/lucky-friends/page.tsx:340-344 | none of that user's rows in that group remain, and every other row is kept |
| LuckyFriends.ReinviteTouchesOnlyThatRow | app/lucky-friends/page.tsx:436-442 | reopening keeps length and order, sets only the status of the row with that id to pending, and leaves other rows unchanged |
| FriendSearch.BuildFriendshipMap | app/friends/search/page.tsx:60-64 | the loop over the rows yields `StatusMap`, the map after setting each row's other party in turn |
| FriendSearch.StatusMapLastWins | app/friends/search/page.tsx:60-64 | a user has an entry exactly when some row names them as the other party (the receiver if the viewer sent it, else the sender), and the entry is the status of the last such row |
| FriendSearch.UsersWithStatus | app/friends/search/page.tsx:67-70 | same length and order; each user keeps id, name and email, and the status is the map entry or null |
| FriendSearch.ListedStatus | app/friends/search/page.tsx:60-70 | a listed user has no status exactly when no friendship row of the viewer involves them |
| FriendSearch.DefaultResults | app/friends/search/page.tsx:72-84 | the first min(10, n) users, in order |
| FriendSearch.MarkPendingOnlyTarget | app/friends/search/page.tsx:133-138 | the local update keeps length and order, marks only the users with that id as pending, and leaves everyone else unchanged |
| FriendSearch.ButtonText | app/friends/search/page.tsx:146-155 | pending gives "invitation sent", accepted gives "already friends", no status (or rejected) gives "send invitation", each both ways |
| FriendSearch.EnabledButtonSends | app/friends/search/page.tsx:249-252 | an enabled button always offers to send; a rejected user's button is disabled although it says "send" |
| FriendSearch.FriendSearchPage.constructor | app/friends/search/page.tsx:23-27 | the page starts with no users, no results and no invitation in flight |
| FriendSearch.FriendSearchPage.FetchUsers | app/friends/search/page.tsx:35-79 | with a user and both queries answered, the users are listed with the statuses `StatusMap` gives from the friendship rows the viewer sent or received, and the first ten are shown; otherwise both lists are unchanged |
| FriendSearch.RefetchAfterInviteIsPending | app/friends/search/page.tsx:133-138 | after a stored invitation, fetching the users again lists the target as pending, as the local update already shows |
| FriendSearch.FriendSearchPage.ShowResults | app/friends/search/page.tsx:81-115 | a blank query shows the first ten users; any other query shows the matcher's results |
| FriendSearch.FriendSearchPage.HandleSendInvite | app/friends/search/page.tsx:117-144 | without a user nothing happens; otherwise a pending request from the viewer is sent; on success that user is marked pending in both lists, and on error neither list changes; the in-flight marker ends cleared |
| ListingForm.SubmitDraft | app/parking-lots/register/page.tsx:214-225 | the end of both registration pages' submit (the owner page's is lines 139-150): an insert error shows the form error and leaves the lots unchanged; a stored lot is appended for the signed-in user with the success message, keeping the earlier errors |
| ListingForm.EmptyFields | app/parking-lots/register/page.tsx:20-31 | a new form is empty except for the country "United States" |
| ListingForm.ValidateForm | app/parking-lots/register/page.tsx:50-96 | the error dictionary holds under every key the message `FieldError` gives, and it is empty exactly when the form is valid |
| ListingForm.CheckAddress | app/parking-lots/register/page.tsx:53-63 | street, state and zip code (and the city when required) get their message exactly when blank; no other key is set |
| ListingForm.CheckCoordinates | app/parking-lots/register/page.tsx:65-79 | both keys read "required" when either coordinate is blank; otherwise each gets its range message exactly when it is NaN or out of range; other keys are untouched |
| ListingForm.CheckInstructions | app/parking-lots/register/page.tsx:81-83 | instructions get their message exactly when blank; other keys are untouched |
| ListingForm.CheckPrice | app/parking-lots/register/page.tsx:85-92 | a blank price reads "required", a NaN or non-positive price reads "must be positive"; other keys are untouched |
| ListingForm.ChecksCompose | app/parking-lots/register/page.tsx:50-93 | the four checks run in sequence leave every key as `FieldError` says |
| ListingForm.NoKeysIffValid | app/parking-lots/register/page.tsx:95 | a dictionary agreeing with `FieldError` has no keys exactly when the form is valid |
| ListingForm.ValidIff | app/parking-lots/register/page.tsx:50-96 | valid exactly when street, state, zip code, instructions (and the city when required) are non-blank, the coordinates are non-blank and parse into [-90, 90] and [-180, 180], and the price is non-blank and parses to more than 0 |
| ListingForm.CityOnlyDifference | app/owner/parking-lot/register/page.tsx:54-56 | the owner page accepts exactly what the other page accepts, with a non-blank city |
| ListingForm.TrimAllAt | app/parking-lots/register/page.tsx:176 | `map(item => item.trim())` keeps the length and trims each item |
| ListingForm.AmenityTags | app/parking-lots/register/page.tsx:174-177 | every amenity is non-empty, trimmed and comma-free, and a text is an amenity exactly when it is a non-empty trimmed piece of the comma split |
| ListingForm.TrimmedPieces | app/parking-lots/register/page.tsx:175-176 | trimming comma-free pieces gives trimmed comma-free texts, each the trim of some piece |
| ListingForm.AmenitiesRoundTrip | app/parking-lots/register/page.tsx:174-177 | a list of non-empty, trimmed, comma-free tags joined with commas parses back to the same list, the empty list (an empty field) included |
| ListingForm.FilterKeepsAll | app/parking-lots/register/page.tsx:177 | `filter(Boolean)` on items that all pass returns them unchanged |
| ListingForm.SubmittedDraft | app/parking-lots/register/page.tsx:189-210 | the submitted lot is available, carries the typed address with the parsed coordinates, the parsed price, the parsed amenities, the instructions and the photo |
| ListingForm.ValidDraftIsSound | app/parking-lots/register/page.tsx:157-210 | whatever passes validation is submitted with coordinates in range, a positive price and non-blank required fields |
| RegisterPage.ImageProblem | app/parking-lots/register/page.tsx:101-115 | a file over 5 × 1024 × 1024 bytes is "too large"; otherwise a type not starting with `image/` is "not an image"; otherwise it is accepted; each of these holds both ways |
| RegisterPage.UploadPath | app/parking-lots/register/page.tsx:130-132 | the path is the user's folder ("undefined" without a user), a slash, the token, a dot and the extension; the extension has no dot and is what follows the last dot of the file name (the whole name when it has none) |
| RegisterPage.UploadPathSegments | app/parking-lots/register/page.tsx:130-132 | the path has exactly two segments: the user's id, then the token with the file's extension |
| RegisterPage.RegisterParkingLotPage.constructor | app/parking-lots/register/page.tsx:20-37 | the page starts with the empty form, no image, no errors and no message |
| RegisterPage.RegisterParkingLotPage.HandleImageChange | app/parking-lots/register/page.tsx:98-126 | no file changes nothing; a refused file records only its image error; an accepted file becomes the selection and clears the image error |
| RegisterPage.RegisterParkingLotPage.HandleSubmit | app/parking-lots/register/page.tsx:154-226 | an invalid form records its errors; no user gives only the login error; no image gives only the image error; the upload path follows `UploadPath`; a failed upload records the upload error; otherwise the submitted lot is `SubmittedDraft` with the photo URL and is available; a failed insert records the form error; a stored lot is appended and the success message shown |
| RegisterPage.RegisterParkingLotPage.Precheck | app/parking-lots/register/page.tsx:157-172 | the flow proceeds exactly when the form is valid, a user is signed in and an image is selected, and each refusal leaves its own error |
| RegisterPage.RegisterParkingLotPage.UploadAndSubmit | app/parking-lots/register/page.tsx:174-225 | the upload path, then the upload error or the submitted draft with the photo URL |
| OwnerRegisterPage.PhotoOf | app/owner/parking-lot/register/page.tsx:133 | an empty photo field sends no photo; anything else is sent as typed |
| OwnerRegisterPage.OwnerLotIsSound | app/owner/parking-lot/register/page.tsx:102-137 | a lot registered here has a city, is available, has in-range coordinates and a positive price, and carries the photo only when the field is non-empty |
| OwnerRegisterPage.OwnerRegisterPage.constructor | app/owner/parking-lot/register/page.tsx:19-34 | the page starts with the empty form, no photo URL, no errors and no message |
| OwnerRegisterPage.OwnerRegisterPage.HandleSubmit | app/owner/parking-lot/register/page.tsx:99-151 | an invalid form (city required) records its errors; no user gives only the login error; otherwise the submitted draft is `SubmittedDraft`; a failed insert shows the form error; a stored lot is appended and the success message shown |
| OwnerRegisterPage.OwnerRegisterPage.Precheck | app/owner/parking-lot/register/page.tsx:102-109 | the flow proceeds exactly when the form is valid with the city required and a user is signed in |
| OwnerRegisterPage.OwnerRegisterPage.SubmitValid | app/owner/parking-lot/register/page.tsx:111-150 | the amenities are parsed, the lot is built with `PhotoOf`, and the insert's answer decides the message |
| LocationSearch.LastMatchIsLast | app/components/ui/LocationSearch.tsx:85-106 | with no matching component the value is the initial one; otherwise it is read from a matching component after which no component matches |
| LocationSearch.ExtractAddress | app/components/ui/LocationSearch.tsx:77-106 | the loop leaves the six variables as `Extracted`: for each field, the value of the last matching component |
| LocationSearch.CountryDefault | app/components/ui/LocationSearch.tsx:82-105 | the country is "United States" unless some component is a country; then it is the last one's long name |
| LocationSearch.StateIsShortName | app/components/ui/LocationSearch.tsx:97-99 | the state is the short name of the last first-level administrative area, or empty |
| LocationSearch.CityFromLocalityOrPostalTown | app/components/ui/LocationSearch.tsx:94-96 | the city is the long name of the last `locality` or `postal_town` component, or empty |
| LocationSearch.StreetAddressParts | app/components/ui/LocationSearch.tsx:108 | with trimmed parts the joining space appears only between two non-empty parts; a missing part leaves the other alone |
| LocationSearch.SelectionAddressTrimmed | app/components/ui/LocationSearch.tsx:108-120 | the reported address never starts or ends with white space |
| LocationSearch.LocationSearchBox.constructor | app/components/ui/LocationSearch.tsx:26 | the box shows the default value |
| LocationSearch.LocationSearchBox.HandleChange | app/components/ui/LocationSearch.tsx:134 | the box shows what was typed |
| LocationSearch.LocationSearchBox.HandlePlaceSelect | app/components/ui/LocationSearch.tsx:69-124 | a place without geometry reports nothing and leaves the box; otherwise the extracted location is reported and the box shows its address |
| OwnerDashboard.DashboardView | app/owner/dashboard/page.tsx:44-92 | the sign-in prompt exactly without a user; owner content exactly for a user whose profile type is owner; the owners-only notice for every other user |
| OwnerDashboard.PendingBookingsExactly | app/owner/dashboard/page.tsx:95-99 | the list holds exactly the pending bookings of the owner's lots |
| OwnerDashboard.PendingBookingsInOrder | app/owner/dashboard/page.tsx:95-99 | each listed booking occurs as often as in the store, and the list keeps the store's order |
| OwnerDashboard.PendingHasLot | app/owner/dashboard/page.tsx:130-131 | every listed request finds its lot, so no card is skipped |
| OwnerDashboard.EndTimeOfRequest | app/owner/dashboard/page.tsx:140 | for a booking made by `requestBooking` the printed end is exactly the requested end |
| OwnerDashboard.IsLoading | app/owner/dashboard/page.tsx:160-168 | an id is loading exactly when its flag is set to true |
| OwnerDashboard.LoadingFlagsAroundCall | app/owner/dashboard/page.tsx:27-29 | during the call that id is loading and after it is not; other ids keep their flags |
| OwnerDashboard.DecidedLeavesPending | app/owner/dashboard/page.tsx:33-99 | after a confirm or decline the request leaves the pending list and nothing else joins or leaves it |
| OwnerDashboard.Dashboard.constructor | app/owner/dashboard/page.tsx:23 | no id is loading at first |
| OwnerDashboard.Dashboard.HandleAvailabilityToggle | app/owner/dashboard/page.tsx:26-30 | the flag of that id is on during the call and off after it; the store is asked for the negation of the current flag |
| OwnerDashboard.Dashboard.HandleConfirm | app/owner/dashboard/page.tsx:33-37 | the flag of that id is on during the call and off after it; the booking is confirmed on success |
| OwnerDashboard.Dashboard.HandleDecline | app/owner/dashboard/page.tsx:38-42 | the flag of that id is on during the call and off after it; the booking is cancelled on success |
| CreateGroupModal.FriendPickerLabel | app/components/modals/CreateLuckyGroupModal.tsx:82-91 | the picker has one option per friend; its button shows the placeholder when no listed friend is selected, and otherwise the count of selected options with the count text |
| CreateGroupModal.SubmitError | app/components/modals/CreateLuckyGroupModal.tsx:38-46 | a blank name is refused first; a non-blank name with an empty selection is refused next; otherwise nothing is refused; each both ways |
| CreateGroupModal.CreateLuckyGroupModal.constructor | app/components/modals/CreateLuckyGroupModal.tsx:29-32 | the modal starts with an empty name and selection, not submitting and no error |
| CreateGroupModal.CreateLuckyGroupModal.HandleNameChange | app/components/modals/CreateLuckyGroupModal.tsx:71 | the name is what was typed |
| CreateGroupModal.CreateLuckyGroupModal.HandleSelectChange | app/components/modals/CreateLuckyGroupModal.tsx:85 | a list becomes the selection; a single value becomes a one-element selection |
| CreateGroupModal.CreateLuckyGroupModal.HandleSubmit | app/components/modals/CreateLuckyGroupModal.tsx:34-57 | a refused form shows its message and calls nothing; otherwise the untrimmed name and the selection go to `onCreateGroup` while submitting; on success the error is empty and the modal closes after the call; on failure the failure message shows and the modal stays open; submitting is false afterwards |
| Select.MultipleSelectsListed | app/components/ui/Select.tsx:31-32 | in multiple mode the selection is exactly the options whose value is listed, in options order |
| Select.SingleSelectsFirst | app/components/ui/Select.tsx:33 | in single mode the choice is the first option with that value, or none |
| Select.SingleWithListSelectsNothing | app/components/ui/Select.tsx:33 | in single mode a list value selects nothing |
| Select.MultipleLabel | app/components/ui/Select.tsx:49-52 | in multiple mode the button shows the count text when some listed option exists, else the placeholder |
| Select.SingleLabel | app/components/ui/Select.tsx:53-55 | in single mode the button shows the first matching option's label, else the placeholder |
| Seqs.KeepFirstByKey | app/lucky-friends/page.tsx:178-180 | `filter((x, i, self) => i === self.findIndex(...))` keeps distinct keys, loses no key, keeps each element that is the first with its key, and keeps the order, so the keys come out in the order of their first occurrences |
| Seqs.MapWhere | app/providers/ParkingProvider.tsx:651-657 | `map(x => match ? change : x)` keeps length and order, changes exactly the matching elements |
| Seqs.Filter | app/owner/dashboard/page.tsx:95-99 | `filter` keeps exactly the passing elements, each as often as before, in order |
| Text.AfterLastDot | app/parking-lots/register/page.tsx:130 | `split('.').pop()` has no dot and is what follows the last dot, or the whole name without one |
| Text.JoinSplit | app/parking-lots/register/page.tsx:175 | joining the comma split back gives the original text |
| Text.SplitJoin | app/parking-lots/register/page.tsx:175 | splitting separator-free pieces joined by the separator gives the pieces back |
| Text.BlankIffAllSpace | app/parking-lots/register/page.tsx:53 | `!s.trim()` holds exactly when the text is white space only |
| Text.TrimIdempotent | app/components/ui/LocationSearch.tsx:108 | trimming twice is trimming once |
| Text.TrimCutsOnlySpace | app/components/ui/LocationSearch.tsx:108 | the trimmed text is a trimmed slice of the input |

## Left out

- Supabase queries, auth sessions and storage are not performed. Every answer is a parameter (`Outcome` or `Result`). The data the reads return (`fetchParkingLots`, `fetchBookings`, `fetchFriendsAndGroups`) is the state the classes are built with.
- The `lucky_groups`, `group_members` and `friendships` tables live as fields of the page classes. The database's generated ids are a counter (`nextRowId`) for member rows and a parameter for groups and bookings. A member id is a number rather than a uuid string.
- ParkingProvider.Store.AddParkingLot: the owner columns of the draft are ignored, since the insert takes the owner from the authenticated user. The address-missing guard (app/providers/ParkingProvider.tsx:170-172) is not modelled, because the draft's address is always present.
- ParkingProvider.Store.UpdateParkingLot: the row the database returns is taken to be the local lot with the payload applied, under the same owner.
- The standalone `confirmBooking`, `declineBooking` and `payBooking` functions (app/providers/ParkingProvider.tsx:459-526) are not modelled. The context exports the aliases at lines 678-680 instead, so the standalone functions are never reached.
- `processingId`, `isLoading` and `uploadProgress` spinners, and the image preview (`URL.createObjectURL`), are presentation only.
- `handleChange` on the registration forms is not modelled. It sets one field and blanks that field's error.
- The Fuse.js fuzzy matcher is a parameter (`matches` in `ShowResults`).
- Google Places script loading and the autocomplete widget (app/components/ui/LocationSearch.tsx:31-67) are not modelled. The selected place is the method's parameter.
- `Math.random().toString(36)` in the upload file name is a parameter (`token`).
- `toLocaleString` and `toFixed(2)` formatting, and IEEE rounding of price and duration, are not modelled. Reals are exact.
- OwnerDashboard.EndTimeOfRequest: stated with exact reals. Floating-point rounding of the hours and of `duration * 3600000` could move the printed end by a millisecond, and that is not modelled.
- CreateGroupModal.CreateLuckyGroupModal.HandleSubmit: `createFails` is free, but the lucky friends page passes a handler that catches every error (app/lucky-friends/page.tsx:328-330). So in the app a failed creation closes the modal with no message, and the failure branch is never reached there.
- CreateGroupModal.SubmitError: uses `IsBlank`, which `Text.BlankIffAllSpace` shows equals `trim() === ""`.
- Geolocation (`getLocation`), redirects and timers are not modelled.

## Findings

| source | as written | input that shows it | evidently intended | confidence | as-written member | corrected member |
|---|---|---|---|---|---|---|
| app/providers/ParkingProvider.tsx:441 | `ownerId: data.owners.id`, while the joined owner selects only `name` (lines 427-429), so the new booking's owner id is `undefined` | any successful `requestBooking`: the owner bookings filter `booking.ownerId === user?.id` (app/owner/bookings/page.tsx:31) then hides the new booking from the lot's owner | the booked lot's `owner_id`, as `getMyBookings` reads it (line 559) | medium, not executed | ParkingProvider.RequestedBookingAsWritten | ParkingProvider.RequestedBooking |
