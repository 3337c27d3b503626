# RentEase PG manager: a Dafny model of its deterministic logic

RentEase is a React and Supabase application for running a paying-guest
house. Most of it is screens over database queries. Mixed in with the
screens is some logic that can be stated exactly, and this project models
that logic and proves properties about it. It covers:

- **Electricity meters** (`MeterBilling`). A new reading is validated against
  the latest one. The model computes the units consumed since that reading
  and the bill returned by the tariff function. The panel's totals are sums
  over the fetched readings. The panel opens on whatever rows the meter
  has. When those rows form a newest-first ledger, readings added through
  the panel keep it ordered, and every row's consumption stays chained to
  the row before it. As a result, the "Total Consumption" card
  telescopes to the current reading minus the reading just below the
  fetched window.
- **Room edits** (`RoomEdit`). Occupancy counts active tenants. Free beds are
  `max(0, capacity - occupancy)`. The save button runs a guard chain of rent,
  then capacity, then occupancy. A changed rent needs confirmation first.
  Each changed field is logged as one audit-history row. Replaying those
  rows on the old values gives the new values. A history insert that fails
  leaves no row, and the source does not notice.
- **Rent statistics** (`RentStats`). The model covers the four money cards,
  the collection rate, the paid and overdue counts, and the search. Statuses
  are the strings stored on the records, and nothing here derives them from
  payments.
- **Upload checks** (`FileUpload`). Three checks run in order: size limit,
  six MIME types, and forbidden name characters.
- **List pages** (`AllTenants`, `PastTenants`, `TenantsPage`, `RoomsPage`,
  `ComplaintsPage`). The model covers case-insensitive substring search,
  ten-per-page paging with clamped Previous/Next, and badge mappings with
  their fall-backs. It also covers the status tallies, the retention rate,
  the length of a stay in months and days, and initials. The past-tenants
  page fetches tenants whose status is `checked_out`, which is not one of
  the values of the `tenant_status` enum (`active`, `notice_period`,
  `inactive`), so as far as the source shows that query returns no rows;
  the model covers what the page does with whatever rows it gets.
- **The payment form** (`PaymentEntry`). The model covers:
  - the form's first state;
  - the `YYYY-MM` to `YYYY-MM-01` month field and its round trip;
  - picking a tenant, which fills in the rent;
  - the row that submit inserts (defaults of 0 and `null`, and the signed-in
    owner);
  - the reset after a successful insert.

The shared modules model the JavaScript behaviour the pages rely on:

- `Text`: ASCII `toLowerCase`/`toUpperCase`, `includes`, `split`/`join`,
  initials, number-to-string and `slice(0, k)`.
- `Tally`: `filter`, `filter(...).length` and `Math.round(part / whole * 100)`.
- `Wrappers`: `null`, thrown errors and `parseFloat`/`parseInt` results.
- `Badges`: badge captions and colours.

Components that keep state are classes whose methods change their fields:
`MeterPanel`, `RoomEditor`, `TenantDirectory`, `PaymentDialog` and
`RoomsScreen`. Everything else is functions and lemmas.

Values from outside the code are parameters:

- The database is a sequence field or a parameter. Whether an insert or
  update succeeds is a boolean parameter.
- `calculate_electricity_bill` is a function parameter.
- `parseFloat` is a function parameter, or is given as an already-parsed
  value.
- Today's date is a parameter.
- Dates are integers. A meter reading date is a day number. Check-in and
  check-out are millisecond instants.

Two facts about the source shape the model:

- The reading-value input of the meter panel is a number field. Its value is
  empty or a number, and "Save Reading" is disabled while it is empty, so the
  value `AddReading` receives is a number.
- The page's first reading is not compared with the meter's starting
  reading. A first reading below the starting reading is accepted and
  records a negative consumption (`FirstReadingBelowStartIsAccepted`).

## Model

| member | source | states |
|---|---|---|
| MeterBilling.ValidateReading | src/components/MeterDetailsModal.tsx:73-95 | a reading is accepted iff its value is positive and, when a latest reading exists, neither its value nor its date is below that reading's; otherwise the error is the first failing check, value before last value before date |
| MeterBilling.UnitsConsumed | src/components/MeterDetailsModal.tsx:119-121 | units consumed plus the latest reading (or the starting reading when there is none) is the new value; non-negative when a latest reading exists and the value is not below it |
| MeterBilling.AcceptedReadingConsumesNonNegative | src/components/MeterDetailsModal.tsx:116-121 | a reading that passes validation against an existing latest reading consumes a non-negative number of units |
| MeterBilling.FirstReadingBelowStartIsAccepted | src/components/MeterDetailsModal.tsx:80-94 | with no readings yet, a value below the starting reading is accepted and consumes a negative number of units |
| MeterBilling.CalculateBill | src/components/MeterDetailsModal.tsx:97-109 | an RPC error or a null result bills 0; otherwise the bill is the RPC's answer |
| MeterBilling.NewRow | src/components/MeterDetailsModal.tsx:127-136 | the inserted row carries the typed value and date, the units consumed since the latest reading, the tariff's bill for those units and the recording user |
| MeterBilling.TotalsAppend | src/components/MeterDetailsModal.tsx:166-172 | both totals are 0 for no readings and add up over concatenated runs of readings |
| MeterBilling.TotalBill | src/components/MeterDetailsModal.tsx:170-172 | the bill total of readings whose bills are all non-negative is non-negative |
| MeterBilling.TotalConsumption | src/components/MeterDetailsModal.tsx:166-168 | the consumption total of readings that each consumed a non-negative number of units is non-negative |
| MeterBilling.Latest | src/components/MeterDetailsModal.tsx:53-58 | the fetched readings are a prefix of the newest-first rows, exactly ten when there are more than ten, all of them otherwise, and start with the newest row |
| MeterBilling.AcceptedReadingKeepsOrder | src/components/MeterDetailsModal.tsx:80-94 | prepending a reading that passes validation against the fetched readings keeps the rows ordered newest first by date and value |
| MeterBilling.AcceptedReadingKeepsChain | src/components/MeterDetailsModal.tsx:119-136 | prepending a row whose consumption is measured from the latest fetched reading keeps every row's consumption equal to its value minus the value below it |
| MeterBilling.ConsumptionTelescopes | src/components/MeterDetailsModal.tsx:166-168 | the consumption total of chained rows is the newest value minus the value the oldest row was measured from |
| MeterBilling.WindowConsumption | src/components/MeterDetailsModal.tsx:162-168 | the Total Consumption card equals the current reading minus the starting reading (at most ten rows) or minus the eleventh-newest reading |
| MeterBilling.CurrentIsLargest | src/components/MeterDetailsModal.tsx:162-164 | in a newest-first ledger the displayed current reading is at least every recorded value |
| MeterBilling.CurrentReading | src/components/MeterDetailsModal.tsx:162-164 | with no readings the current reading is the meter's starting reading; for newest-first readings it is at least every reading's value |
| MeterBilling.AcceptedReadingKeepsLedger | src/components/MeterDetailsModal.tsx:111-160 | an accepted reading, measured from the latest fetched row, keeps a ledger newest first and chained |
| MeterBilling.MeterPanel.constructor | src/components/MeterDetailsModal.tsx:34-58 | opening the panel on a meter with any stored rows shows the newest ten of them, an empty value, today's date and a closed form; a meter with no rows starts as a ledger |
| MeterBilling.MeterPanel.StartAdding | src/components/MeterDetailsModal.tsx:245 | "Add Reading" opens the form |
| MeterBilling.MeterPanel.CancelAdding | src/components/MeterDetailsModal.tsx:278 | "Cancel" closes the form |
| MeterBilling.MeterPanel.EditForm | src/components/MeterDetailsModal.tsx:256-272 | the inputs set the form's date and value |
| MeterBilling.MeterPanel.AddReading | src/components/MeterDetailsModal.tsx:111-160 | a rejected reading changes nothing; a failed insert changes nothing; a successful one prepends the new row, refetches the newest ten, resets the form to today and an empty value, and closes it; a store that was a newest-first, chained ledger stays one |
| RoomEdit.CurrentOccupancy | src/components/RoomEditDialog.tsx:43-44 | occupancy is the number of the room's tenants whose status is `active`, never more than the tenants |
| RoomEdit.OccupancyAppend | src/components/RoomEditDialog.tsx:43-44 | a further tenant adds one to the occupancy exactly when it is active |
| RoomEdit.AvailableBeds | src/components/RoomEditDialog.tsx:224 | free beds are never negative, at least capacity minus occupancy, and exactly that when capacity covers occupancy |
| RoomEdit.OccupancyScenario | src/components/RoomEditDialog.tsx:224 | two active tenants fill a capacity-2 room; with one inactive, one bed is free |
| RoomEdit.ValidateEdit | src/components/RoomEditDialog.tsx:61-87 | accepted iff rent is a positive number, capacity an integer of at least 1 and at least the occupancy; otherwise the first failing guard, rent before capacity before occupancy, is the error |
| RoomEdit.CapacityEqualToOccupancyAccepted | src/components/RoomEditDialog.tsx:80-87 | a capacity equal to the occupancy is accepted and leaves no bed free |
| RoomEdit.EditHistory | src/components/RoomEditDialog.tsx:111-133 | one row per changed field and no other rows, the rent row first: a rent row iff the rent changed and a capacity row iff the capacity changed, each with old and new value |
| RoomEdit.LoggedHistory | src/components/RoomEditDialog.tsx:111-133 | the rows that land are those of `EditHistory` whose insert succeeded: a rent row iff the rent changed and its insert succeeded, likewise for capacity, one row per such field with the rent row first, and all of `EditHistory` when both succeed |
| RoomEdit.EditHistoryReplays | src/components/RoomEditDialog.tsx:111-145 | replaying the logged rows on the old rent and capacity gives the new ones, and every row records a real change |
| RoomEdit.RoomEditor.constructor | src/components/RoomEditDialog.tsx:47-54 | opening the dialog pre-fills the inputs with the room's rent and capacity, with no confirmation open |
| RoomEdit.RoomEditor.EditInputs | src/components/RoomEditDialog.tsx:207-218 | typing sets the rent and capacity inputs |
| RoomEdit.RoomEditor.UpdateRoom | src/components/RoomEditDialog.tsx:105-162 | the history rows whose inserts succeed are appended whatever the update does, a failed insert leaving no row; a successful update sets both fields and closes the confirmation, a failed one leaves the room and the confirmation as they were |
| RoomEdit.RoomEditor.HandleSave | src/components/RoomEditDialog.tsx:56-103 | invalid input is rejected with the first failing guard and nothing written; valid input with a new rent only opens the confirmation; valid input with the same rent updates at once, logging a capacity row only when the capacity changed and its insert succeeded |
| RoomEdit.RoomEditor.ConfirmRentChange | src/components/RoomEditDialog.tsx:164-168 | confirming updates the room with the form's values and logs the rows whose inserts succeed, the rent row among them when its insert succeeds; on success the capacity covers the occupancy; the alert dialog's action closes the confirmation whether or not the update succeeds |
| RoomEdit.RoomEditor.CancelConfirmation | src/components/RoomEditDialog.tsx:257 | cancelling closes the confirmation without writing anything |
| RentStats.FilteredRecords | src/pages/Rent.tsx:64-67 | a record is listed iff its tenant or room contains the search term, ignoring case |
| RentStats.EmptySearchKeepsAll | src/pages/Rent.tsx:64-67 | an empty search lists every record, in order |
| RentStats.SearchKeepsOrder | src/pages/Rent.tsx:64-67 | the search of two runs of records is the search of the first followed by the second |
| RentStats.TotalSplits | src/pages/Rent.tsx:69-74 | the total rent is collected plus pending plus overdue plus the amounts the cards leave out |
| RentStats.UnshownNonNegative | src/pages/Rent.tsx:69-74 | with non-negative amounts the left-out part is non-negative, and zero iff every record is fully shown or owes nothing |
| RentStats.CardsWithinTotal | src/pages/Rent.tsx:69-74 | with non-negative amounts and fees, collected + pending + overdue ≤ total, with equality when every record is paid without late fee, pending or overdue |
| RentStats.Collected | src/pages/Rent.tsx:71 | with no paid record nothing is collected; with non-negative amounts the collected sum lies between 0 and the total |
| RentStats.TotalRent | src/pages/Rent.tsx:70 | with non-negative amounts and fees the total rent is non-negative |
| RentStats.DueWithStatus | src/pages/Rent.tsx:72-73 | with no record of the status the card is 0; with non-negative amounts and fees it is non-negative |
| RentStats.ComputeStats | src/pages/Rent.tsx:69-74 | the total card is the collected, pending and overdue cards plus the amounts they leave out, and collected is the paid records' amounts |
| RentStats.CollectionRate | src/pages/Rent.tsx:257 | the rate is the whole percentage nearest to collected / total, halves rounded up |
| RentStats.CollectionRateBounds | src/pages/Rent.tsx:257 | with non-negative amounts the rate lies between 0 and 100 |
| RentStats.PaidAndOverdueCounts | src/pages/Rent.tsx:265-273 | the paid and overdue counts together never exceed the number of records |
| RentStats.MockRecordsStats | src/pages/Rent.tsx:17-74 | on the page's records the cards read 43300, 20000, 15100 and 8200 and the rate is 46% |
| FileUpload.ValidateFileUpload | src/components/FileUploadSecurity.tsx:34-55 | a file is accepted iff its size is within the limit, its type is one of the six and its name has no forbidden character; the first failing check, size before type before name, is the error |
| FileUpload.DefaultLimitIsInclusive | src/components/FileUploadSecurity.tsx:34-39 | under the default 10 MB limit, exactly 10485760 bytes is accepted and one byte more is refused for size |
| FileUpload.SixDistinctTypes | src/components/FileUploadSecurity.tsx:41-50 | the allow-list holds exactly six distinct types and excludes executables |
| FileUpload.PathInNameRefused | src/components/FileUploadSecurity.tsx:52-54 | a name containing a path separator is refused though size and type pass; a plain name is accepted |
| AllTenants.FilteredTenants | src/pages/AllTenants.tsx:54-59 | a tenant is listed iff name, phone, email or (when it has a non-empty room number) room number contains the term, ignoring case |
| AllTenants.NoRoomNoRoomMatch | src/pages/AllTenants.tsx:58 | a tenant without a room is matched only through name, phone or email |
| AllTenants.EmptySearchKeepsAll | src/pages/AllTenants.tsx:54-59 | an empty search lists every tenant, in order |
| AllTenants.SearchKeepsOrder | src/pages/AllTenants.tsx:54-59 | the search keeps the fetched order |
| AllTenants.TotalPages | src/pages/AllTenants.tsx:61 | the page count is the fewest pages of ten holding the list, zero only for an empty list |
| AllTenants.PageSlice | src/pages/AllTenants.tsx:62-63 | page p holds at most ten entries, the entries from position (p−1)·10 on, ten of them before the last page, and is empty exactly when p is past the last page |
| AllTenants.PagesFromSuffix | src/pages/AllTenants.tsx:61-63 | the pages from any page that starts inside the list onwards hold exactly the rest of the list |
| AllTenants.PagesCoverList | src/pages/AllTenants.tsx:61-63 | pages 1 to the page count, one after another, are exactly the filtered list |
| AllTenants.StatusBadge | src/pages/AllTenants.tsx:65-76 | active is "Active" in success colours, inactive "Inactive" muted, notice_period "Notice Period" in warning colours, and any other status is shown as it is on a muted badge; the caption is the raw status exactly for those other statuses |
| AllTenants.TenantDirectory.CurrentTenants | src/pages/AllTenants.tsx:62-63 | the current page shows at most ten matching tenants and is empty ("No tenants found") exactly when the page is past the last |
| AllTenants.TenantDirectory.constructor | src/pages/AllTenants.tsx:15-19 | the page starts on page 1 with an empty search that lists every fetched tenant |
| AllTenants.TenantDirectory.SetSearchTerm | src/pages/AllTenants.tsx:109 | typing changes the term but not the page, which can then lie past the last page and show nothing |
| AllTenants.TenantDirectory.Previous | src/pages/AllTenants.tsx:159 | Previous goes back one page but never below 1, and does not leave the valid range |
| AllTenants.TenantDirectory.Next | src/pages/AllTenants.tsx:154-175 | with the controls shown, Next goes forward one page but never past the last; from past the last it lands on the last, which is non-empty |
| PastTenants.FilteredTenants | src/pages/PastTenants.tsx:75-78 | a past tenant is listed iff name or room number contains the term, ignoring case |
| PastTenants.EmptySearchKeepsAll | src/pages/PastTenants.tsx:75-78 | an empty search lists everyone, in order |
| PastTenants.SearchKeepsOrder | src/pages/PastTenants.tsx:75-78 | the search keeps the latest-check-out-first order |
| PastTenants.StayDays | src/pages/PastTenants.tsx:80-84 | the stay is the fewest whole days covering the time between check-in and check-out, zero only for the same instant |
| PastTenants.StaySymmetric | src/pages/PastTenants.tsx:83 | swapping check-in and check-out gives the same stay |
| PastTenants.PartialDayRoundsUp | src/pages/PastTenants.tsx:84 | whole days count as themselves and one millisecond more counts a further day |
| PastTenants.DaysOf | src/pages/PastTenants.tsx:86 | the leftover days are fewer than 30 |
| PastTenants.MonthsAndDaysRecombine | src/pages/PastTenants.tsx:85-86 | months × 30 + days is the stay, and months is 0 iff the stay is under 30 days |
| PastTenants.StayLabel | src/pages/PastTenants.tsx:86-87 | a stay of a month or more reads "<months>m <days>d" and a shorter one "<days> days", with the months and days of `MonthsOf`/`DaysOf`; the label opens with a digit and ends in "s" exactly when the stay is under a month |
| PastTenants.LabelLeadingNumber | src/pages/PastTenants.tsx:80-88 | the number the label opens with reads back as the months of the stay, or its days when it is under a month |
| PastTenants.LabelDaysPart | src/pages/PastTenants.tsx:87 | in the "<m>m <d>d" form the month number is followed by "m ", the number after it reads back as the days of the stay, and the label ends in "d" |
| PastTenants.DepositBadge | src/pages/PastTenants.tsx:94-105 | full, partial and none get their own caption and colour; any other value, null included, and only those, is an outline "Pending" |
| PastTenants.InitialsSkipEmptyWords | src/pages/PastTenants.tsx:90-92 | a double space adds no initial: "amit  kumar" gives "AK" |
| PaymentEntry.MonthShown | src/components/PaymentEntryDialog.tsx:173 | the month input shows a prefix of the stored month of at most seven characters |
| PaymentEntry.MonthValue | src/components/PaymentEntryDialog.tsx:174 | a picked `YYYY-MM` becomes a ten-character date ending in "-01" that the input shows back as the picked month |
| PaymentEntry.MonthRoundTrip | src/components/PaymentEntryDialog.tsx:173-174 | a seven-character month the user picks is shown back unchanged |
| PaymentEntry.StoredMonthRoundTrip | src/components/PaymentEntryDialog.tsx:173-174 | a stored first-of-month date is rebuilt exactly from what the input shows |
| PaymentEntry.InitialForm | src/components/PaymentEntryDialog.tsx:33-42 | the form starts with today's date, the current month's first day as the payment month, and every other field empty |
| PaymentEntry.WithField | src/components/PaymentEntryDialog.tsx:163-233 | an input sets its own field to the typed text and leaves every other field as it was |
| PaymentEntry.FindTenant | src/components/PaymentEntryDialog.tsx:77 | nothing is found iff no tenant has the id; a found tenant is in the list and has the id |
| PaymentEntry.FindTenantFirst | src/components/PaymentEntryDialog.tsx:77 | the tenant found is the first one with the id |
| PaymentEntry.RentFor | src/components/PaymentEntryDialog.tsx:78-82 | the rent text is empty iff the id is unknown; otherwise it is decimal digits that read back as the tenant's room rent |
| PaymentEntry.BuildInsert | src/components/PaymentEntryDialog.tsx:91-103 | the row copies the text fields, parses the rent, turns an empty deposit or other charge into 0 and parses a non-empty one, stores null remarks iff the remarks are empty, and is owned by the given user |
| PaymentEntry.RemarksRoundTrip | src/components/PaymentEntryDialog.tsx:102 | reading a null remark back as empty text gives the form's remarks |
| PaymentEntry.PaymentDialog.constructor | src/components/PaymentEntryDialog.tsx:33-42 | the dialog starts from the initial form with no payments |
| PaymentEntry.PaymentDialog.SelectTenant | src/components/PaymentEntryDialog.tsx:76-83 | picking a tenant sets only the tenant id and the rent text, which is empty iff the id is unknown |
| PaymentEntry.PaymentDialog.PickMonth | src/components/PaymentEntryDialog.tsx:174 | picking a month stores its first day and the input then shows the month picked |
| PaymentEntry.PaymentDialog.TypeInto | src/components/PaymentEntryDialog.tsx:163-233 | typing into a plain input updates that field only |
| PaymentEntry.PaymentDialog.Submit | src/components/PaymentEntryDialog.tsx:85-126 | with no user nothing happens; a successful insert stores the row built from the form, owned by the user, and resets the form to today's initial form; a failed insert changes nothing |
| TenantsPage.FilteredTenants | src/pages/Tenants.tsx:76-80 | a tenant is listed iff name, email or room contains the term, ignoring case |
| TenantsPage.EmptySearchKeepsAll | src/pages/Tenants.tsx:76-80 | an empty search lists every tenant, in order |
| TenantsPage.SearchKeepsOrder | src/pages/Tenants.tsx:76-80 | the search keeps list order |
| TenantsPage.StatusBadge | src/pages/Tenants.tsx:82-93 | active is "Active" in success colours, notice_period "Notice Period" in warning colours, inactive "Inactive" outlined, and any other status is shown as it is on an outlined badge; the caption is the raw status exactly for those other statuses |
| TenantsPage.StatusCountsWithinTotal | src/pages/Tenants.tsx:304-320 | active plus notice-period counts is the count of either and never exceeds the tenants |
| TenantsPage.RetentionRate | src/pages/Tenants.tsx:328 | the rate is the whole percentage nearest to active / total, halves rounded up |
| TenantsPage.RetentionRateBounds | src/pages/Tenants.tsx:328 | the rate lies between 0 and 100, is 100 when all are active and 0 when none is |
| TenantsPage.MockTenantsCards | src/pages/Tenants.tsx:25-74 | on the page's tenants 3 are active, 1 on notice, and the retention rate is 75% |
| TenantsPage.MockTenantInitials | src/pages/Tenants.tsx:95-97 | "Rahul Sharma" gives the initials "RS" |
| RoomsPage.FilteredRooms | src/pages/Rooms.tsx:93-97 | a room is listed iff number, type or (when present and non-empty) tenant contains the term, ignoring case |
| RoomsPage.EmptyRoomMatchesOnRoomOnly | src/pages/Rooms.tsx:96 | a room without a tenant is matched only by number or type |
| RoomsPage.EmptySearchKeepsAll | src/pages/Rooms.tsx:93-97 | an empty search lists every room, in order |
| RoomsPage.SearchKeepsOrder | src/pages/Rooms.tsx:93-97 | the search keeps list order |
| RoomsPage.StatusBadge | src/pages/Rooms.tsx:99-104 | "Occupied" exactly for status occupied, "Vacant" for every other status |
| RoomsPage.TenantPanelOnlyWhenOccupied | src/pages/Rooms.tsx:257 | the tenant panel is shown only under an "Occupied" badge and never for a room without a tenant |
| RoomsPage.ShowsTenantPanel | src/pages/Rooms.tsx:257 | the tenant panel is drawn only for a room with a tenant, under an "Occupied" badge |
| RoomsPage.CountsWithinTotal | src/pages/Rooms.tsx:286-302 | the occupied and vacant counts never add up to more than the rooms |
| RoomsPage.VacantCardWithinVacantBadges | src/pages/Rooms.tsx:99-104 | the Vacant card counts no more rooms than carry a "Vacant" badge |
| RoomsPage.UnknownStatusBadgedButNotCounted | src/integrations/supabase/types.ts:358 | an `under_maintenance` room is badged "Vacant" but not counted as vacant |
| RoomsPage.RoomsScreen.constructor | src/pages/Rooms.tsx:20-27 | the page starts with an empty form and a closed dialog |
| RoomsPage.RoomsScreen.SetAddDialogOpen | src/pages/Rooms.tsx:114 | the trigger and close controls set whether the dialog is open |
| RoomsPage.RoomsScreen.EditNewRoom | src/pages/Rooms.tsx:136-180 | typing sets the new room form |
| RoomsPage.RoomsScreen.HandleAddRoom | src/pages/Rooms.tsx:106-111 | adding resets the form to four empty fields and closes the dialog; the room list is unchanged |
| ComplaintsPage.FilteredComplaints | src/pages/Complaints.tsx:61-65 | a complaint is listed iff tenant, room or issue contains the term, ignoring case |
| ComplaintsPage.EmptySearchKeepsAll | src/pages/Complaints.tsx:61-65 | an empty search lists every complaint, in order |
| ComplaintsPage.SearchKeepsOrder | src/pages/Complaints.tsx:61-65 | the search keeps list order |
| ComplaintsPage.StatusBadge | src/pages/Complaints.tsx:67-78 | open, in-progress and resolved get fixed captions and colours; exactly the other statuses are shown raw on a plain badge |
| ComplaintsPage.PriorityBadge | src/pages/Complaints.tsx:80-91 | high, medium and low get fixed captions and variants; exactly the other priorities are shown raw on a plain badge |
| ComplaintsPage.IconFor | src/pages/Complaints.tsx:93-104 | the icon is uncoloured exactly for unknown statuses, is the alert shape for open and unknown statuses, and otherwise shares the badge's colour |
| ComplaintsPage.DatabaseSpellingNotRecognised | src/integrations/supabase/types.ts:357 | a complaint stored with the database's `in_progress` gets the raw badge and the plain alert icon |
| ComplaintsPage.CountsWithinTotal | src/pages/Complaints.tsx:210-234 | open + in progress + resolved is the count of complaints with a recognised status and never exceeds the total |
| Text.ToLower | src/pages/Rent.tsx:65-66 | lower-casing keeps the length, leaves no upper-case ASCII letter, shifts each upper-case letter by 32 and keeps every other character |
| Text.ToUpper | src/pages/Tenants.tsx:96 | upper-casing keeps the length, leaves no lower-case ASCII letter, shifts each lower-case letter by 32 and keeps every other character |
| Text.ToLowerForgetsCase | src/pages/Rent.tsx:65-66 | lower-casing an upper-cased string is lower-casing the original |
| Text.IncludesIffOccurs | src/pages/Rent.tsx:65-66 | `includes` holds iff the needle occurs at some position of the haystack |
| Text.Includes | src/pages/Rent.tsx:65-66 | a needle longer than the haystack is never included |
| Text.MatchesTerm | src/pages/Rent.tsx:65-66 | a term longer than the field never matches it |
| Text.MatchesTermIgnoresCase | src/pages/Rent.tsx:65-66 | a search matches the same records whatever the case of the term |
| Text.MatchesEmptyTerm | src/pages/Rent.tsx:65-66 | the empty term matches every field |
| Text.SplitJoin | src/pages/Tenants.tsx:96 | joining the pieces of a split gives the string back |
| Text.SplitPiecesAvoidSeparator | src/pages/Tenants.tsx:96 | no piece of a split holds the separator |
| Text.SplitCount | src/pages/Tenants.tsx:96 | a split has one piece more than there are separators, empty pieces included |
| Text.JoinSplit | src/pages/Tenants.tsx:96 | splitting words joined by single spaces gives the words back |
| Text.Split | src/pages/Tenants.tsx:96 | a split always has at least one piece, as `split` of the empty string is `[""]` |
| Text.Join | src/pages/Tenants.tsx:96 | the joined text starts with the first piece, followed by the separator when there are more pieces, and has at least one separator between pieces |
| Text.Initials | src/pages/Tenants.tsx:95-97 | the initials hold at most one character per word and no lower-case letter |
| Text.InitialsHaveNoSpace | src/pages/PastTenants.tsx:90-92 | initials never contain a space |
| Text.InitialsOfWords | src/pages/Tenants.tsx:95-97 | the initials of space-joined words are the upper-cased first characters of the non-empty words |
| Text.NatToStringRoundTrip | src/components/PaymentEntryDialog.tsx:81 | the decimal text of a rent reads back as the rent |
| Text.NatToString | src/components/PaymentEntryDialog.tsx:81 | the rendering is a non-empty run of decimal digits with no leading zero except for 0 itself |
| Text.Take | src/components/PaymentEntryDialog.tsx:36 | `slice(0, k)` is a prefix of length k, or the whole string when shorter |
| Tally.Filter | src/pages/Rent.tsx:64-67 | filtering keeps exactly the elements satisfying the predicate and never lengthens the list |
| Tally.FilterAppend | src/pages/Rent.tsx:64-67 | filtering two runs is filtering each, one after the other |
| Tally.CountDisjoint | src/pages/Rent.tsx:265-273 | counts of two exclusive predicates add to the count of their disjunction and never exceed the list |
| Tally.Count | src/pages/Rent.tsx:265-273 | a count never exceeds the length of the list |
| Tally.RoundedPercent | src/pages/Rent.tsx:257 | the result is the integer nearest to 100 · part / whole, halves rounded up |
| Tally.PercentBounds | src/pages/Rent.tsx:257 | a part between 0 and the whole gives a percentage between 0 and 100 |
| Tally.PercentEnds | src/pages/Tenants.tsx:328 | the whole is 100% and nothing is 0% |

## Left out

- Supabase reads, inserts, updates and the `calculate_electricity_bill` RPC are network I/O. They become stored sequences, success flags and a function parameter.
- The tiered electricity tariff lives in a database function that is not part of this model. The bill is whatever the tariff parameter answers.
- Fetch failures and the list of readings going stale are left out. So is the race between validating a reading and inserting it, which is a concurrency concern.
- Date parsing and formatting (`new Date`, `format`, `toISOString`, `toLocaleDateString`) are left out. Dates are integers. An unparsable date (an emptied date input, which `new Date` turns into an invalid date that no comparison rejects) is not modelled.
- Order among readings with the same date is not modelled. The model keeps the store newest first, which is the fetch order up to ties.
- `parseFloat` and `parseInt` are not modelled character by character. They are parameters or already-parsed values, with NaN as a constructor.
- Floating point is not modelled. Amounts are exact integers or reals, and `Math.round` is computed exactly over rationals.
- `toLowerCase`/`toUpperCase` are modelled for ASCII letters only. Other characters are left as they are, with no Unicode case mapping.
- PaymentEntry.RentFor: renders whole-rupee rents only, because decimal `toString` output is not modelled.
- RoomEdit.EditHistory: the history stores numbers, not the `toString` text the source writes.
- MeterBilling.MeterPanel.AddReading: the ordered, chained ledger is promised only for a store that already was one. Rows written to `meter_readings` elsewhere are not checked by the source either.
- RoomEdit.RoomEditor.ConfirmRentChange: the confirmation closing on "Continue" follows the alert dialog's action button, which closes its dialog on click. The dialog library is not part of this model.
- A payments-to-status reconciliation is not in the code. Rent statuses stay the strings stored on the records.
- `getStatusBadge` of src/pages/Rent.tsx is presentation only and is not part of this model.
- Toasts, loading flags, dialog open/close flags other than those named above, and JSX rendering are UI and are left out.
- A zero total in the collection and retention rates, which the page would render as `NaN%`, is not modelled: both rates are computed over the pages' constant, non-empty data.
- src/pages/Dashboard.tsx, Index.tsx, Login.tsx, src/components/Header.tsx, StatsCard.tsx and src/App.tsx hold no logic and are not part of this model.
