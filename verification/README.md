# Resort IoT: facility booking and dashboard logic in Dafny

This project models the decision logic of a resort's web application and its
HTTP server, and proves properties of it. The core is the hourly sauna and
laundry-room booking. The grid of one-hour slots is generated for a day or a
week. The stored bookings are overlaid on the grid: a slot shows "booked",
or "my-reservation" for the signed-in user. A click on a slot becomes at
most one store command: reject, create or delete. The smaller parts modelled
alongside it are:

- the LED and relay status endpoints;
- the weather-code tables, the UV bands and the forecast location;
- the image-upload checks;
- the client's room-booking page;
- the dashboard's facility report and booking analysis;
- the dashboard's event form;
- the TV weather panel;
- the dashboard's indoor/outdoor chart.

Modules:

- `Options`, `Calendar`, `Seqs` (common.dfy): optional values, and JavaScript
  truthiness for strings. Also millisecond instants, whole local days,
  Sunday week starts, and order-preserving `filter`/`slice`/`split`.
- `Slots` (slots.dfy): the records shared by both facilities. It holds
  `updateSlotStatus` (`Reconcile`) and `handleSlotClick` (`Click`, with the
  two-hour cutoff), plus the create and cancel round trips.
- `Sauna` (sauna.dfy): the 14-slot day and the 98-slot week, and the
  optimistic toggle the sauna handler applies.
- `Laundry` (laundry.dfy): a washer and a dryer slot per hour (28 a day, 196
  a week), the per-machine `facilities` flags, and the slot styling.
- `Server` (server.dfy): the pure parts of server.mjs.
- `RoomBooking`, `FacilityReport`, `BookingAnalysis`, `Events`,
  `WeatherSection`, `IndoorChart`: one module per component.

Time is a parameter (`now`), never read from a clock. Store calls are
modelled as the command they would send, or as a list of stored records
passed in. Popups are modelled as outcomes or flags.

## Model

| member | source | states |
|---|---|---|
| Options.OrElse | src/components/dashboard/reports/facilityReport.jsx:82-85 | `a \|\| b` on an optional string yields the value when it is present and non-empty, else the fallback |
| Calendar.StartOfWeek | src/components/clientpage/sauna/sauna.jsx:16 | the week start is the Sunday on or before the day, less than seven days earlier |
| Slots.FirstMatch | src/components/clientpage/sauna/sauna.jsx:53-62 | the booking `find` picks the first booking that matches the slot, and none exactly when no booking matches |
| Slots.Reconcile | src/components/clientpage/laundry/laundry.jsx:49-79 | every slot keeps its id and times; a slot no booking matches is unchanged; a matched slot is booked, titled "my-reservation" exactly when the first matching booking's uid is the user's |
| Slots.FindSlot | src/components/clientpage/laundry/laundry.jsx:140 | the first grid slot with the clicked id, or none exactly when no slot has it |
| Slots.Click | src/components/clientpage/laundry/laundry.jsx:125-195 | rejected exactly when the slot starts less than two hours from now; an unknown id sends nothing; a create is for an available grid slot of that id; a delete names a booking matching a booked grid slot and carries the current user's uid |
| Slots.CutoffBoundary | src/components/clientpage/sauna/sauna.jsx:127-138 | a slot exactly two hours ahead can be clicked; one a millisecond sooner is rejected |
| Slots.AvailableClickCreates | src/components/clientpage/sauna/sauna.jsx:153-166 | clicking an available slot creates exactly the booking for its period and user |
| Slots.BookedClickDeletesFirstMatch | src/components/clientpage/sauna/sauna.jsx:167-189 | clicking a booked slot deletes the first matching booking, whoever owns it, or does nothing when none matches |
| Slots.RequestMatchesItsSlot | src/components/clientpage/laundry/laundry.jsx:143-158 | the stored booking of a created request matches the slot it was made for |
| Slots.CreateThenReconcileIsMine | src/components/clientpage/laundry/laundry.jsx:143-158 | after a create is stored, reconciling the same grid shows the slot as the user's reservation |
| Slots.SameIdsSameFind | src/components/clientpage/laundry/laundry.jsx:140 | two grids with the same ids position by position find a clicked id at the same position |
| Slots.FirstMatchSameSlot | src/components/clientpage/laundry/laundry.jsx:159-166 | two slots that every booking matches alike get the same first matching booking |
| Slots.RemoveOnlyMatch | src/components/clientpage/laundry/laundry.jsx:159-193 | once the only booking matching a slot is removed, no booking matches it |
| Slots.ClickDeleteNames | src/components/clientpage/laundry/laundry.jsx:159-182 | a delete names the first booking matching the grid slot the click found, with the user's uid |
| Slots.ReconciledDelete | src/components/clientpage/laundry/laundry.jsx:159-182 | a delete sent from a reconciled grid names the first booking matching the slot as generated |
| Slots.DeleteThenReconcileFrees | src/components/clientpage/laundry/laundry.jsx:159-193 | when a click on a reconciled grid deletes, the command is the delete of booking `j`, the only booking matching the slot; once it is removed, reconciling shows the slot as generated |
| Slots.OrderedIdsDistinct | src/components/clientpage/sauna/sauna.jsx:14-32 | in a fresh grid ordered without overlap, no two slots share an id |
| Sauna.DailySlots | src/components/clientpage/sauna/sauna.jsx:34-49 | fourteen available one-hour slots, position `i` being hour `8 + i` of the day |
| Sauna.DaysFrom | src/components/clientpage/sauna/sauna.jsx:17-30 | `n` days give `14 n` fresh slots, each for an opening hour of one of those days |
| Sauna.DaysOrdered | src/components/clientpage/sauna/sauna.jsx:17-30 | the generated days are in time order and no two slots overlap |
| Sauna.DaysComplete | src/components/clientpage/sauna/sauna.jsx:17-30 | every opening hour of every generated day has its slot |
| Sauna.DaysGrid | src/components/clientpage/sauna/sauna.jsx:17-30 | the slots of `n` days from a given day are fresh, ordered and duplicate-free, and hold exactly hours 8 to 21 of those days |
| Sauna.WeeklySlots | src/components/clientpage/sauna/sauna.jsx:14-32 | 98 slots, fresh, ordered and duplicate-free, holding exactly hours 8 to 21 of the seven days from the Sunday of the week |
| Sauna.DailyGrid | src/components/clientpage/sauna/sauna.jsx:34-49 | the daily grid is fresh and ordered, with ids for hours 8 to 21 of that day |
| Sauna.Toggle | src/components/clientpage/sauna/sauna.jsx:140-151 | only the clicked slot changes; it keeps id and times; it becomes booked and "my-reservation" exactly when it was available, and otherwise available and "available" |
| Sauna.ToggleKeepsPosition | src/components/clientpage/sauna/sauna.jsx:140-153 | the clicked id is found at the same position before and after the toggle |
| Sauna.SaunaClick | src/components/clientpage/sauna/sauna.jsx:126-191 | the sauna handler itself, on the toggled grid: rejected exactly within two hours; an unknown id sends nothing |
| Sauna.SaunaMatchIsPeriod | src/components/clientpage/sauna/sauna.jsx:53-62 | for a sauna slot, the shared match is equality of booking period, and a new booking carries no machine flags |
| Sauna.SaunaClickIsClick | src/components/clientpage/sauna/sauna.jsx:126-191 | the sauna handler sends the same command as the shared click model for every input |
| Sauna.ToggleDecidesCommand | src/components/clientpage/sauna/sauna.jsx:140-189 | outside the cutoff, the toggled slot reads booked exactly when the shared click model creates a booking |
| Laundry.DailySlots | src/components/clientpage/laundry/laundry.jsx:22-45 | 28 available one-hour slots; position `i` is hour `8 + i / 2`, the washer at even positions and the dryer at odd ones |
| Laundry.DaysFrom | src/components/clientpage/laundry/laundry.jsx:14-47 | `n` days give `28 n` fresh slots, each for an opening hour of one of those days |
| Laundry.DaysOrdered | src/components/clientpage/laundry/laundry.jsx:22-45 | the generated days are ordered by start, with no overlap between same-machine slots |
| Laundry.DayHas | src/components/clientpage/laundry/laundry.jsx:22-45 | each machine-hour of a day is at its predicted position |
| Laundry.DaysComplete | src/components/clientpage/laundry/laundry.jsx:14-47 | every machine-hour of every generated day has its slot |
| Laundry.DaysGrid | src/components/clientpage/laundry/laundry.jsx:14-47 | the slots of `n` days are fresh, ordered and duplicate-free, and hold exactly a washer and a dryer slot for every opening hour of those days |
| Laundry.GenerateSlots | src/components/clientpage/laundry/laundry.jsx:14-47 | 28 slots for the daily view and 196 for the weekly one, fresh, ordered, duplicate-free, holding exactly the machine-hours of the day or of the week from Sunday |
| Laundry.DailyPair | src/components/clientpage/laundry/laundry.jsx:26-43 | each hour's washer slot is followed by that hour's dryer slot |
| Laundry.WasherThenDryer | src/components/clientpage/laundry/laundry.jsx:26-43 | across any number of days, each even position is a washer immediately followed by its dryer twin at the same times |
| Laundry.WasherBookingSparesDryer | src/components/clientpage/laundry/laundry.jsx:58-66 | a washer-only booking marks the washer slot and leaves the dryer slot of that hour unchanged |
| Laundry.NoFacilitiesNoMatch | src/components/clientpage/laundry/laundry.jsx:58-66 | a booking without `facilities` matches no laundry slot |
| Laundry.CreatedBookingFlags | src/components/clientpage/laundry/laundry.jsx:143-158 | a created laundry booking flags only the clicked machine, so it occupies that slot and not its twin |
| Laundry.Appearance | src/components/clientpage/laundry/laundry.jsx:201-224 | a slot is drawn past and unclickable exactly when locked; otherwise its class is "my-reservation" or "booked" by title and status |
| Laundry.AppearanceAgreesWithClick | src/components/clientpage/laundry/laundry.jsx:201-224 | a slot can be clicked exactly when the handler does not reject it |
| Server.Encode | src/server/server.mjs:89 | "on" is stored as 1 and "off" as 0 |
| Server.Decode | src/server/server.mjs:254 | a stored 1 reads back as on; every other value reads back as off |
| Server.UpdateStatus | src/server/server.mjs:80-99 | a 400 reply exactly when the status is not "on" or "off"; otherwise the encoded state is written |
| Server.ReadStatus | src/server/server.mjs:227-262 | a 404 reply exactly when no point exists; otherwise "on" exactly when the newest value is 1 |
| Server.DecodeEncode | src/server/server.mjs:89 | decoding undoes encoding |
| Server.UpdateThenRead | src/server/server.mjs:497-559 | reading back after an update returns the string that was sent |
| Server.WeatherType | src/server/server.mjs:765-793 | a code is labelled "Unknown" exactly when it is not one of the 23 listed codes |
| Server.RainProb | src/server/server.mjs:735-763 | "Unknown" exactly for unlisted codes; every listed code gets a percentage from 0 to 100 |
| Server.SnowProb | src/server/server.mjs:704-733 | "Unknown" exactly for unlisted codes; every listed code gets a percentage from 0 to 100 |
| Server.TablesShareDomain | src/server/server.mjs:704-793 | the three tables know the same codes, and code 0 is unknown to all of them |
| Server.DryCodesNoSnow | src/server/server.mjs:704-763 | the clear, cloudy and fog codes give 0% snow and at most 20% rain |
| Server.UvType | src/server/server.mjs:795-801 | the band's rank is the number of thresholds 2, 5, 7, 10 that the index exceeds |
| Server.UvMonotone | src/server/server.mjs:795-801 | a larger UV index never gets a lower band |
| Server.UvBoundaries | src/server/server.mjs:795-801 | each threshold value itself stays in the lower band |
| Server.Location | src/server/server.mjs:701 | the location is the longest comma-free prefix of the name, cut at the first comma |
| Server.LocationOfPlainName | src/server/server.mjs:701 | a comma-free name is kept whole, and anything after a comma is dropped |
| Server.FileCheck | src/server/server.mjs:430-438 | a missing file is refused first; a file is accepted exactly when its type is one of the four image types |
| Server.AvatarUpload | src/server/server.mjs:424-438 | refused for a missing uid, then for a missing file, then for a bad type; each outcome occurs exactly under its condition |
| Server.EventUpload | src/server/server.mjs:577-588 | no uid is required; a missing file or a bad type is refused |
| Server.UploadsAgree | src/server/server.mjs:424-588 | with a uid present, both endpoints decide a file the same way, accepting exactly jpeg, png, gif and webp |
| Server.UidCheckedFirst | src/server/server.mjs:425-432 | a request lacking both a uid and a file is refused for the uid |
| RoomBooking.UserBookings | src/components/clientpage/roomBooking/roomBooking.jsx:49-51 | exactly the bookings whose client uid is the user's; nothing when no user is signed in |
| RoomBooking.UserBookingsAppend | src/components/clientpage/roomBooking/roomBooking.jsx:49-51 | the list keeps the store's order |
| RoomBooking.Submit | src/components/clientpage/roomBooking/roomBooking.jsx:53-73 | nothing is sent unless a room and both dates are chosen; otherwise 14:00 on the start day to 12:00 on the end day, for the user |
| RoomBooking.StayLength | src/components/clientpage/roomBooking/roomBooking.jsx:56-59 | the stay lasts the days between the dates less two hours, so it ends after it starts exactly when the end date is later |
| RoomBooking.AfterAdd | src/components/clientpage/roomBooking/roomBooking.jsx:80-89 | the form is cleared on success and kept otherwise |
| RoomBooking.ClearedFormBlocks | src/components/clientpage/roomBooking/roomBooking.jsx:80-89 | a cleared form cannot be submitted; a failed add leaves the submission as it was |
| RoomBooking.DeleteAction | src/components/clientpage/roomBooking/roomBooking.jsx:92-113 | the delete is sent exactly when the booking has not started, with its id and the user's uid |
| RoomBooking.DeleteRule | src/components/clientpage/roomBooking/roomBooking.jsx:195-220 | the button shows exactly when the handler would delete; once started, a booking stays undeletable |
| RoomBooking.DeletesAreOwn | src/components/clientpage/roomBooking/roomBooking.jsx:194-219 | every delete the page sends is for one of the user's own bookings |
| FacilityReport.ContainsWitness | src/components/dashboard/reports/facilityReport.jsx:60 | when `includes` succeeds, the word occurs at some position |
| FacilityReport.ContainsFrom | src/components/dashboard/reports/facilityReport.jsx:60 | an occurrence at any position makes `includes` succeed |
| FacilityReport.ContainsAt | src/components/dashboard/reports/facilityReport.jsx:60 | `includes` holds exactly when the word occurs at some position |
| FacilityReport.MaintenanceIff | src/components/dashboard/reports/facilityReport.jsx:56-61 | an issue exactly when the title is present and, once lower-cased, contains a keyword |
| FacilityReport.ShoutedKeyword | src/components/dashboard/reports/facilityReport.jsx:59-60 | a title containing "BROKEN" counts as an issue, since the check ignores case |
| FacilityReport.NoTitleNoIssue | src/components/dashboard/reports/facilityReport.jsx:57 | a feedback without a complaint title is never an issue |
| FacilityReport.DetailOf | src/components/dashboard/reports/facilityReport.jsx:81-86 | the reporter falls back to "Anonymous" and the date falls back to now |
| FacilityReport.IssueDetail | src/components/dashboard/reports/facilityReport.jsx:82-83 | an issue's detail shows its own title; "No description" appears only when it has no content |
| FacilityReport.Usage | src/components/dashboard/reports/facilityReport.jsx:63-71 | usage is at most the number of bookings, and zero exactly when no booking starts after now less thirty days (future bookings count) |
| FacilityReport.UsageAppend | src/components/dashboard/reports/facilityReport.jsx:65-71 | usage adds up over two lists |
| FacilityReport.UsageWindowEdge | src/components/dashboard/reports/facilityReport.jsx:63-66 | a booking exactly thirty days back is not counted; one a millisecond later is |
| FacilityReport.StatusOf | src/components/dashboard/reports/facilityReport.jsx:94 | the status is high usage exactly above thirty bookings |
| FacilityReport.BuildReports | src/components/dashboard/reports/facilityReport.jsx:73-102 | three cards exactly when an issue exists (the first counts and details every issue in order), otherwise two; the laundry card then the sauna card close the list |
| FacilityReport.ThirtyIsNormal | src/components/dashboard/reports/facilityReport.jsx:94-101 | thirty bookings read as normal and thirty-one as high usage |
| BookingAnalysis.RoomKey | src/components/dashboard/reports/bookingAnalysis.jsx:31 | the room, or "Unknown" when it is absent or empty |
| BookingAnalysis.BumpKeys | src/components/dashboard/reports/bookingAnalysis.jsx:32 | an increment keeps the key order and appends a new key last |
| BookingAnalysis.BumpDistinct | src/components/dashboard/reports/bookingAnalysis.jsx:32 | keys stay distinct under an increment |
| BookingAnalysis.BumpCount | src/components/dashboard/reports/bookingAnalysis.jsx:32 | an increment adds one under its own key and nowhere else |
| BookingAnalysis.BumpSum | src/components/dashboard/reports/bookingAnalysis.jsx:32 | an increment adds one to the total and keeps every count positive |
| BookingAnalysis.CountOfEntry | src/components/dashboard/reports/bookingAnalysis.jsx:32 | with distinct keys, a lookup reads back each entry's count |
| BookingAnalysis.CountOfPositive | src/components/dashboard/reports/bookingAnalysis.jsx:32 | a positive count belongs to some entry |
| BookingAnalysis.OccurrencesSnoc | src/components/dashboard/reports/bookingAnalysis.jsx:30-33 | one more booking adds one to its own room's count only |
| BookingAnalysis.TallyFacts | src/components/dashboard/reports/bookingAnalysis.jsx:28-33 | the keys are distinct, every count is at least one and equals that room's bookings, and the counts total the bookings |
| BookingAnalysis.EntryCounts | src/components/dashboard/reports/bookingAnalysis.jsx:28-33 | each entry's count is its room's number of bookings |
| BookingAnalysis.EveryRoomCounted | src/components/dashboard/reports/bookingAnalysis.jsx:28-33 | every booking's room has an entry |
| BookingAnalysis.ChartSum | src/components/dashboard/reports/bookingAnalysis.jsx:35-39 | the chart values total the counts |
| BookingAnalysis.Process | src/components/dashboard/reports/bookingAnalysis.jsx:21-25 | an empty booking list keeps the previous chart; otherwise there is one entry per room key |
| BookingAnalysis.ChartFacts | src/components/dashboard/reports/bookingAnalysis.jsx:21-39 | the chart has distinct "Room " names, one per booked room, each valued at that room's bookings (at least one), totalling the bookings |
| Events.Submit | src/components/dashboard/events/events.jsx:40-64 | refused exactly when the title, content or a date is missing; otherwise the fields map to the event and the image is passed along |
| Events.AfterResult | src/components/dashboard/events/events.jsx:72-80 | the form is cleared on success and kept otherwise |
| Events.ResetBlocksResubmit | src/components/dashboard/events/events.jsx:45-80 | a cleared form is refused; a failed add leaves the submission as it was |
| Events.ValidAt | src/components/dashboard/events/events.jsx:90 | a run of letters up to a dot, or to the end, makes a name acceptable |
| Events.ValidImageNameIff | src/components/dashboard/events/events.jsx:90 | a name is accepted exactly when it starts with a non-empty run of letters ending at a dot or at the end |
| Events.ExtensionIgnored | src/components/dashboard/events/events.jsx:90 | whatever follows the first dot is not checked |
| Events.RejectedNames | src/components/dashboard/events/events.jsx:88-99 | a space before the first dot, or a name starting with a dot, is refused |
| Events.Apply | src/components/dashboard/events/events.jsx:83-118 | the error popup opens exactly for a picked file with a bad name, and then the form is unchanged; a valid file becomes the image; each text or date input sets only its own field |
| Events.OnlyOwnField | src/components/dashboard/events/events.jsx:83-118 | an input changes no other field, and a file pick never changes whether the form can be submitted |
| Events.ImageStaysValid | src/components/dashboard/events/events.jsx:64-104 | an image in the form, and so in an added event, always passed the name check |
| WeatherSection.First | src/components/TV/weathersection.jsx:63-65 | the position of the first item of a day, or the length when there is none |
| WeatherSection.IndexOf | src/components/TV/weathersection.jsx:65 | the first entry for a day, or the length when there is none |
| WeatherSection.DailyStats | src/components/TV/weathersection.jsx:61-80 | one entry per day that has items, in first-seen order, taking the weather of the day's first item; min and max bound every item of the day and are attained |
| WeatherSection.Window | src/components/TV/weathersection.jsx:92-102 | exactly the items dated today or tomorrow |
| WeatherSection.WindowAppend | src/components/TV/weathersection.jsx:92-102 | the window keeps the forecast's order |
| WeatherSection.Every3Hours | src/components/TV/weathersection.jsx:105-113 | at most nine items, a prefix of those a whole number of three-hour steps from the current hour |
| WeatherSection.Every3HoursKeepsFirstNine | src/components/TV/weathersection.jsx:112 | nine are kept when more qualify, and all are kept otherwise |
| WeatherSection.Extended | src/components/TV/weathersection.jsx:116-125 | the three-hourly list comes first; what follows it are window items after the end of today, and every such item is there |
| WeatherSection.ExtendedTail | src/components/TV/weathersection.jsx:116-125 | the extended list is the three-hourly list followed by exactly the window's items dated tomorrow |
| WeatherSection.Lowest | src/components/TV/weathersection.jsx:158 | the minimum is Infinity exactly for no values; otherwise it is a finite number that bounds every value and is one of them |
| WeatherSection.Highest | src/components/TV/weathersection.jsx:157 | the maximum is -Infinity exactly for no values; otherwise it is a finite number that bounds every value and is one of them |
| WeatherSection.AxisLimits | src/components/TV/weathersection.jsx:153-162 | with values, the bottom is `max(min - 3, lo)` and the top `min(max + 3, hi)` (each clamp is taken only when some value is within 3 of it or beyond); with no values they are Infinity and -Infinity |
| WeatherSection.AxisFromExtremes | src/components/TV/weathersection.jsx:157-160 | given the smallest value `m` and the largest `M`, the limits are exactly `max(m - 3, lo)` and `min(M + 3, hi)` |
| WeatherSection.OneReadingAxis | src/components/TV/weathersection.jsx:153-162 | a single reading of 20 degrees gives the axis 17 to 23, not the clamps |
| WeatherSection.ValuesInsideAxis | src/components/TV/weathersection.jsx:153-174 | every value inside the clamp range is drawn inside the axis |
| WeatherSection.AxisCanInvert | src/components/TV/weathersection.jsx:159-160 | values all above the top clamp plus 3 give a bottom above the top |
| WeatherSection.Temperatures | src/components/TV/weathersection.jsx:154-156 | the temperatures of the items, in order |
| WeatherSection.Humidities | src/components/TV/weathersection.jsx:166-168 | the humidities of the items, in order |
| WeatherSection.TemperatureAxis | src/components/TV/weathersection.jsx:153-162 | with data, the bottom is `max(min - 3, -30)` and the top `min(max + 3, 40)` over the temperatures, so never below -30 nor above 40 |
| WeatherSection.HumidityAxis | src/components/TV/weathersection.jsx:165-174 | with data, the bottom is `max(min - 3, 0)` and the top `min(max + 3, 100)` over the humidities, so never below 0 nor above 100 |
| IndoorChart.OrNull | src/components/dashboard/home/chart.jsx:34-36 | `x \|\| null` is null exactly for zero |
| IndoorChart.FindAt | src/components/dashboard/home/chart.jsx:25-29 | the first forecast item at exactly the instant, or the length when there is none |
| IndoorChart.Join | src/components/dashboard/home/chart.jsx:24-38 | one row per humidity sample; the indoor temperature is taken from the same index; the outdoor values come from the first forecast item at the same instant, or are null |
| IndoorChart.InsertPerm | src/components/dashboard/home/chart.jsx:40 | inserting adds exactly one copy of the row |
| IndoorChart.InsertSorted | src/components/dashboard/home/chart.jsx:40 | inserting into sorted rows keeps them sorted |
| IndoorChart.SortFacts | src/components/dashboard/home/chart.jsx:40 | the sort returns a permutation of its input in time order |
| IndoorChart.SortSorted | src/components/dashboard/home/chart.jsx:40 | rows already in order come back unchanged |
| IndoorChart.InsertLast | src/components/dashboard/home/chart.jsx:40 | a row not earlier than any other goes last |
| IndoorChart.CombinedData | src/components/dashboard/home/chart.jsx:24-40 | one row per humidity sample, in time order, a permutation of the joined rows |
| IndoorChart.EverySampleDrawn | src/components/dashboard/home/chart.jsx:24-40 | every sample's row appears in the chart |
| IndoorChart.Loading | src/components/dashboard/home/chart.jsx:14-18 | the flag clears once all three lists are non-empty, and is never set again |
| IndoorChart.LoadingIff | src/components/dashboard/home/chart.jsx:8-18 | the chart is still loading exactly when no update so far had all three lists non-empty |
| IndoorChart.Render | src/components/dashboard/home/chart.jsx:20-40 | nothing is drawn while loading; otherwise the sorted permutation of the joined rows |

## Left out

- Dates are whole local days at a fixed offset from the epoch. moment.js, locales, daylight saving and the "YYYY-MM-DD-H" id text are not modelled; a slot id is the triple it encodes.
- Store calls (Firestore), InfluxDB queries and writes, server-sent events, Google Cloud Storage, logging and popups are I/O. They appear as commands, as record lists passed in, or as outcome flags.
- The events upload's "file already exists" lookup in the bucket depends on bucket state and is not modelled.
- The server's other endpoints (image download and delete, temperature/humidity reads, logs) only move data and are not modelled.
- Numbers are mathematical reals. Floating point, NaN from missing fields, `toFixed` and the percentage text of the booking chart are not modelled.
- Server.UvType: an undefined UV index (every comparison false, so "Extreme") is not modelled; the index is always a number.
- Server.WeatherType: 23 codes are listed; code 0 ("Unknown") is the default branch, not a table entry.
- Slots.Click, Sauna.SaunaClick: the sauna handler dereferences a slot missing from the grid and throws; this is modelled as no store call.
- Slots.Click: the delete is sent whoever owns the matching booking, as the code does; ownership is not checked.
- BookingAnalysis.Keys: `Object.entries` lists integer-like keys first in numeric order; the model keeps insertion order for every key. Counting into a plain object also makes a room named like an inherited property ("constructor", "__proto__") start from that property rather than 0; the model counts every key from 0.
- FacilityReport.Lower: only A to Z are lowered; other Unicode case mappings are not modelled.
- FacilityReport.DetailOf: a feedback without a `client` object throws in the source; the model takes the client name as optional.
- IndoorChart.SortFacts: states sortedness and permutation, not the stability of the JavaScript sort.
- RoomBooking.Submit: a null user throws in the source; the model takes a signed-in user.
- Events.Submit: an editor holding only empty markup counts as content, as in the source; the markup itself is not modelled.
- Display-only values are not modelled: labels, `shortDay`, `getDayAndTime`, `latestWeather`, the background image and chart data formatting.
- Concurrency between effects and in-flight store calls, and React state batching, are not modelled.
