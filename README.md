# play8 client logic in Dafny

This project models the client-side logic of the play8 tennis web client: the small state
machines and derivations that sit between the React components and the backend. It covers:

- **The agent chat page.** A send appends the user's message and issues one request. The
  streamed reply is read chunk by chunk: each chunk is split on line feeds, and the content
  of every `data: ` line is appended to an assistant message that is overwritten in place.
  Any failure ends the turn with an apology message.
- **The training plan.** Toggling a step recomputes the item's status (`todo`,
  `in_progress`, `complete`) optimistically and then persists it. Items can be deleted, and
  are grouped into three status columns on the board. The plan card shows progress and
  wires its step, remove, confirm and cancel buttons. The generated studio card shows a
  badge and a summary cut to 80 characters.
- **The studio sidebar.** Catalog cards are scored by keyword hits in the conversation. The
  top three are kept, ordered by score with ties in catalog order, and the catalog is also
  grouped by category.
- **The conversation list.** Deleting a conversation takes two clicks on the same
  conversation. Dates are shown as relative text, and untitled conversations get a default
  title.
- **The booking and machine hooks.** Bookings and machines live in paginated lists that are
  appended to, replaced by id and filtered by id. `nextPage` moves on only from a full page;
  `prevPage` never goes below 0.
- **The booking views.** The history lists completed bookings, most recent first, with a
  formatted duration. The active list has an end-session button. The booking form checks
  its two fields in order before submitting.
- **Preferences.** The theme is chosen from a manual flag, a saved theme, the hour and the
  system preference, and the automatic switches apply only when there is no manual flag.
  The language is narrowed to `en` or `sv`. The QR code encodes a booking URL.

Everything outside the program is a parameter:

- Outcomes of backend calls are `Reply`/`Option` values.
- The response stream is a `Transport` value.
- JSON parsing is an oracle `string -> Option<Record>`.
- Clock readings are integers: the hour, a millisecond difference, minutes, and start
  times as a key function.
- Browser storage is a `map<string, string>`.

Each component state that the source updates in place is a class whose methods state the
whole new state:

- `ChatPage`, `ProfilePage`, `DeleteConfirmation`;
- `BookingsHook`, `MachinesHook`, `BookingForm`;
- `ThemeState`, `LanguageState`.

Pure derivations are functions, and the properties the program relies on are lemmas about
those functions.

Modules:

- **Shared:** `Wrappers`, `Seqs` (filters, subsequences, first match), `Strings` (split and
  join, trim, ASCII case, decimal text), `Ordering` (the stable descending insertion sort
  and `slice`).
- **Records:** `Records` (bookings, machines, pages, error messages, `getMachineName`),
  `Paging`.
- **Components and hooks:** `ChatStream`, `PlanItems`, `PlanCard`, `GeneratedStudioCard`,
  `ProfilePage`, `PlanBoard`, `StudioSidebar`, `ConversationSidebar`, `UseBookings`,
  `UseMachines`, `BookingHistory`, `BookingList`, `BookingForm`, `Theme`, `Language`,
  `QrCode`.

## Model

| member | source | states |
|---|---|---|
| ChatStream.ChatPage.constructor | src/components/AgentPage.tsx:153-160 | a non-blank initial message becomes the only, trimmed, user message and the page starts loading; otherwise the list is empty and the page is idle |
| ChatStream.ChatPage.HandleSend | src/components/AgentPage.tsx:310-328 | a blank input or a turn in flight changes nothing and sends nothing; otherwise exactly one trimmed user message is appended, the input cleared, loading set, and the request carries the history from before the append |
| ChatStream.ChatPage.ProcessInitialMessage | src/components/AgentPage.tsx:331-337 | the initial message is sent at most once, with an empty history, and the message list is untouched |
| ChatStream.InitialMessageSentOnce | src/components/AgentPage.tsx:153-160 | a second trigger of the initial-message effect and a send while the first reply loads both send nothing |
| ChatStream.ChatPage.ReadChunk | src/components/AgentPage.tsx:273-295 | one chunk is read line by line; the reply grows by exactly that chunk's text and only the last message changes, to the assistant's running reply |
| ChatStream.ChatPage.ReadStream | src/components/AgentPage.tsx:268-297 | the reader loop leaves the reply equal to the text of all chunks read, chunk after chunk, and the placeholder becomes that reply while earlier messages stay |
| ChatStream.ChunkStep | src/components/AgentPage.tsx:268-297 | each further read appends exactly that chunk's text to the reply so far |
| ChatStream.ChatPage.FetchResponse | src/components/AgentPage.tsx:242-307 | the turn appends exactly `TurnMessages`: the apology alone before a readable response, otherwise one assistant message holding the reply followed by the apology if a read fails; earlier messages are kept and both flags end false |
| ChatStream.TurnMessages | src/components/AgentPage.tsx:256-302 | one or two assistant messages; two exactly when a read fails mid-stream; the last is the apology unless the stream ended normally |
| ChatStream.LineText | src/components/AgentPage.tsx:276-293 | a line that does not begin with `data: `, or whose payload does not parse, adds nothing |
| ChatStream.StreamTextAppend | src/components/AgentPage.tsx:269-297 | reading further chunks only appends: the text of a stream is the text of its parts in order |
| ChatStream.SingleChunkText | src/components/AgentPage.tsx:273-276 | a stream delivered in one read is read line by line without loss |
| ChatStream.SplitRecordLost | src/components/AgentPage.tsx:273-279 | a `data:` record split across two reads contributes nothing, although the same line read whole would |
| ChatStream.Apology | src/components/AgentPage.tsx:298-302 | the failure message is a non-empty assistant message |
| ChatStream.ConversationText | src/components/AgentPage.tsx:203-205 | no messages give the empty text |
| ChatStream.ConversationTextContains | src/components/AgentPage.tsx:203-205 | every message's content occurs in the conversation text |
| PlanItems.CountChecked | src/components/plan/PlanCard.tsx:22 | the number of checked steps is at most the array length |
| PlanItems.CountAllChecked | src/components/ProfilePage.tsx:39 | the count equals the length exactly when no entry is false |
| PlanItems.CountNoneChecked | src/components/ProfilePage.tsx:40 | the count is zero exactly when no entry is true |
| PlanItems.StatusOf | src/components/ProfilePage.tsx:39-41 | `complete` iff the array is non-empty and all entries are true; `in_progress` iff some but not all are; `todo` iff none is |
| PlanItems.ToggleAt | src/components/ProfilePage.tsx:37-38 | the entry at the index is negated, or `true` is appended when the index is one past the end; every other entry is kept, and the length grows only in the append case |
| PlanItems.ToggleAppendTwice | src/components/ProfilePage.tsx:37-38 | clicking a step one past the end twice leaves a new unchecked entry rather than the original array |
| PlanItems.ToggleCount | src/components/ProfilePage.tsx:37-38 | one toggle moves the checked count by exactly one, down for a checked entry and up for an unchecked or missing one |
| PlanItems.ToggleItem | src/components/ProfilePage.tsx:36-42 | the toggled item has the toggled array, the status derived from it, and every other field unchanged |
| ProfilePage.ToggledItems | src/components/ProfilePage.tsx:34-44 | items with another id are unchanged, items with the id are toggled, length and order kept |
| ProfilePage.PersistedSteps | src/components/ProfilePage.tsx:47-50 | nothing is persisted exactly when no item has the id |
| ProfilePage.PersistedMatchesOptimistic | src/components/ProfilePage.tsx:34-52 | the persisted array equals the optimistic array of the first item with the id; when nothing is persisted the optimistic update changed nothing |
| ProfilePage.ToggleStepTwice | src/components/ProfilePage.tsx:37-41 | toggling the same step twice restores the list when the items have an entry at that step and their statuses agreed with their steps |
| ProfilePage.DeletedItems | src/components/ProfilePage.tsx:62 | no item with the id is left, and every other item is kept exactly as many times as it occurs |
| ProfilePage.DeletedKeepsOrder | src/components/ProfilePage.tsx:62 | the remaining items keep their relative order |
| ProfilePage.ProfilePage.constructor | src/components/ProfilePage.tsx:12-13 | no items and loading |
| ProfilePage.ProfilePage.FetchPlan | src/components/ProfilePage.tsx:15-24 | a reply replaces the items, a failure keeps them, loading ends either way |
| ProfilePage.ProfilePage.HandleToggleStep | src/components/ProfilePage.tsx:32-58 | the list is toggled optimistically, the persisted array is `PersistedSteps` of the list before the toggle, and a refused persist reloads the list |
| ProfilePage.ProfilePage.HandleDelete | src/components/ProfilePage.tsx:60-70 | the item is removed optimistically and a refused delete reloads the list |
| ProfilePage.FirstChars | src/components/ProfilePage.tsx:82-84 | one character per non-empty word, the first character of that word, in order |
| ProfilePage.Initials | src/components/ProfilePage.tsx:80-86 | at most two characters, one per non-empty word, the upper-cased first character of each in order |
| PlanCard.CheckedCount | src/components/plan/PlanCard.tsx:22 | at most the length of `checked_steps` |
| PlanCard.ProgressPercentRange | src/components/plan/PlanCard.tsx:23-24 | the percentage is non-negative, 0 without steps, 100 exactly when the checked count equals the number of steps, and at most 100 while `checked_steps` is no longer than the steps; in that case 100 means every step shows checked (a longer `checked_steps` can reach 100 with unchecked steps) |
| PlanCard.ToggledBarColour | src/components/plan/PlanCard.tsx:71 | after a toggle the bar is coloured complete exactly when it is full |
| PlanCard.StepChecked | src/components/plan/PlanCard.tsx:94 | a step past the end of `checked_steps` shows unchecked; otherwise it shows its entry |
| PlanCard.StepView | src/components/plan/PlanCard.tsx:93-94 | one box per step, checked exactly as `StepChecked` shows it |
| PlanCard.StepsStatus | src/components/plan/PlanCard.tsx:93-94 | the status measured against the steps shown: complete exactly when there are steps and all show checked, to do exactly when none does, in progress exactly when some but not all do, and the client's status when there is one entry per step |
| PlanCard.OneClickCompletesShortSteps | src/components/ProfilePage.tsx:37-41 | with three steps and no entries, one click gives status `complete` and the complete bar colour while progress is below 100 and `StepsStatus` is not complete |
| PlanCard.Click | src/components/plan/PlanCard.tsx:31-163 | delete fires exactly for the confirm button of an expanded card with the confirmation open and closes it; step `i`'s toggle fires exactly for its own box on an expanded card; cancel fires nothing |
| PlanBoard.BucketOf | src/components/plan/PlanBoard.tsx:48 | each of the three statuses selects its own bucket and every other status the to-do bucket |
| PlanBoard.BucketAsWritten | src/components/plan/PlanBoard.tsx:46-49 | the lookup as written fails exactly for inherited property names and otherwise agrees with `BucketOf` |
| PlanBoard.GroupedAsWritten | src/components/plan/PlanBoard.tsx:45-52 | the grouping as written throws exactly when some status is an inherited property name |
| PlanBoard.InheritedStatusBreaksBoard | src/components/plan/PlanBoard.tsx:48 | an item with status `toString` breaks the board as written, where `BucketOf` files it under to-do |
| PlanBoard.Group | src/components/plan/PlanBoard.tsx:45-52 | exactly the three buckets exist, and each holds exactly the items of that bucket in input order |
| PlanBoard.BucketsPartition | src/components/plan/PlanBoard.tsx:46-51 | the buckets together hold every item exactly once, and their sizes add up to the item count |
| PlanBoard.Board | src/components/plan/PlanBoard.tsx:20-57 | the columns appear in the fixed order, each showing its own bucket |
| PlanBoard.BoardEvent | src/components/plan/PlanBoard.tsx:82-83 | a card's callbacks reach the board with that card's own id and the same step index |
| PlanBoard.CardClickReachesBoard | src/components/plan/PlanBoard.tsx:82-83 | the board receives a toggle of `(id, i)` exactly when the card's step box `i` is clicked while expanded, and a delete only through the confirm button |
| GeneratedStudioCard.CheckedCount | src/components/studio/GeneratedStudioCard.tsx:17 | an absent `checked_steps` counts zero; otherwise the checked entries are counted |
| GeneratedStudioCard.BadgeOf | src/components/studio/GeneratedStudioCard.tsx:18-49 | the check mark iff the card is complete; a `k/n` counter iff it has progress, is not complete and k > 0; no badge otherwise |
| GeneratedStudioCard.Prefix | src/components/studio/GeneratedStudioCard.tsx:53 | `slice(0, n)`: a prefix of length `min(n, length)` |
| GeneratedStudioCard.Summary | src/components/studio/GeneratedStudioCard.tsx:53 | the description when non-empty; otherwise the overview if it has at most 80 characters, else its first 80 characters and `...`, never more than 83 |
| GeneratedStudioCard.SummaryOfOverview | src/components/studio/GeneratedStudioCard.tsx:53 | with no description the summary starts with the overview's first 80 characters, or all of it when shorter, and ends in `...` exactly when the overview is longer than 80 |
| StudioSidebar.StudioCardIdsDistinct | src/components/studio/StudioData.ts:17-224 | the catalog's ids are pairwise different |
| StudioSidebar.Score | src/components/studio/StudioSidebar.tsx:26-31 | at most the number of keywords; zero iff no keyword is found; all iff all are found |
| StudioSidebar.CardScore | src/components/studio/StudioSidebar.tsx:26-31 | the counting loop computes `Score` |
| StudioSidebar.Matches | src/components/studio/StudioSidebar.tsx:25-35 | at most one match per catalog card |
| StudioSidebar.MatchesSpec | src/components/studio/StudioSidebar.tsx:25-35 | every match is a catalog card with its positive score, and every card with a positive score is matched with that score |
| StudioSidebar.MatchesDistinct | src/components/studio/StudioSidebar.tsx:25-35 | a catalog with distinct ids gives matches with distinct ids |
| StudioSidebar.TopMatches | src/components/studio/StudioSidebar.tsx:19-42 | empty text gives nothing; otherwise exactly `min(3, matches)` results |
| StudioSidebar.CardsOf | src/components/studio/StudioSidebar.tsx:41 | one card per match, in order |
| StudioSidebar.ContextualCards | src/components/studio/StudioSidebar.tsx:19-42 | the loops compute the cards of `TopMatches` |
| StudioSidebar.TopMatchesSound | src/components/studio/StudioSidebar.tsx:38-40 | every result is a match, and the results are in non-increasing score order |
| StudioSidebar.TopMatchesTiesInCatalogOrder | src/components/studio/StudioSidebar.tsx:38-39 | results with equal scores keep catalog order |
| StudioSidebar.TopMatchesDominate | src/components/studio/StudioSidebar.tsx:38-40 | a match left out scores no higher than any returned result |
| StudioSidebar.TopMatchesDistinct | src/components/studio/StudioSidebar.tsx:25-41 | no card is returned twice |
| StudioSidebar.Categories | src/components/studio/StudioSidebar.tsx:45-54 | the categories are distinct and cover every card |
| StudioSidebar.CategoriesFromCards | src/components/studio/StudioSidebar.tsx:45-54 | every category is the category of some card |
| StudioSidebar.CategoriesFirstAppearance | src/components/studio/StudioSidebar.tsx:45-54 | the categories of a catalog prefix are a prefix of the categories: groups appear in order of first appearance |
| StudioSidebar.GroupByCategory | src/components/studio/StudioSidebar.tsx:45-54 | exactly one group per category, each holding exactly that category's cards in catalog order |
| StudioSidebar.CardsByCategory | src/components/studio/StudioSidebar.tsx:89 | the entries list the groups in first-appearance order with their cards |
| ConversationSidebar.DeleteConfirmation.HandleDelete | src/components/ConversationSidebar.tsx:22-32 | a click on the armed id deletes it and disarms; any other click only arms that id |
| ConversationSidebar.DeleteConfirmation.ConfirmTimeout | src/components/ConversationSidebar.tsx:30 | the reset disarms |
| ConversationSidebar.DeleteNeedsTwoClicks | src/components/ConversationSidebar.tsx:24-28 | the first click deletes nothing, the second deletes that conversation and disarms |
| ConversationSidebar.SwitchingDisarms | src/components/ConversationSidebar.tsx:24-28 | alternating between two conversations never deletes and leaves the last one armed |
| ConversationSidebar.FormatDate | src/components/ConversationSidebar.tsx:34-44 | `Today` for day 0, `Yesterday` for day 1, `<n>d ago` with the floored day count for days below 7 including negative ones, the locale date otherwise |
| ConversationSidebar.DisplayTitle | src/components/ConversationSidebar.tsx:80 | a non-empty title as it is, otherwise `New conversation` |
| Records.ErrorMessage | src/hooks/useBookings.ts:21 | an `Error` keeps its own message; any other thrown value gets the fallback |
| Records.MachineName | src/components/BookingHistory.tsx:19-22 | the name of the first machine with the id, else `Unknown Machine` |
| Paging.Total | src/hooks/useMachines.ts:59 | 0 without a response, else the response's total |
| Paging.NextOffset | src/hooks/useBookings.ts:73-77 | the offset moves, by exactly `limit`, only after a full page |
| Paging.PrevOffset | src/hooks/useBookings.ts:79-81 | never negative; 0 exactly when the offset is at most `limit`; otherwise one page back |
| UseBookings.ReplaceById | src/hooks/useBookings.ts:48-50 | every booking with the id becomes the returned booking; the others, the length and the order are kept |
| UseBookings.RemoveById | src/hooks/useBookings.ts:64 | no booking with the id is left, and every other booking is kept exactly as many times as it occurs |
| UseBookings.RemoveByIdInOrder | src/hooks/useBookings.ts:63-64 | the remaining bookings keep their order |
| UseBookings.RemoveCreated | src/hooks/useBookings.ts:34 | deleting a just-created booking restores the list without it |
| UseBookings.RemoveUpdated | src/hooks/useBookings.ts:47-50 | updating and then deleting a booking is the same as deleting it |
| UseBookings.BookingsHook.constructor | src/hooks/useBookings.ts:5-10 | an empty list at the initial offset, loading, with no error or response |
| UseBookings.BookingsHook.Fetch | src/hooks/useBookings.ts:12-28 | a page replaces the bookings and the response and clears the error; a failure keeps them and records the error; loading ends false |
| UseBookings.BookingsHook.CreateBooking | src/hooks/useBookings.ts:30-42 | the created booking is appended and returned; a failure keeps the list and records the error |
| UseBookings.BookingsHook.UpdateBooking | src/hooks/useBookings.ts:44-58 | the bookings with the id are replaced; a failure keeps the list and records the error |
| UseBookings.BookingsHook.DeleteBooking | src/hooks/useBookings.ts:60-71 | the bookings with the id are removed only after the backend confirms; a failure keeps the list and records the error |
| UseBookings.BookingsHook.NextPage | src/hooks/useBookings.ts:73-77 | the offset becomes `NextOffset`; nothing else changes |
| UseBookings.BookingsHook.PrevPage | src/hooks/useBookings.ts:79-81 | the offset becomes `PrevOffset`; nothing else changes |
| UseMachines.MachinesHook.constructor | src/hooks/useMachines.ts:5-10 | an empty list at the initial offset, loading, with no error or response |
| UseMachines.MachinesHook.Fetch | src/hooks/useMachines.ts:12-28 | a page replaces the machines and clears the error; a failure keeps them and records the error |
| UseMachines.MachinesHook.GetMachine | src/hooks/useMachines.ts:30-41 | a reply returns the machine; a failure returns nothing and records the error; the list is untouched |
| UseMachines.MachinesHook.NextPage | src/hooks/useMachines.ts:43-47 | the offset becomes `NextOffset`; nothing else changes |
| UseMachines.MachinesHook.PrevPage | src/hooks/useMachines.ts:49-51 | the offset becomes `PrevOffset`; nothing else changes |
| BookingHistory.CompletedBookings | src/components/BookingHistory.tsx:11-16 | exactly the completed bookings with an end time, each as often as in the input |
| BookingHistory.CompletedBookingsOrder | src/components/BookingHistory.tsx:13-16 | most recent start first, with equal start times in input order |
| BookingHistory.HourUnit | src/components/BookingHistory.tsx:36 | `hours` exactly when there is more than one hour |
| BookingHistory.FormatDuration | src/components/BookingHistory.tsx:31-36 | below 60, `<m> minutes`; from 60, the text starts with the hour count, and on a whole number of hours it is exactly the count and its unit, with no minutes part |
| BookingHistory.DurationWords | src/components/BookingHistory.tsx:36 | the formatted duration's words contain no spaces and number at least two |
| BookingHistory.FormatIsWords | src/components/BookingHistory.tsx:31-36 | the formatted duration is its words joined by spaces |
| BookingHistory.DurationRoundTrip | src/components/BookingHistory.tsx:25-37 | the minute count is read back from its formatted text, and the unit is `hours` exactly from 120 minutes |
| BookingHistory.History | src/components/BookingHistory.tsx:43 | the empty state exactly when no booking is finished, otherwise the ordered completed bookings |
| BookingList.ActiveBookings | src/components/BookingList.tsx:14 | exactly the active bookings, each as many times as it occurs |
| BookingList.ActiveBookingsInOrder | src/components/BookingList.tsx:14 | in input order |
| BookingList.ListViewOf | src/components/BookingList.tsx:31-38 | the empty state exactly when no booking is active, otherwise the non-empty active rows |
| BookingList.EndSessionTarget | src/components/BookingList.tsx:65 | the end callback fires exactly for a booking with a non-empty id, and with that id |
| BookingForm.Draft | src/components/BookingForm.tsx:33-39 | the payload has user `user-1`, the chosen machine, the converted start time and status `active` |
| BookingForm.BookingForm.constructor | src/components/BookingForm.tsx:14-17 | both fields empty and no error |
| BookingForm.BookingForm.SelectMachine | src/components/BookingForm.tsx:15 | only the machine changes |
| BookingForm.BookingForm.SelectStartTime | src/components/BookingForm.tsx:16 | only the start time changes |
| BookingForm.BookingForm.HandleSubmit | src/components/BookingForm.tsx:19-47 | the machine is checked before the time, each failing check sets its own error without submitting; a submitted draft resets both fields on success and keeps them with the failure message otherwise |
| Theme.InitialTheme | src/contexts/ThemeContext.tsx:21-42 | a saved theme under the manual flag wins; otherwise dark after 8 PM, else the system preference |
| Theme.EveningIsDark | src/contexts/ThemeContext.tsx:31-34 | without the manual flag the evening start is dark |
| Theme.Toggled | src/contexts/ThemeContext.tsx:112 | light and dark swap; anything but dark becomes dark |
| Theme.TimeTheme | src/contexts/ThemeContext.tsx:69-70 | dark exactly after 8 PM |
| Theme.ThemeState.constructor | src/contexts/ThemeContext.tsx:21-59 | the initial theme, persisted only under the manual flag; the dark class matches the theme |
| Theme.ThemeState.ApplyTheme | src/contexts/ThemeContext.tsx:45-59 | the dark class follows the theme, which is stored only under the manual flag |
| Theme.ThemeState.ToggleTheme | src/contexts/ThemeContext.tsx:108-116 | the theme flips, the manual flag is set and the new theme stored |
| Theme.ThemeState.SetTheme | src/contexts/ThemeContext.tsx:118-123 | exactly the given theme, with the manual flag set and the theme stored |
| Theme.ThemeState.TimeCheck | src/contexts/ThemeContext.tsx:64-83 | only without the manual flag does the theme follow the hour; storage is untouched |
| Theme.ThemeState.SystemChange | src/contexts/ThemeContext.tsx:87-96 | the system preference applies only without the manual flag and before 8 PM |
| Theme.ChoiceSticks | src/contexts/ThemeContext.tsx:64-116 | a toggled theme survives later time checks and system changes |
| Language.NormalizeChoice | src/contexts/LanguageContext.tsx:25 | always `en` or `sv`; `sv` exactly for `sv` |
| Language.NormalizeSaved | src/contexts/LanguageContext.tsx:18-19 | always `en` or `sv`; `sv` exactly when the saved code, else the detected one, starts with `sv` |
| Language.NormalizeIdempotent | src/contexts/LanguageContext.tsx:19-25 | both narrowings leave a narrowed code unchanged |
| Language.LanguageState.constructor | src/contexts/LanguageContext.tsx:14 | the detected code, or `en` when there is none |
| Language.LanguageState.Mount | src/contexts/LanguageContext.tsx:17-22 | the narrowed start-up language becomes current and the library's |
| Language.LanguageState.ChangeLanguage | src/contexts/LanguageContext.tsx:24-28 | the narrowed choice becomes current, the library's and the stored value |
| Language.ChoiceSurvivesReload | src/contexts/LanguageContext.tsx:17-28 | a chosen language is the language after a reload |
| QrCode.BookingUrl | src/components/QRCode.tsx:14-26 | an explicit url as it is; else the public URL, with `/#booking` appended unless present; else the production booking page |
| QrCode.BookingUrlReachesBooking | src/components/QRCode.tsx:19-25 | without an explicit url the link always contains `/#booking` |
| QrCode.BookingUrlIdempotent | src/components/QRCode.tsx:22 | building the link from a link it built changes nothing, whatever the public URL |
| Ordering.SortDescSorted | src/components/studio/StudioSidebar.tsx:38-39 | the sort's result is in non-increasing key order |
| Ordering.SortDescStable | src/components/BookingHistory.tsx:13-16 | elements with equal keys keep their input order |
| Strings.JoinSplit | src/components/ProfilePage.tsx:82 | joining the pieces of a split with the separator gives the text back |
| Strings.Trim | src/components/AgentPage.tsx:311-313 | the result is the input with its leading and trailing white space removed: a contiguous slice of the input, starting at the first character that is not white space, with only white space before and after it and none at either end; it is empty exactly for all-space text |
| Strings.ParseNatToString | src/components/BookingHistory.tsx:32-36 | a count is read back from its decimal text |

## Left out

- Network and storage I/O are inputs. `fetch`, axios, the plan and booking endpoints and
  `localStorage` reads are not modelled: each backend outcome is passed in as a `Reply` or
  `Option`, and storage is a `map<string, string>`.
- `JSON.parse` and the truthiness of `data.content` form a parser oracle. `None` means the
  payload does not parse or the record is null; a falsy `content` is the empty string.
- `TextDecoder` and UTF-8 are not modelled. A chunk is the decoded string, and a character
  stands for a UTF-16 code unit.
- Asynchrony and React scheduling are not modelled. Each handler runs as one atomic step,
  so interleaved handlers, stale closures and effect ordering are not captured.
- The 3-second confirmation reset is a separate `ConfirmTimeout` event, because it is a
  timer. The once-a-minute theme check is the same `TimeCheck` event as the visibility
  handler.
- Dates, clocks and locales are integer inputs. The model takes the hour, a millisecond
  difference, whole minutes and start times as an integer key. `toLocaleDateString`,
  `date-fns` and `toISOString` are not modelled: the ISO text is an `Option` input, with
  `None` when the date is invalid.
- Invalid dates (`NaN` minutes or start times) are not modelled, including the `NaN`
  comparator in the history sort.
- `Strings.ToLower`, `Strings.ToUpper`: case mapping covers the ASCII letters only.
- `Strings.Trim`: removes tab, line feed, vertical tab, form feed, carriage return, space,
  U+00A0 and U+FEFF. It does not remove the other characters JavaScript's `trim` removes:
  U+1680, U+2000 to U+200A, U+2028, U+2029, U+202F, U+205F and U+3000.
- Layout and markup are not modelled: panel resizing, scrolling, Markdown rendering, the
  static pages, and the studio modal and card views.
- `AuthContext.tsx`, the i18n library set-up and the language switcher are not part of
  this model.
- The i18n library's own language detection is not modelled: the detected code is an input.
- `ProfilePage.ToggledItems`, `ProfilePage.ProfilePage.HandleToggleStep`,
  `ProfilePage.PersistedSteps`, `ProfilePage.PersistedMatchesOptimistic`,
  `PlanItems.ToggleItem` and `PlanItems.ToggleAt`: each requires the step index to be at most
  the length of `checked_steps`. An index one past the end appends `true` and is modelled. An
  index further out leaves holes in a sparse JavaScript array, which `every` and `some` skip
  and JSON sends as `null`; that case is not modelled.
- `PlanCard.ProgressPercentRange`: the percentage is stated over exact reals, not IEEE
  doubles.
- `BookingHistory.FormatDuration`: the minutes are a whole number given directly; the
  `differenceInMinutes` computation and its `Unknown duration` fallback are not modelled.
- `Theme.InitialTheme`: a saved theme is kept as any string, as the source's cast allows.
  `Toggled` then maps every value other than `dark` to `dark`.
- `ChatStream.ConversationText`: only the empty case is stated as a contract, and membership
  is proved as `ConversationTextContains`. The exact join is the definition.
- `UseBookings.BookingsHook`, `UseMachines.MachinesHook`: `error` is kept as its message
  text, not as an `Error` object.
- `UseMachines.MachinesHook.GetMachine`, `UseBookings.BookingsHook.CreateBooking`,
  `UseBookings.BookingsHook.UpdateBooking`, `UseBookings.BookingsHook.DeleteBooking`: a
  rethrown failure is returned as `None` or `false`.

## Findings

| source | as written | input that shows it | evidently intended | confidence | as-written member | corrected member |
|---|---|---|---|---|---|---|
| src/components/plan/PlanBoard.tsx:48 | `groups[item.status] ?? groups.todo` looks the status up on a plain object, so a status naming an inherited member of `Object.prototype` yields that member. The following `push` then throws a TypeError and the board fails to render | an item whose status is `toString` (or `constructor`, `__proto__`, `valueOf`, …) | any status other than the three known ones falls back to the to-do bucket | not executed; needs a backend status equal to an inherited property name | PlanBoard.InheritedStatusBreaksBoard | PlanBoard.BucketOf |
| src/components/ProfilePage.tsx:39-41 | the status after a toggle is derived from the entries of `checked_steps`, not from the steps, while the card reads a missing entry as unchecked (src/components/plan/PlanCard.tsx:94) | an item with three steps and `checked_steps: []`; one click on the first step gives `[true]` and status `complete`, with the progress bar at a third | `complete` only when every step is checked | not executed; needs a stored item whose `checked_steps` is shorter than its steps | PlanCard.OneClickCompletesShortSteps | PlanCard.StepsStatus |

The toggle handlers keep the status as the page derives it. `PlanCard.StepsStatus` is the status measured against the steps; it agrees with the derived status whenever there is one entry per step, which is the case `PlanCard.ToggledBarColour` assumes.
