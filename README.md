# Laboratory-WOL in Dafny

A model of the core of Laboratory-WOL, a small Wake-on-LAN web application. The user registers lab machines (name, MAC address, IP address, description) and asks an external relay to wake them. The model covers these parts:

- **The device form** (`device_form.dfy`).
  - The MAC and IPv4 regex validators are recognisers, each proved equal to an independent reference definition.
  - The submit rule fills an error map field by field and hands a normalised record to `onSave`.
  - The input-change handler.
- **The navigation bar's fallback chains** (`navigation.dfy`): avatar initials and display name.
- **The dashboard page** (`dashboard.dfy`). Its device list lives in component state and is mirrored to browser storage. Add, edit, delete and mark-online are pure list transforms, committed by a class whose methods update the state.
- **The device context** (`devices_context.dfy`). An SWR cache of the user's devices, the cache transforms that update and delete apply before the server answers and wake applies after a successful answer, the payloads posted to the server, and the toasts each handler shows for each kind of answer.
- **The server** (`schema.dfy`, `server.dfy`).
  - The `devices`, `wol_queue` and `users` tables, with their declared constraints as invariants.
  - One method per route (add, update, delete, select, register) on a `Database` class. Each method returns the HTTP status and body.
- **The wake route** (`wol_send.dfy`): its ordered guards, the relay call it makes, and how the relay's outcome becomes the response.

Two shared modules support these:

- `js.dfy`: the JavaScript string primitives the code relies on. These are truthiness, `trim`, `toUpperCase`, `split`, and what a template literal prints for a missing character.
- `lists.dfy`: the `map`/`filter` shapes used on device lists.

The model follows the code, also where it departs from what such an application is usually meant to do:

- The unique index on `devices` is on the MAC alone (`src/server/db/schema.ts:21`), not on the pair (user, MAC). So a MAC one user has registered is refused for every other user with 409.
- The server stores the MAC exactly as sent. Only the client upper-cases it.
- The MAC pattern lets each of the five separators be `:` or `-` independently; they need not be uniform.
- The update route matches on the id alone, with no owner check. It answers 200 when no row matched.
- The routes read and write `userId` and `description` on devices, and a `users` table. The schema file declares none of these, so the rows here carry them.

## Model

| member | source | states |
|---|---|---|
| Js.TrimSlice | src/components/device-form.tsx:72-96 | `trim` keeps one contiguous slice of its input. There is only white space before and after it, and none at either end of it. |
| Js.TrimBlank | src/components/device-form.tsx:72-86 | A value trims to "" exactly when every code point in it is white space. This is the "required" test of each field. |
| Js.TrimIdempotent | src/app/context/DevicesContext.tsx:66-71 | Trimming a trimmed string changes nothing. |
| Js.ToUpper | src/components/device-form.tsx:93 | `toUpperCase` maps each ASCII lower-case letter to its capital and keeps every other code point, so in this model it keeps the length. (JavaScript's full Unicode mapping does not; see "## Left out".) |
| Js.TrimToUpperTrimmed | src/app/context/DevicesContext.tsx:68 | A trimmed, upper-cased MAC is still trimmed. |
| Js.JoinSplit | src/components/navigation.tsx:32 | Joining the parts of `split(' ')` with the separator gives back the string. |
| Js.SplitJoin | src/components/navigation.tsx:32 | Splitting a join of separator-free words gives back the words, so a name of n words has n parts. |
| Lists.MapWhere | src/app/dashboard/page.tsx:89-91 | `map` with a conditional keeps the length, rewrites the selected entries and keeps the others. |
| Lists.Without | src/app/dashboard/page.tsx:131 | `filter` never grows the list and keeps no selected entry. |
| Lists.WithoutAppend | src/app/dashboard/page.tsx:131 | Filtering distributes over concatenation, so the kept entries stay in their order. |
| Lists.WithoutMembers | src/app/dashboard/page.tsx:131 | An entry survives the filter exactly when it was present and is not selected. |
| Lists.WithoutLength | src/app/dashboard/page.tsx:131 | The filter shortens the list by exactly the number of selected entries. |
| DeviceForm.FormData.With | src/components/device-form.tsx:101 | `{ ...prev, [field]: value }` sets that field and leaves the other three as they were. |
| DeviceForm.MatchMacGroupsShape | src/components/device-form.tsx:57 | The recogniser for n separated groups matches exactly the strings of length 3n+2 that have a separator at every third position and hex digits elsewhere. |
| DeviceForm.ValidateMacAddressIff | src/components/device-form.tsx:56-59 | `validateMacAddress` accepts exactly the 17-character strings of six hex pairs. Each of the five separators is independently `:` or `-`. |
| DeviceForm.MixedSeparatorsAccepted | src/components/device-form.tsx:57 | "00:11-22:33-44:55", which mixes separators, is accepted. |
| DeviceForm.ToUpperKeepsMac | src/components/device-form.tsx:56-59 | Upper-casing a valid MAC address keeps it valid. Under the ASCII case map, upper-casing also never turns an invalid string into a valid one. |
| DeviceForm.MacHasNoWhiteSpace | src/components/device-form.tsx:56-59 | A valid MAC contains no white space, so trimming leaves it unchanged. |
| DeviceForm.OctetIff | src/components/device-form.tsx:63 | The octet alternatives match exactly the strings of one to three decimal digits whose value is at most 255, leading zeros included. |
| DeviceForm.MatchDottedOctetsSplit | src/components/device-form.tsx:63 | The repeated `octet\.` group matches exactly when the dot-split has the right number of parts and every part is an octet. |
| DeviceForm.ValidateIpAddressIff | src/components/device-form.tsx:61-65 | `validateIpAddress` accepts exactly four dot-separated decimal octets of value at most 255. |
| DeviceForm.LeadingZerosAccepted | src/components/device-form.tsx:61-65 | "01.099.0.255" is accepted. |
| DeviceForm.OctetAbove255Rejected | src/components/device-form.tsx:61-65 | "256.1.1.1" is refused. |
| DeviceForm.DottedOctetsChars | src/components/device-form.tsx:61-65 | An accepted address holds only digits and dots. |
| DeviceForm.IpHasNoWhiteSpace | src/components/device-form.tsx:61-65 | A valid IP contains no white space, so trimming leaves it unchanged. |
| DeviceForm.SubmitErrorsEntry | src/components/device-form.tsx:70-86 | A field has an entry in the error map exactly when its check fails, and the entry is that check's message. |
| DeviceForm.SubmitAcceptedIff | src/components/device-form.tsx:70-97 | The error map is empty exactly when the name is non-blank, and the MAC and IP are each non-blank and valid. |
| DeviceForm.BlankGetsRequired | src/components/device-form.tsx:76-86 | A blank MAC or IP gets the "required" message. The format message appears only for a non-blank value. |
| DeviceForm.PaddedMacRejected | src/components/device-form.tsx:76-80 | Emptiness is tested on the trimmed value but the format on the raw one. So a MAC with white space anywhere, surrounding spaces included, gets the format message, whatever the other fields hold. |
| DeviceForm.PaddedIpRejected | src/components/device-form.tsx:82-86 | Likewise, an IP with white space anywhere gets the format message, whatever the other fields hold. |
| DeviceForm.SavedRecord | src/components/device-form.tsx:91-96 | The saved record has the name trimmed and non-empty, and the MAC equal to the typed MAC upper-cased and still valid. The IP is as typed and valid, the description is trimmed, and there is no id and no `isOnline`. |
| DeviceForm.DeviceFormComponent.constructor | src/components/device-form.tsx:37-54 | The form starts empty; when editing, it starts with the device's values and a missing description as "". |
| DeviceForm.DeviceFormComponent.HandleSubmit | src/components/device-form.tsx:67-98 | The new error map is the submit rule's map. `onSave` is called exactly when that map is empty, and then with the normalised record. |
| DeviceForm.DeviceFormComponent.HandleInputChange | src/components/device-form.tsx:100-105 | Only the named field changes. That field's message becomes "" if one was shown, and every other message stays. |
| Navigation.InitialsFirstLast | src/components/navigation.tsx:25-27 | With first and last name, the initials are their first characters, upper-cased. |
| Navigation.InitialsPrecedence | src/components/navigation.tsx:24-42 | The order is first+last, first, full name, first e-mail, then "U". No user gives "U". |
| Navigation.InitialsFromFullName | src/components/navigation.tsx:31-37 | A full name of space-separated non-empty words gives the first characters of its first and last words, or of its only word. |
| Navigation.InitialsTrailingSpace | src/components/navigation.tsx:31-37 | As written, the full name "Taro " gives "TUNDEFINED". |
| Navigation.InitialsCorrectedLength | src/components/navigation.tsx:24-42 | The corrected initials always have one or two characters. When there is no first name and the full name is non-empty with no empty part, they agree with the code as written. |
| Navigation.DisplayNameNonEmpty | src/components/navigation.tsx:44-58 | The display name is never empty. |
| Navigation.DisplayNamePrecedence | src/components/navigation.tsx:44-58 | The order is full name, "first last", first name, first e-mail, then "ユーザー". |
| Navigation.InitialsMatchDisplayName | src/components/navigation.tsx:24-58 | When the display name is "first last", the initials are the upper-cased first characters of its two words. |
| Navigation.InitialsFollowDisplayName | src/components/navigation.tsx:24-58 | Without a full name, and with a first name or an e-mail, the first initial is the display name's first character upper-cased. |
| Dashboard.MarkOnlineChangesOnlyMatch | src/app/dashboard/page.tsx:89-91 | The wake update sets `isOnline` on the entries with that id and changes nothing else in any entry. |
| Dashboard.ReplaceByIdSpec | src/app/dashboard/page.tsx:105-109 | Editing replaces each entry with that id by the form data plus the id, so `isOnline` comes from the form and is not carried over. Other entries and the length stay. |
| Dashboard.RemoveByIdSpec | src/app/dashboard/page.tsx:130-131 | Deleting drops every entry with that id and keeps the others in order. The length falls by the number of matches, so the list gets shorter exactly when some entry has that id. |
| Dashboard.RemoveAbsentId | src/app/dashboard/page.tsx:130-131 | Deleting an id that no entry has leaves the list unchanged. |
| Dashboard.UniqueIdsKept | src/app/dashboard/page.tsx:104-133 | Marking online, editing and deleting keep ids unique. Adding does too when the new id is unused. |
| Dashboard.SampleIdsUnique | src/app/dashboard/page.tsx:48-65 | The two sample devices have distinct ids. |
| Dashboard.SampleMacsValid | src/app/dashboard/page.tsx:48-65 | The sample MAC addresses pass the form's validator. |
| Dashboard.SampleIpsValid | src/app/dashboard/page.tsx:48-65 | The sample IP addresses pass the form's validator. |
| Dashboard.DashboardPage.constructor | src/app/dashboard/page.tsx:24-69 | After loading, the list is the stored list, or else the two sample devices, which are also stored. |
| Dashboard.DashboardPage.HandleWakeOnLan | src/app/dashboard/page.tsx:71-102 | An ok response marks the device online in state and storage and shows a success toast naming the device. Any other outcome leaves the list alone and shows the error toast. Loading ends false. |
| Dashboard.DashboardPage.EditDevice | src/app/dashboard/page.tsx:236-239 | Opens the form on that device. The list and the toasts are unchanged. |
| Dashboard.DashboardPage.OpenAddForm | src/app/dashboard/page.tsx:177 | Opens the form and leaves `editingDevice`, the list and the toasts as they are. |
| Dashboard.DashboardPage.CancelForm | src/app/dashboard/page.tsx:283-286 | Closes the form and clears `editingDevice`. The list and the toasts are unchanged. |
| Dashboard.DashboardPage.HandleSaveDevice | src/app/dashboard/page.tsx:104-128 | Editing replaces by id. Adding appends one device at the end, with the given id and `isOnline` false. Either way the form closes, `editingDevice` is cleared, storage holds the list that state holds, and one success toast naming the device is shown ("updated" or "added"). |
| Dashboard.DashboardPage.HandleDeleteDevice | src/app/dashboard/page.tsx:130-135 | The list in state and storage becomes the filtered list, and the "deleted" success toast is shown. |
| DevicesContext.Fetcher | src/app/context/DevicesContext.tsx:28-39 | Without a user id it throws "User not authenticated" before any request. Otherwise it posts the id. An ok response returns the body's devices, or `[]` when the body has none. A failed response throws the body's message, or "Failed to fetch devices" when that is absent or empty. |
| DevicesContext.UseDevices | src/app/context/DevicesContext.tsx:218-224 | It throws exactly when there is no provider; otherwise it returns the context value. |
| DevicesContext.ApplyUpdateSpec | src/app/context/DevicesContext.tsx:95-108 | The optimistic update rewrites exactly the entries with that id. In them it keeps id and `isOnline`, trims the name, trims and upper-cases the MAC, and sets the description to the trimmed text or "". |
| DevicesContext.ApplyDeleteSpec | src/app/context/DevicesContext.tsx:145 | The optimistic delete drops every entry with that id and keeps the rest in order. |
| DevicesContext.ApplyWakeSpec | src/app/context/DevicesContext.tsx:185-191 | A successful wake marks the entries with that id online and changes nothing else. |
| DevicesContext.AddPayloadNormalised | src/app/context/DevicesContext.tsx:66-71 | Normalising the add payload a second time gives it back unchanged. Under the ASCII case map, its MAC is valid exactly when the trimmed input is. |
| DevicesContext.UpdatePayloadMatchesCache | src/app/context/DevicesContext.tsx:95-119 | The update request carries id, name and MAC only. Its name and MAC are those the optimistic entry shows. |
| DevicesContext.WakeRefusalMessage | src/app/context/DevicesContext.tsx:192-197 | A refused wake is rethrown with a non-empty message, so the catch's fallback text never replaces it. |
| DevicesContext.DeviceProvider.constructor | src/app/context/DevicesContext.tsx:43-53 | The provider starts from the signed-in user and SWR's cache. |
| DevicesContext.DeviceProvider.AddDevice | src/app/context/DevicesContext.tsx:56-90 | Without a user id it shows an error and sends nothing. Otherwise it sends the normalised payload. It refetches only after a success and never touches the cache. |
| DevicesContext.DeviceProvider.UpdateDevice | src/app/context/DevicesContext.tsx:93-140 | The cache is rewritten before the answer arrives. A refusal's toast shows the body's message, which may be absent. A thrown request shows its own error, refetches, and leaves the promise toast loading. |
| DevicesContext.DeviceProvider.DeleteDevice | src/app/context/DevicesContext.tsx:143-173 | Entries leave the cache before the answer arrives. A thrown request restores the snapshot, a refusal keeps the optimistic list, and a success refetches. |
| DevicesContext.DeviceProvider.SendWakeOnLan | src/app/context/DevicesContext.tsx:176-199 | It posts the MAC. Only a successful answer marks the device online, and each failure shows its message. |
| Schema.AcceptedMacFits | src/server/db/schema.ts:16 | Every MAC the validator accepts is exactly 17 characters, the column's length. |
| Schema.InsertKeepsDevicesOk | src/server/db/schema.ts:11-24 | Appending a row with a new id above all others and a new MAC that fits keeps ids unique, MACs unique and MACs within 17. |
| Schema.WithoutKeepsDevicesOk | src/server/db/schema.ts:11-24 | Removing rows keeps the table's constraints. |
| Server.ParseSerialRoundTrip | src/server/route/device/update.ts:27-31 | Every id the sequence can hand out, written in decimal, is read back by the engine as itself. |
| Server.Upsert | src/server/route/user/register.ts:18-28 | After the upsert the id maps to the new email and name, other users are untouched, and the keys gain only that id. |
| Server.UpsertIdempotent | src/server/route/user/register.ts:18-28 | Registering twice with the same fields leaves the table as after the first time. |
| Server.SetNameMacSpec | src/server/route/device/update.ts:27-31 | The update sets name and MAC on the rows with that id and keeps every other column and row. With no such row it changes nothing. |
| Server.SetNameMacKeepsDevicesOk | src/server/route/device/update.ts:27-34 | Without a MAC clash, the update keeps the table's constraints. |
| Server.DeleteOwnedSpec | src/server/route/device/delete.ts:15-18 | It removes exactly the rows with that id and that owner. Other users' rows are never removed, the rest keep their order, and the row count falls by the number removed. |
| Server.RowsOfSpec | src/server/route/device/select.ts:16 | The select returns exactly the user's rows. The model lists them in table order, which SQL does not promise (see "## Left out"). |
| Server.Database.constructor | src/server/db/schema.ts:5-24 | Empty tables satisfy the constraints, and the id sequence starts at 1. |
| Server.Database.Add | src/server/route/device/add.ts:9-49 | An invalid body gives 400 and writes nothing. A MAC present under any user gives 409, uses up an id and writes nothing. Otherwise exactly one row is inserted, with the fields as sent, and the answer is 200. A failure gives 500. |
| Server.Database.Update | src/server/route/device/update.ts:10-37 | An invalid body gives 400. Otherwise name and MAC are set on the row with that id, with no owner check, and the answer is 200 even when no row matched. A non-numeric id, a MAC clash or a failure gives 500 and writes nothing. |
| Server.Database.Delete | src/server/route/device/delete.ts:8-31 | A missing id or user id gives 401. Otherwise exactly the owned rows with that id are removed; none removed gives 404, some gives 200. A failure gives 500 with the error's text. |
| Server.Database.Select | src/server/route/device/select.ts:8-31 | A missing user id gives 400, and a failure gives 500. Otherwise the answer is exactly the user's rows with `count` equal to their number; nothing is written. |
| Server.Database.Register | src/server/route/user/register.ts:7-35 | Any missing field gives 400 and no write. Otherwise the user row is upserted and the answer is 200 with message "". A failure gives 500. |
| WolSend.Send | src/server/route/wol/send.ts:5-48 | A relay call is made exactly when the MAC, username and key are all present. The response succeeds exactly when the call was made and the relay answered ok. |
| WolSend.MacCheckedFirst | src/server/route/wol/send.ts:8-19 | A missing MAC gives 400 with no relay call, whatever the environment holds. |
| WolSend.MissingCredentials | src/server/route/wol/send.ts:12-19 | A missing username or key gives 500 with no relay call. |
| WolSend.RelayCallMade | src/server/route/wol/send.ts:12-33 | The feed key is not checked: when it is unset, the URL names the feed "undefined". The body's value is the MAC unchanged, and the key goes in the header. |
| WolSend.OutcomeToResponse | src/server/route/wol/send.ts:35-47 | Relay ok gives 200 with the relay's data. Not-ok gives `success: false` with the default status 200. An exception gives 500. |

## Left out

- I/O of every kind is a parameter:
  - the HTTP round trips, the relay `fetch`, the database engine's own failures, `localStorage`, SWR's refetch, toasts and `Date.now()`.
  - Responses and faults are arguments, and a refetch is a counter.
  - A toast is a record appended to a list: `DeviceProvider.toasts` in the device context and `DashboardPage.toasts` on the dashboard. Display, timing and dismissal are not modelled.
- Asynchrony is not modelled. Each handler runs to completion as one step, and the optimistic cache write and the server's answer happen in that order. Interleavings of concurrent handlers, and a refetch landing between them, are not captured.
- DevicesContext.DeviceProvider.DeleteDevice: the snapshot restored after a thrown request is the cache at the time of the call. The code restores the `devices` value captured by the render that created the handler, which can be older.
- JSON parsing of request bodies is not modelled. A body field is a string or absent, and a non-string value counts as absent. A body that is not JSON at all is not modelled either. The routes without a request schema test only truthiness, so a truthy non-string value goes through there. Among the answers that differ from the code as a result:
  - Server.Database.Add: the request schema in `src/server/route/device/add.ts` answers 400 to `description: null` or any other non-string description. The model takes such a value as absent and can answer 200.
  - Server.Database.Delete: `src/server/route/device/delete.ts` has no schema and accepts a numeric `id` or a numeric `userId`. The model takes either as missing and answers 401, where the code goes on to the delete.
  - Server.Database.Select: a numeric `userId` passes the check at `src/server/route/device/select.ts:12`, and the code goes on to the query. The model answers 400.
  - Server.Database.Register: numeric `userId`, `email` or `name` pass the check at `src/server/route/user/register.ts:11`, and the code goes on to the upsert. The model answers 400.
  - WolSend.Send: a numeric `macAddress` passes the check at `src/server/route/wol/send.ts:8`, and the code calls the relay with that number as `value`. The model answers 400.
- The 400 answer of the request-schema middleware is modelled only as status 400, `success: false` and no message. Its error details are not.
- Server.Database.Delete: on a non-numeric id, the model states only that the status is 500 and `success` is false. The message carries the engine's error text, which is not modelled.
- Server.RowsOfSpec / Server.Database.Select: the select in `src/server/route/device/select.ts` has no `ORDER BY`, so the database promises no row order. The model returns the user's rows in table order, which is one of the orders the database may give.
- Server.ParseSerial, Server.Database.Update, Server.Database.Delete: the engine's integer reading also accepts a sign and surrounding blanks. The model takes only plain digit strings and treats anything else as an error. So for an id such as `" 5"` or `"+5"`, the code updates or deletes row 5, while the model's Update and Delete answer 500.
- `createdAt` is declared non-null but never supplied by the add route. It is omitted from the device row. `updatedAt` and the foreign key from devices to users are not part of the schema shown and are not modelled.
- The `wol_queue` table is in the model's state with its constraints, but no route writes it, so it only ever stays unchanged.
- Js.ToUpper: models `toUpperCase` on the ASCII letters only. JavaScript applies the full Unicode mapping, which can change the length (`'ß'` becomes `"SS"`, `'ﬀ'` becomes `"FF"`). The inputs it is applied to are not restricted to ASCII, so three statements of this model hold only under the ASCII map:
  - Navigation.InitialsCorrectedLength: a name starting with `'ß'` gives initials longer than two characters in JavaScript.
  - DevicesContext.AddPayloadNormalised: the MAC is upper-cased before any check (`src/app/context/DevicesContext.tsx:68,102,117`). In JavaScript, the unvalidated `"00:11:22:33:44:ﬀ"` becomes the valid `"00:11:22:33:44:FF"`, so the "valid exactly when" direction fails.
  - DeviceForm.ToUpperKeepsMac: for the same reason, in JavaScript upper-casing can turn an invalid string into a valid MAC. Its other half, that a valid MAC stays valid, holds there too, because a valid MAC is ASCII.
- Strings are sequences of code points. UTF-16 surrogate pairs, which `s[0]` would split, are not modelled.
- The authentication redirect, the logout handler and the page markup of the dashboard and the navigation bar are UI and are left out. So are the pages and middleware around the core, and the routing glue.

## Findings

| source | as written | input that shows it | evidently intended | confidence | as-written member | corrected member |
|---|---|---|---|---|---|---|
| src/components/navigation.tsx:31-37 | `fullName.split(' ')` keeps empty parts. Taking `[0]` of an empty part gives `undefined`, which the template literal prints as "undefined". | user with no first name and full name "Taro " (a trailing space) gives the initials "TUNDEFINED" | the first letters of the first and last words, here "T", and at most two characters | not executed | Navigation.InitialsTrailingSpace | Navigation.InitialsCorrectedLength |
