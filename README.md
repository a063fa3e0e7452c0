# PBAP vCard manager — a verified model

`BluetoothPbapVcardManager` is the part of the Android Bluetooth Phone Book
Access Profile (PBAP) server that turns the phone's contacts and call log
into what a car kit or headset asks for:

- vCard listings of the phonebook and the call history;
- contact names looked up by number;
- object sizes;
- vCards streamed over an OBEX GET operation.

It sits between three foreign parts: the Android content providers, the
vCard composer library and the OBEX stack. This project models its own
logic, with those parts reduced to inputs.

- **Attribute mask** (`FilterMask`, `VcardFilter.FilterVcard.SetFilter`).
  The PBAP Filter mask is a byte array holding a big-endian integer
  (section 5.1.4.1 of the Bluetooth Phone Book Access Profile v1.1).
  `checkbit` reads one bit of it. `setFilter` reads the ten bits the
  manager cares about into ten flags, and throws for a null or too-short
  array.
- **Property stripping** (`FilterSpec`, `VcardFilter`). `applyFilter`
  splits a vCard into lines and runs nine fixed passes over one mutable
  `attr[]` array: FN, BDAY, ADR, EMAIL, TITLE, ORG, NOTE, NICKNAME, URL.
  - Each pass blanks every line that starts with its tag.
  - It also blanks the lines after such a line that `checkValidFilter` does
    not recognise, never touching the last line.
  - The surviving non-empty lines are then joined, each followed by `"\n"`.
  
  The passes work in place on an `array<string>`. They are proved equal to
  a closed form, `FilterSpec.FilteredVcard`, and the source's properties
  are proved about that closed form.
- **Telephone lines** (`PhoneNumbers`). `StripTelephoneNumber` deletes
  `(`, `)`, `-` and space from `TEL` lines and re-joins the non-empty
  lines. The composer's phone-number callback writes the dial-string
  PAUSE as `p` and WAIT as `w`.
- **Windows** (`WindowResolution`). The three `composeAndSend*` entry
  points turn a 1-based window or offset over a query's rows into a
  condition on `_ID`.
- **Export loop** (`ExportSpec`, `VcardExport`). `composeAndSendVCards`
  drives a composer, the OBEX server's abort flag, the server operation's
  output stream and `HandlerForStringBuffer`, as classes whose methods
  update their fields.
  - `ExportSpec.Export` is the whole run as a function of the request and
    its environment: the composer's entries, which stream steps fail, and
    when another thread raises the abort flag.
  - `VcardExport.ComposeAndSendVCards` is proved to follow it.
  - The properties of the run are lemmas about `Export`.
- **Lists and sizes** (`PhonebookLists`). These cover the owner-first
  `"name,id"` listing, the call-history names, the de-duplicated contact
  names for a number, and the contacts, call-history and phonebook sizes.

The source is `src/com/android/bluetooth/pbap/BluetoothPbapVcardManager.java`.
The model follows the code in these places, where a reader of the component
or of PBAP might expect otherwise:

- An invalid window (`startPoint < 1 || startPoint > endPoint`) answers
  `OBEX_HTTP_INTERNAL_ERROR`, not a client error.
- The IM and SIP blocks of `applyFilter` rewrite only a local copy of the
  vCard string that never reaches the result. No IM or SIP line is removed.
- A null filter mask is not "no filtering": unless `ignorefilter` is set,
  `setFilter(null)` throws.
- An abort request that arrives when no entry is left is never looked at.
  The flag stays raised after the call (`ExportSpec.StaleAbortSurvives`).
- `getContactsSize` is 0 when its query fails, although the listing still
  holds the owner entry (`PhonebookLists.ContactsSizeCountsListing`).

## Model

| member | source | states |
|---|---|---|
| FilterMask.CheckBitIndex | src/com/android/bluetooth/pbap/BluetoothPbapVcardManager.java:787-793 | `checkbit(b, f)` is bit `b % 8` of byte `f[len - 1 - b / 8]` |
| FilterMask.CheckBitIsMaskBit | src/com/android/bluetooth/pbap/BluetoothPbapVcardManager.java:787-793 | `checkbit(b, f)` is bit `b` of the mask read as one big-endian unsigned integer |
| FilterMask.AddressableBytes | src/com/android/bluetooth/pbap/BluetoothPbapVcardManager.java:732-769 | FN, PHOTO, BDAY and ADR need one byte, EMAIL and TITLE two, ORG, NOTE, URL and NICKNAME three: `setFilter` needs a mask of at least three bytes |
| FilterMask.FullMaskOverwrites | src/com/android/bluetooth/pbap/BluetoothPbapVcardManager.java:773-785 | a mask of three or more bytes decides all ten flags, whatever they were before |
| VcardFilter.FilterVcard.constructor | src/com/android/bluetooth/pbap/BluetoothPbapVcardManager.java:729-771 | a new filter has every flag set, so `isPhotoEnabled()` holds |
| VcardFilter.FilterVcard.SetFilter | src/com/android/bluetooth/pbap/BluetoothPbapVcardManager.java:773-793 | throws exactly for a null mask or one shorter than three bytes; a null mask changes no flag; a short mask sets the flags of the bytes it has before the throw; otherwise every flag is its mask bit |
| VcardFilter.FilterVcard.ApplyFilter | src/com/android/bluetooth/pbap/BluetoothPbapVcardManager.java:811-1008 | returns the closed form `FilteredVcard` for the object's current flags |
| VcardFilter.FilterLines | src/com/android/bluetooth/pbap/BluetoothPbapVcardManager.java:811-1008 | split, nine passes, the IM/SIP blocks and the join return `FilteredVcard(vCard, f, vCardType21)` |
| VcardFilter.RunPasses | src/com/android/bluetooth/pbap/BluetoothPbapVcardManager.java:816-980 | after the nine passes `attr[]` is the closed form `Blank` of the split lines for the properties applyFilter strips |
| VcardFilter.FilterPass | src/com/android/bluetooth/pbap/BluetoothPbapVcardManager.java:835-851 | one guarded pass extends the closed form by its property, whether or not the `vCard.contains(TAG)` guard lets it run |
| VcardFilter.RemoveProperty | src/com/android/bluetooth/pbap/BluetoothPbapVcardManager.java:836-850 | the two nested loops of one pass leave `attr[]` as `Blank(old attr, [p])` |
| VcardFilter.BlankContinuation | src/com/android/bluetooth/pbap/BluetoothPbapVcardManager.java:841-848 | the inner loop blanks exactly the continuation lines after a matching line, stopping at a recognised line and before the last element, and leaves everything else alone |
| FilterSpec.TagIsRecognised | src/com/android/bluetooth/pbap/BluetoothPbapVcardManager.java:799-809 | every line that starts with a pass tag is recognised by `checkValidFilter`; the empty line is not |
| FilterSpec.DisabledPropertiesIff | src/com/android/bluetooth/pbap/BluetoothPbapVcardManager.java:816-980 | a property's pass runs exactly when FN is clear in a 2.1 vCard, when NICKNAME is clear or the vCard is 2.1, or when any other property's flag is clear |
| FilterSpec.StrippedPropertiesIff | src/com/android/bluetooth/pbap/BluetoothPbapVcardManager.java:816-980 | after the first `k` passes a property is stripped exactly when its pass is among them and runs |
| FilterSpec.CarryIsNearestRecognised | src/com/android/bluetooth/pbap/BluetoothPbapVcardManager.java:822-829 | a line is dropped as a continuation exactly when it is not recognised and the nearest earlier recognised line starts with a disabled tag |
| FilterSpec.BlankStep | src/com/android/bluetooth/pbap/BluetoothPbapVcardManager.java:816-980 | running one more pass on the array the earlier passes left equals the closed form for all of them: a later pass walking over lines an earlier pass blanked changes nothing |
| FilterSpec.BlankSkip | src/com/android/bluetooth/pbap/BluetoothPbapVcardManager.java:835-837 | a pass whose tag starts no line changes nothing |
| FilterSpec.KeptLinesFacts | src/com/android/bluetooth/pbap/BluetoothPbapVcardManager.java:1002-1006 | every kept line is a non-empty, newline-free line of the input that starts with no disabled tag |
| FilterSpec.AllEnabledKeepsEveryLine | src/com/android/bluetooth/pbap/BluetoothPbapVcardManager.java:811-1008 | with every flag set and a 3.0 vCard the result is the non-empty lines re-joined |
| FilterSpec.FilterIdempotent | src/com/android/bluetooth/pbap/BluetoothPbapVcardManager.java:811-1008 | filtering twice with the same flags and version equals filtering once |
| JavaStrings.JoinNonEmpty | src/com/android/bluetooth/pbap/BluetoothPbapVcardManager.java:1002-1006 | the closing loop returns every non-empty element of `attr[]` in order, each followed by `"\n"`; the same loop closes `StripTelephoneNumber` (lines 661-665) |
| JavaStrings.SplitJoinLines | src/com/android/bluetooth/pbap/BluetoothPbapVcardManager.java:1002-1006 | splitting the join of non-empty, newline-free lines gives those lines back (`[""]` for none) |
| JavaStrings.SplitOccur | src/com/android/bluetooth/pbap/BluetoothPbapVcardManager.java:835-837 | a split line starting with a tag means the vCard contains the tag |
| PhoneNumbers.StripTelephoneNumber | src/com/android/bluetooth/pbap/BluetoothPbapVcardManager.java:649-668 | the in-place loop and the join return `StrippedVcard(vCard)` |
| PhoneNumbers.CleanLine | src/com/android/bluetooth/pbap/BluetoothPbapVcardManager.java:652-657 | the four `replace` calls on a `TEL` line give `StripLine` |
| PhoneNumbers.StripLineSpec | src/com/android/bluetooth/pbap/BluetoothPbapVcardManager.java:652-657 | a `TEL` line loses exactly its `(`, `)`, `-` and space characters and stays a `TEL` line; every other line is unchanged |
| PhoneNumbers.StrippedVcardLines | src/com/android/bluetooth/pbap/BluetoothPbapVcardManager.java:660-664 | the result read back as lines is the stripped non-empty lines in their original order |
| PhoneNumbers.StripIdempotent | src/com/android/bluetooth/pbap/BluetoothPbapVcardManager.java:649-668 | stripping twice equals stripping once |
| PhoneNumbers.TranslateSpec | src/com/android/bluetooth/pbap/BluetoothPbapVcardManager.java:548-557 | the callback maps each PAUSE to `p` and each WAIT to `w`, keeps every other character and the length, and leaves no PAUSE or WAIT |
| PhoneNumbers.TranslateIdempotent | src/com/android/bluetooth/pbap/BluetoothPbapVcardManager.java:548-557 | translating a translated number changes nothing |
| WindowResolution.ResolveCallLogWindow | src/com/android/bluetooth/pbap/BluetoothPbapVcardManager.java:343-406 | rejected exactly for `startPoint < 1 \|\| startPoint > endPoint`; otherwise it keeps the call-type selection and adds no visibility clause |
| WindowResolution.ResolvePhonebookWindow | src/com/android/bluetooth/pbap/BluetoothPbapVcardManager.java:408-456 | rejected exactly for a bad window; otherwise visible contacts only, with no type selection |
| WindowResolution.ResolveOneVcard | src/com/android/bluetooth/pbap/BluetoothPbapVcardManager.java:458-513 | rejected exactly for `offset < 1` or an unsupported order; otherwise one `_ID=` condition without type or visibility clause |
| WindowResolution.PhonebookWindowExact | src/com/android/bluetooth/pbap/BluetoothPbapVcardManager.java:416-451 | over ascending ids the selection admits the id of row `k` exactly when `startPoint - 1 <= k <= endPoint - 1` |
| WindowResolution.CallLogWindowExact | src/com/android/bluetooth/pbap/BluetoothPbapVcardManager.java:359-393 | over descending ids the swapped range admits the id of row `k` exactly when `startPoint - 1 <= k <= endPoint - 1` |
| WindowResolution.OneVcardExact | src/com/android/bluetooth/pbap/BluetoothPbapVcardManager.java:467-508 | over distinct ids the selection admits exactly the id of row `offset - 1` |
| WindowResolution.FailedQuerySelectsZero | src/com/android/bluetooth/pbap/BluetoothPbapVcardManager.java:359-384 | when the query fails the ids stay 0 and every selection admits `_ID` 0 and nothing else |
| ExportSpec.EntryLoop | src/com/android/bluetooth/pbap/BluetoothPbapVcardManager.java:565-600 | every way out of the loop answers `OBEX_HTTP_OK` or `OBEX_HTTP_INTERNAL_ERROR` and terminates composer and buffer; an abort exit answers OK with the flag cleared; the entries pulled stay within the composer's |
| ExportSpec.Export | src/com/android/bluetooth/pbap/BluetoothPbapVcardManager.java:515-647 | an exception escapes exactly when `setFilter` throws, and composer and buffer are terminated exactly when it does not |
| ExportSpec.InitFailureWritesNothing | src/com/android/bluetooth/pbap/BluetoothPbapVcardManager.java:560-563 | a failed `composer.init` skips `onInit`: INTERNAL_ERROR, stream never opened, nothing written, nothing pulled |
| ExportSpec.OwnerWrittenFirst | src/com/android/bluetooth/pbap/BluetoothPbapVcardManager.java:701-712 | once the stream opens, the owner vCard is the first thing on it exactly when its write succeeds |
| ExportSpec.LoopOnlyAppends | src/com/android/bluetooth/pbap/BluetoothPbapVcardManager.java:565-592 | the loop only appends to what is already on the stream |
| ExportSpec.AbortAnswersOk | src/com/android/bluetooth/pbap/BluetoothPbapVcardManager.java:566-570 | a raised flag before an entry that remains sets `op.isAborted`, clears the flag and answers OK with nothing more pulled or written |
| ExportSpec.NoEntryPulledAfterAbort | src/com/android/bluetooth/pbap/BluetoothPbapVcardManager.java:566-570 | no entry is pulled at an iteration before which an abort was requested; a flag already up stops the loop before any entry |
| ExportSpec.StaleAbortSurvives | src/com/android/bluetooth/pbap/BluetoothPbapVcardManager.java:565-570 | the flag is still up afterwards exactly when it was up at the start and no entry remained |
| ExportSpec.PulledBeforeLastPresent | src/com/android/bluetooth/pbap/BluetoothPbapVcardManager.java:571-576 | every entry pulled before the last one was non-null: nothing is pulled after a null entry |
| ExportSpec.NullEntryStops | src/com/android/bluetooth/pbap/BluetoothPbapVcardManager.java:571-576 | a run whose last pulled entry is null answers `OBEX_HTTP_INTERNAL_ERROR`, and a run that answers OK pulled no null entry |
| ExportSpec.AllEntriesDelivered | src/com/android/bluetooth/pbap/BluetoothPbapVcardManager.java:565-592 | without aborts, null entries or failing writes, the loop writes every remaining entry in order and answers OK |
| ExportSpec.ContactsOkIff | src/com/android/bluetooth/pbap/BluetoothPbapVcardManager.java:571-591 | without aborts a contacts run answers OK exactly when no entry is null and every write succeeds |
| ExportSpec.CallLogIgnoresWriteFailures | src/com/android/bluetooth/pbap/BluetoothPbapVcardManager.java:614-632 | without aborts or null entries a call-log run pulls every entry and answers OK whatever the writes do |
| ExportSpec.ContactsDelivered | src/com/android/bluetooth/pbap/BluetoothPbapVcardManager.java:578-591 | a clean contacts run writes the owner vCard, then each entry after `applyFilter` (unless ignored) and `StripTelephoneNumber`, in composer order |
| ExportSpec.CallLogDelivered | src/com/android/bluetooth/pbap/BluetoothPbapVcardManager.java:620-631 | a clean call-log run writes every entry exactly as the composer made it, in order |
| ExportSpec.TerminatedUnlessThrown | src/com/android/bluetooth/pbap/BluetoothPbapVcardManager.java:593-600 | composer and buffer are terminated on every exit except the `setFilter` exception |
| ExportSpec.IgnoredFilterKeepsPhoto | src/com/android/bluetooth/pbap/BluetoothPbapVcardManager.java:523-538 | with `ignorefilter` nothing throws and the photo stays enabled, so no `FLAG_REFRAIN_IMAGE_EXPORT` |
| VcardExport.PbapObexServer.Poll | src/com/android/bluetooth/pbap/BluetoothPbapVcardManager.java:566 | the read of `sIsAborted` sees the flag raised before it, or raised by the other thread just then |
| VcardExport.PbapObexServer.Clear | src/com/android/bluetooth/pbap/BluetoothPbapVcardManager.java:568 | `sIsAborted = false` |
| VcardExport.ServerOperation.OpenOutputStream | src/com/android/bluetooth/pbap/BluetoothPbapVcardManager.java:703 | the stream is open unless opening throws |
| VcardExport.ServerOperation.Write | src/com/android/bluetooth/pbap/BluetoothPbapVcardManager.java:692-693 | each write attempt is numbered; it reaches the stream unless that attempt throws |
| VcardExport.ServerOperation.Close | src/com/android/bluetooth/pbap/BluetoothPbapVcardManager.java:719 | `closeStream` closes the operation and changes nothing else |
| VcardExport.EntryComposer.SetVcardType | src/com/android/bluetooth/pbap/BluetoothPbapVcardManager.java:530-541 | the composer is created for the chosen vCard type |
| VcardExport.EntryComposer.SetPhoneNumberTranslationCallback | src/com/android/bluetooth/pbap/BluetoothPbapVcardManager.java:546-558 | the PAUSE/WAIT callback is installed |
| VcardExport.EntryComposer.Init | src/com/android/bluetooth/pbap/BluetoothPbapVcardManager.java:560 | `init` records the selection and puts the cursor on the first entry |
| VcardExport.EntryComposer.CreateOneEntry | src/com/android/bluetooth/pbap/BluetoothPbapVcardManager.java:571 | returns the entry under the cursor and moves on |
| VcardExport.EntryComposer.Terminate | src/com/android/bluetooth/pbap/BluetoothPbapVcardManager.java:594-596 | the composer is terminated |
| VcardExport.HandlerForStringBuffer.constructor | src/com/android/bluetooth/pbap/BluetoothPbapVcardManager.java:680-687 | keeps the operation and the owner vCard |
| VcardExport.HandlerForStringBuffer.Write | src/com/android/bluetooth/pbap/BluetoothPbapVcardManager.java:689-699 | false without writing for a null vCard; otherwise one write attempt, true exactly when it reaches the stream |
| VcardExport.HandlerForStringBuffer.OnInit | src/com/android/bluetooth/pbap/BluetoothPbapVcardManager.java:701-712 | opens the stream, then writes the owner vCard if there is one; true exactly when the open and that write succeed |
| VcardExport.HandlerForStringBuffer.OnEntryCreated | src/com/android/bluetooth/pbap/BluetoothPbapVcardManager.java:714-716 | one write attempt of the entry, true exactly when it reaches the stream |
| VcardExport.HandlerForStringBuffer.OnTerminate | src/com/android/bluetooth/pbap/BluetoothPbapVcardManager.java:718-724 | closes the stream; its result is only logged |
| VcardExport.ComposeAndSendVCards | src/com/android/bluetooth/pbap/BluetoothPbapVcardManager.java:515-647 | outcome, stream contents, `op.isAborted`, abort flag, entries pulled, stream and termination state are those of `Export`; a contacts composer is set up with the version, `FLAG_REFRAIN_IMAGE_EXPORT` exactly when the photo bit is clear, and the PAUSE/WAIT callback |
| VcardExport.RunComposer | src/com/android/bluetooth/pbap/BluetoothPbapVcardManager.java:528-600 | the `try`/`finally` with `init \|\| onInit`, the loop and the two terminations follows `Export` |
| VcardExport.SendEntries | src/com/android/bluetooth/pbap/BluetoothPbapVcardManager.java:565-592 | the `while` loop follows `EntryLoop` from the first entry |
| VcardExport.SendOne | src/com/android/bluetooth/pbap/BluetoothPbapVcardManager.java:566-591 | one turn either leaves the loop as `EntryLoop` says or leaves the rest of the run unchanged |
| VcardExport.PullEntry | src/com/android/bluetooth/pbap/BluetoothPbapVcardManager.java:571-591 | pull, null check, preparation and write of one entry, as `EntryLoop` says |
| VcardExport.PrepareEntry | src/com/android/bluetooth/pbap/BluetoothPbapVcardManager.java:578-582 | a contact entry goes through `applyFilter` unless `ignorefilter`, then through `StripTelephoneNumber` |
| VcardExport.ComposeAndSendCallLogVcards | src/com/android/bluetooth/pbap/BluetoothPbapVcardManager.java:343-406 | a bad window answers INTERNAL_ERROR and touches nothing; otherwise a call-log run without owner vCard over the resolved selection |
| VcardExport.ComposeAndSendPhonebookVcards | src/com/android/bluetooth/pbap/BluetoothPbapVcardManager.java:408-456 | a bad window answers INTERNAL_ERROR and touches nothing; otherwise a contacts run over the resolved selection |
| VcardExport.ComposeAndSendPhonebookOneVcard | src/com/android/bluetooth/pbap/BluetoothPbapVcardManager.java:458-513 | a bad offset or order answers INTERNAL_ERROR and touches nothing; otherwise a contacts run over `_ID=contactId` |
| PhonebookLists.DisplayName | src/com/android/bluetooth/pbap/BluetoothPbapVcardManager.java:276-280 | a listed name is never empty: `unknownName` stands in for a null or empty one |
| PhonebookLists.ReadContactRows | src/com/android/bluetooth/pbap/BluetoothPbapVcardManager.java:273-283 | one `"name,id"` per cursor row, in cursor order; nothing without a cursor |
| PhonebookLists.GetPhonebookNameList | src/com/android/bluetooth/pbap/BluetoothPbapVcardManager.java:248-293 | the owner first, then the contacts of the chosen order; nothing more for an unsupported order |
| PhonebookLists.PhonebookNamesOwnerFirst | src/com/android/bluetooth/pbap/BluetoothPbapVcardManager.java:255-281 | the listing starts with the owner's name and has one entry more than the rows of a supported order's cursor, just the owner without a cursor or for an unsupported order |
| PhonebookLists.PhonebookNamesShape | src/com/android/bluetooth/pbap/BluetoothPbapVcardManager.java:255-281 | the listing has one entry more than the rows, the owner's name first, and entry `k + 1` splits at its last comma into row `k`'s shown name and id |
| PhonebookLists.EntryTextParses | src/com/android/bluetooth/pbap/BluetoothPbapVcardManager.java:281 | `name + "," + id` splits back at its last comma into the name and the decimal id, whatever commas the name holds |
| PhonebookLists.Dedup | src/com/android/bluetooth/pbap/BluetoothPbapVcardManager.java:333-338 | the de-duplicated list has the same elements as the raw list and no duplicates |
| PhonebookLists.DedupKeepsFirstOrder | src/com/android/bluetooth/pbap/BluetoothPbapVcardManager.java:333-338 | its elements appear in the order of their first occurrence in the raw list |
| PhonebookLists.GetContactNamesByNumber | src/com/android/bluetooth/pbap/BluetoothPbapVcardManager.java:295-341 | the `contains` loop returns `Dedup` of the cursor's `"name,id"` texts |
| PhonebookLists.LoadCallHistoryList | src/com/android/bluetooth/pbap/BluetoothPbapVcardManager.java:205-246 | one name per call-log row, in cursor order, chosen as `CallName` |
| PhonebookLists.CallNamesWithholdNumbers | src/com/android/bluetooth/pbap/BluetoothPbapVcardManager.java:223-234 | a cached name is shown when present; otherwise the number only when its presentation is allowed, and `unknownNumber` when it is not |
| PhonebookLists.GetContactsSize | src/com/android/bluetooth/pbap/BluetoothPbapVcardManager.java:163-181 | the size is 0 exactly when the query fails (otherwise the count plus `0.vcf`) |
| PhonebookLists.GetCallHistorySize | src/com/android/bluetooth/pbap/BluetoothPbapVcardManager.java:183-203 | a failed query gives 0 |
| PhonebookLists.GetPhonebookSize | src/com/android/bluetooth/pbap/BluetoothPbapVcardManager.java:149-161 | the phonebook size is 0 exactly when the contacts query fails; a call-history size is 0 exactly when its query fails or finds nothing |
| PhonebookLists.ContactsSizeCountsListing | src/com/android/bluetooth/pbap/BluetoothPbapVcardManager.java:163-181 | over the same visible contacts the size counts the listing, owner included; a failed query gives 0 while the listing still holds the owner |
| PhonebookLists.CallHistorySizeCountsList | src/com/android/bluetooth/pbap/BluetoothPbapVcardManager.java:183-203 | over the same call-log rows the size is the length of the name list |

## Left out

- Content-provider queries, cursor positioning and SQL: each query is an input.
  - Rows become `Option<seq<...>>` and counts `Option<nat>`.
  - `None` stands for a missing cursor or a `CursorWindowAllocationException`.
  - An exception half-way through a cursor loop, leaving a partial list, is not modelled.
- A window or offset that reaches past the cursor's last row: `moveToPosition` fails there and the following `getLong` throws `CursorIndexOutOfBoundsException`, which no entry point catches. The model excludes that case with the `WindowFits` and `OffsetFits` preconditions of the three `composeAndSend*` entry points and their resolvers, so it does not model that exception.
- `createSelectionPara(type)` belongs to the OBEX server class, which is not part of this model. The call-type selection it returns is a parameter.
- The phone-number lookup URI of `getContactNamesByNumber` only chooses the query. The number is therefore not an input; the rows are.
- The vCard composers (`VCardComposer`, `BluetoothPbapCallLogComposer`) are foreign. They become a fixed sequence of entries plus an `init` result. The composer's use of the vCard type and of the PAUSE/WAIT callback is recorded, not executed.
- OBEX `Operation` and `OutputStream`: I/O. The stream is a list of written strings. Failures are given by an `openFails` flag and the set of write attempts that throw. `getBytes` and its charset are not modelled.
- `closeStream`'s result is only logged by the source and is not modelled.
- The owner vCard (`getOwnerPhoneNumberVcard`, from the profile or the call-log composer) is built by foreign calls. It is a parameter, and so are the profile name and local phone name of the listing.
- Another thread raising `sIsAborted`: concurrency is modelled as the set of loop iterations before whose check the flag is raised.
- Logging, verbose flags and timing are not modelled.
- Android resource strings are modelled as the English constants `"Unknown"`.
- `PhoneNumberUtils.PAUSE` and `WAIT` are modelled as `','` and `';'`.
- `toUpperCase` in the IM/SIP blocks is modelled for ASCII letters only. Those blocks cannot affect the result either way.
- Null strings: the manager's own null checks are modelled (`Option`).
  - A null call-log number or local phone name is a plain string.
  - `Long.toString` of an id is modelled over unbounded integers.
- VcardFilter.RunPasses: the source writes the nine passes out one after another. The model runs them as a loop over the pass number with each block's own guard.
- VcardExport.ComposeAndSendVCards: the contacts and call-log branches are one method.
  - It requires an operation that nothing has touched and a composer that nothing has configured, as every caller creates them.
  - It does not state the vCard type a call-log composer gets.
- PhonebookLists.PhonebookNamesShape: stated for one entry `k` at a time; the length and owner-first clauses for every cursor, empty or missing included, are stated by `PhonebookNamesOwnerFirst`.
- PhonebookLists.GetCallHistorySize: its own contract states only the failed-query case. What the size counts is stated by `CallHistorySizeCountsList`.
